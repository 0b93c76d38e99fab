/** The export utility: every listed table goes through one PostgreSQL connection, COPY writes
    its CSV into a spool, the spool is uploaded as `<prefix><table>.<timestamp>.csv`, and a
    results dictionary records, table by table, the row count and key or the error. */
module Export {
  import opened Wrappers
  import opened PyValues
  import opened Upsert
  import opened Postgres
  import opened Utf8
  import opened Environment
  import opened ExportKeys

  // ---------- the spool and the COPY writer ----------

  /** What COPY TO STDOUT hands the writer in one call: text or bytes. */
  datatype Chunk = TextData(text: string) | ByteData(bytes: seq<byte>)

  /** What one _Writer.write call adds to the spool. */
  function ChunkBytes(c: Chunk): seq<byte> {
    match c
    case TextData(t) => Encode(t)
    case ByteData(b) => b
  }

  /** The spool's contents after the given writes, in order. */
  function SpoolBytes(cs: seq<Chunk>): seq<byte>
    decreases |cs|
  {
    if cs == [] then [] else SpoolBytes(cs[..|cs| - 1]) + ChunkBytes(cs[|cs| - 1])
  }

  predicate AllText(cs: seq<Chunk>) {
    forall i :: 0 <= i < |cs| ==> cs[i].TextData?
  }

  /** The text of all-text writes, run together. */
  function Texts(cs: seq<Chunk>): string
    requires AllText(cs)
    decreases |cs|
  {
    if cs == [] then "" else Texts(cs[..|cs| - 1]) + cs[|cs| - 1].text
  }

  /** The binary spool file (its spilling to disk is not modelled). */
  class Spool {
    var contents: seq<byte>

    constructor ()
      ensures contents == []
    {
      contents := [];
    }

    method Write(data: seq<byte>)
      modifies this
      ensures contents == old(contents) + data
    {
      contents := contents + data;
    }
  }

  /** The adapter handed to copy_expert: text is encoded as UTF-8, bytes pass through. */
  class Writer {
    const spool: Spool

    constructor (spool: Spool)
      ensures this.spool == spool
    {
      this.spool := spool;
    }

    method Write(data: Chunk)
      modifies spool
      ensures spool.contents == old(spool.contents) + ChunkBytes(data)
    {
      var bytes := if data.TextData? then Encode(data.text) else data.bytes;
      spool.Write(bytes);
    }
  }

  /** copy_expert delivering the table's CSV to the writer, one write per chunk. */
  method CopyInto(writer: Writer, chunks: seq<Chunk>)
    modifies writer.spool
    ensures writer.spool.contents == old(writer.spool.contents) + SpoolBytes(chunks)
  {
    for i := 0 to |chunks|
      invariant writer.spool.contents == old(writer.spool.contents) + SpoolBytes(chunks[..i])
    {
      assert chunks[..i + 1][..i] == chunks[..i];
      writer.Write(chunks[i]);
    }
    assert chunks[..|chunks|] == chunks;
  }

  // ---------- S3 ----------

  datatype Stored = Stored(body: seq<byte>, contentType: string)

  const ContentType := "text/csv"

  /** The buckets' objects, by (bucket, key). */
  class ObjectStore {
    var objects: map<(string, string), Stored>

    constructor (objects: map<(string, string), Stored>)
      ensures this.objects == objects
    {
      this.objects := objects;
    }

    /** upload_fileobj of the rewound spool; `failure` is the error the service answers with, if any. */
    method UploadFileobj(spool: Spool, bucket: string, key: string, failure: Option<string>) returns (err: Option<Error>)
      modifies this
      ensures failure.Some? ==> err == Some(S3Error(failure.value)) && objects == old(objects)
      ensures failure.None? ==> err.None? && objects == old(objects)[(bucket, key) := Stored(spool.contents, ContentType)]
    {
      if failure.Some? {
        return Some(S3Error(failure.value));
      }
      objects := objects[(bucket, key) := Stored(spool.contents, ContentType)];
      return None;
    }
  }

  // ---------- export_table_to_s3 ----------

  /** The returned {"rows": ..., "s3_key": ...}. */
  datatype Export = Export(rows: nat, key: string)

  const MissingBucket := EnvironmentError("Missing S3 bucket name.")

  /** export_table_to_s3 over an open connection: the COPY, then the bucket check, then the
      upload, then the count. */
  function ExportTable(db: Db, name: string, bucket: Option<string>, prefix: Option<string>,
                       timestamp: string, failure: Option<string>): (Db, Result<Export>)
  {
    var copy := CopyOut(db, name);
    if copy.1.Some? then (copy.0, Err(copy.1.value))
    else if !Truthy(bucket) then (copy.0, Err(MissingBucket))
    else if failure.Some? then (copy.0, Err(S3Error(failure.value)))
    else
      var count := CountRows(copy.0, name);
      match count.1
      case Err(e) => (count.0, Err(e))
      case Ok(n) => (count.0, Ok(Export(n, ExportKey(prefix, name, timestamp))))
  }

  /** Whether export_table_to_s3 reaches a successful upload. */
  predicate Uploaded(db: Db, name: string, bucket: Option<string>, failure: Option<string>) {
    CopyOut(db, name).1.None? && Truthy(bucket) && failure.None?
  }

  /** The store after export_table_to_s3. */
  function StoreAfter(objects: map<(string, string), Stored>, db: Db, name: string, bucket: Option<string>,
                      prefix: Option<string>, timestamp: string, chunks: seq<Chunk>, failure: Option<string>)
    : map<(string, string), Stored>
  {
    if Uploaded(db, name, bucket, failure)
    then objects[(bucket.value, ExportKey(prefix, name, timestamp)) := Stored(SpoolBytes(chunks), ContentType)]
    else objects
  }

  /** export_table_to_s3(name, bucket, prefix, conn, s3) with the clock reading `now`, the CSV
      arriving as `chunks` and the service's answer to the upload as `failure`. */
  method ExportTableToS3(conn: Connection, store: ObjectStore, name: string, bucket: Option<string>,
                         prefix: Option<string>, now: Stamp, chunks: seq<Chunk>, failure: Option<string>)
    returns (r: Result<Export>)
    modifies conn, store
    ensures (conn.db, r) == ExportTable(old(conn.db), name, bucket, prefix, TimestampNow(now), failure)
    ensures store.objects == StoreAfter(old(store.objects), old(conn.db), name, bucket, prefix, TimestampNow(now), chunks, failure)
    ensures conn.log == old(conn.log) + [Read(name)] + (if Uploaded(old(conn.db), name, bucket, failure) then [Read(name)] else [])
  {
    var key := ExportKey(prefix, name, TimestampNow(now));
    var spool := new Spool();
    var writer := new Writer(spool);
    var copyErr := conn.Copy(name);
    if copyErr.Some? {
      return Err(copyErr.value);
    }
    CopyInto(writer, chunks);
    assert spool.contents == SpoolBytes(chunks);
    if !Truthy(bucket) {
      return Err(MissingBucket);
    }
    var uploadErr := store.UploadFileobj(spool, bucket.value, key, failure);
    if uploadErr.Some? {
      return Err(uploadErr.value);
    }
    var count := conn.Count(name);
    match count {
      case Err(e) => r := Err(e);
      case Ok(n) => r := Ok(Export(n, key));
    }
  }

  // ---------- pg_connect ----------

  datatype PgConfig = PgConfig(host: string, port: string, database: string, user: string, password: string)

  const DefaultPort := "5432"
  const PgRequired := ["PG_HOST", "PG_DATABASE", "PG_USER", "PG_PASSWORD"]
  const MissingPgConfig :=
    EnvironmentError("Missing Postgres configuration. Ensure PG_HOST, PG_DATABASE, PG_USER, PG_PASSWORD are set.")

  /** The connection parameters pg_connect passes to psycopg2.connect, or its EnvironmentError. */
  function PgSettings(env: Env): Result<PgConfig> {
    var host, database, user, password :=
      Getenv(env, "PG_HOST"), Getenv(env, "PG_DATABASE"), Getenv(env, "PG_USER"), Getenv(env, "PG_PASSWORD");
    if Truthy(host) && Truthy(database) && Truthy(user) && Truthy(password)
    then Ok(PgConfig(host.value, GetenvOr(env, "PG_PORT", DefaultPort), database.value, user.value, password.value))
    else Err(MissingPgConfig)
  }

  /** pg_connect(); `reachable` says whether the server accepts the connection. */
  method PgConnect(env: Env, server: map<string, Table>, reachable: bool) returns (conn: Connection?, err: Option<Error>)
    ensures PgSettings(env).Err? ==> conn == null && err == Some(MissingPgConfig)
    ensures PgSettings(env).Ok? && !reachable ==> conn == null && err == Some(Database(ConnectionFailed))
    ensures PgSettings(env).Ok? && reachable ==>
              err.None? && conn != null && fresh(conn) && conn.db == Opened(server) && conn.log == []
  {
    var settings := PgSettings(env);
    if settings.Err? {
      return null, Some(settings.error);
    }
    if !reachable {
      return null, Some(Database(ConnectionFailed));
    }
    conn := new Connection(server);
    err := None;
  }

  // ---------- main ----------

  /** The parsed command line. */
  datatype Args = Args(bucket: Option<string>, prefix: string, tables: seq<string>, dryRun: bool)

  const DefaultTables := ["accounts", "transactions", "customers"]

  /** The command line with no options. */
  const DefaultArgs := Args(None, "", DefaultTables, false)

  /** `args.bucket or S3_BUCKET`. */
  function ChooseBucket(args: Args, env: Env): Option<string> {
    if Truthy(args.bucket) then args.bucket else Getenv(env, "S3_BUCKET")
  }

  /** One entry of the results dictionary. */
  datatype TableResult = Done(rows: nat, s3Key: Option<string>) | Failed(error: Error)

  /** What the outside world does while one table is exported: the clock reading, the CSV the
      server sends, and the service's answer to the upload. */
  datatype TableIO = TableIO(now: Stamp, chunks: seq<Chunk>, failure: Option<string>)

  /** The body of the try block for one table. */
  function TableOutcome(db: Db, table: string, bucket: string, args: Args, io: TableIO): (Db, TableResult) {
    if args.dryRun then
      var count := CountRows(db, table);
      (count.0, if count.1.Ok? then Done(count.1.value, None) else Failed(count.1.error))
    else
      var x := ExportTable(db, table, Some(bucket), Some(args.prefix), TimestampNow(io.now), io.failure);
      (x.0, if x.1.Ok? then Done(x.1.value.rows, Some(x.1.value.key)) else Failed(x.1.error))
  }

  /** The store after the try block for one table. */
  function TableStore(objects: map<(string, string), Stored>, db: Db, table: string, bucket: string,
                      args: Args, io: TableIO): map<(string, string), Stored>
  {
    if args.dryRun then objects
    else StoreAfter(objects, db, table, Some(bucket), Some(args.prefix), TimestampNow(io.now), io.chunks, io.failure)
  }

  /** The tables processed in order over one connection: the final connection state, the final
      store, and each table's entry in the order the tables were listed. */
  function Outcomes(db: Db, objects: map<(string, string), Stored>, tables: seq<string>, bucket: string,
                    args: Args, ios: seq<TableIO>): (r: (Db, map<(string, string), Stored>, seq<TableResult>))
    requires |ios| == |tables|
    ensures |r.2| == |tables|
    decreases |tables|
  {
    if tables == [] then (db, objects, [])
    else
      var step := TableOutcome(db, tables[0], bucket, args, ios[0]);
      var rest := Outcomes(step.0, TableStore(objects, db, tables[0], bucket, args, ios[0]),
                           tables[1..], bucket, args, ios[1..]);
      (rest.0, rest.1, [step.1] + rest.2)
  }

  /** A Python dict from table name to entry: its items in insertion order. */
  type Results = seq<(string, TableResult)>

  /** The keys of a dict, in insertion order. */
  function ResultKeys(d: Results): seq<string>
    decreases |d|
  {
    if d == [] then [] else [d[0].0] + ResultKeys(d[1..])
  }

  /** d[k] for a dict d. */
  function ResultOf(d: Results, k: string): Option<TableResult>
    decreases |d|
  {
    if d == [] then None else if d[0].0 == k then Some(d[0].1) else ResultOf(d[1..], k)
  }

  /** d[k] = v: an existing key keeps its place and takes the new value; a new key goes last. */
  function Assign(d: Results, k: string, v: TableResult): Results
    decreases |d|
  {
    if d == [] then [(k, v)]
    else if d[0].0 == k then [(k, v)] + d[1..]
    else [d[0]] + Assign(d[1..], k, v)
  }

  /** The results dictionary after `results[tables[i]] = outs[i]` for each i in turn. */
  function Collect(tables: seq<string>, outs: seq<TableResult>): Results
    requires |outs| == |tables|
    decreases |tables|
  {
    if tables == [] then []
    else Assign(Collect(tables[..|tables| - 1], outs[..|outs| - 1]), tables[|tables| - 1], outs[|outs| - 1])
  }

  /** The tables without repetitions, each where it first occurs. */
  function FirstOccurrences(ts: seq<string>): seq<string>
    decreases |ts|
  {
    if ts == [] then []
    else
      var d := FirstOccurrences(ts[..|ts| - 1]);
      if ts[|ts| - 1] in d then d else d + [ts[|ts| - 1]]
  }

  /** The try block of main's loop for one table. */
  method ProcessTable(conn: Connection, store: ObjectStore, table: string, bucket: string, args: Args, io: TableIO)
    returns (r: TableResult)
    modifies conn, store
    ensures (conn.db, r) == TableOutcome(old(conn.db), table, bucket, args, io)
    ensures store.objects == TableStore(old(store.objects), old(conn.db), table, bucket, args, io)
  {
    if args.dryRun {
      var n := conn.Count(table);
      r := if n.Ok? then Done(n.value, None) else Failed(n.error);
    } else {
      var x := ExportTableToS3(conn, store, table, Some(bucket), Some(args.prefix), io.now, io.chunks, io.failure);
      r := if x.Ok? then Done(x.value.rows, Some(x.value.key)) else Failed(x.error);
    }
  }

  /** main(): the exit status, the results dictionary and the connection it opened, if any. */
  method RunMain(args: Args, env: Env, server: map<string, Table>, reachable: bool, ios: seq<TableIO>, store: ObjectStore)
    returns (code: int, results: Results, conn: Connection?)
    requires |ios| == |args.tables|
    modifies store
    ensures !Truthy(ChooseBucket(args, env)) ==>
              code == 2 && results == [] && conn == null && store.objects == old(store.objects)
    ensures Truthy(ChooseBucket(args, env)) && (PgSettings(env).Err? || !reachable) ==>
              code == 3 && results == [] && conn == null && store.objects == old(store.objects)
    ensures Truthy(ChooseBucket(args, env)) && PgSettings(env).Ok? && reachable ==>
              code == 0 && conn != null && fresh(conn) &&
              var o := Outcomes(Opened(server), old(store.objects), args.tables, ChooseBucket(args, env).value, args, ios);
              conn.db == Close(o.0) && store.objects == o.1 && results == Collect(args.tables, o.2)
  {
    var bucket := ChooseBucket(args, env);
    if !Truthy(bucket) {
      return 2, [], null;
    }
    var c, err := PgConnect(env, server, reachable);
    if err.Some? {
      return 3, [], null;
    }
    conn := c;
    results := ProcessTables(conn, store, args.tables, bucket.value, args, ios);
    conn.CloseConnection();
    code := 0;
  }

  /** main's loop over the tables, over one connection, recording every outcome. */
  method ProcessTables(conn: Connection, store: ObjectStore, tables: seq<string>, bucket: string,
                       args: Args, ios: seq<TableIO>) returns (results: Results)
    requires |ios| == |tables|
    modifies conn, store
    ensures var o := Outcomes(old(conn.db), old(store.objects), tables, bucket, args, ios);
            conn.db == o.0 && store.objects == o.1 && results == Collect(tables, o.2)
  {
    results := [];
    ghost var o := Outcomes(conn.db, store.objects, tables, bucket, args, ios);
    ghost var outs: seq<TableResult> := [];
    for i := 0 to |tables|
      invariant outs == o.2[..i]
      invariant results == Collect(tables[..i], outs)
      invariant Outcomes(conn.db, store.objects, tables[i..], bucket, args, ios[i..]) == (o.0, o.1, o.2[i..])
    {
      OutcomesStep(conn.db, store.objects, tables, bucket, args, ios, i);
      var r := ProcessTable(conn, store, tables[i], bucket, args, ios[i]);
      ghost var rest := Outcomes(conn.db, store.objects, tables[i + 1..], bucket, args, ios[i + 1..]);
      SliceCons(o.2, i, r, rest.2);
      CollectStep(tables, outs, i, r);
      results := Assign(results, tables[i], r);
      outs := outs + [r];
    }
    WholeSlice(tables);
    WholeSlice(o.2);
  }

  /** A suffix that starts with y: its head is y and the rest is the next suffix; the prefix
      grows by y. */
  lemma SliceCons<T>(xs: seq<T>, i: nat, y: T, ys: seq<T>)
    requires i < |xs| && xs[i..] == [y] + ys
    ensures xs[i] == y && xs[i + 1..] == ys && xs[..i + 1] == xs[..i] + [y]
  {
    assert xs[i + 1..] == xs[i..][1..];
  }

  lemma WholeSlice<T>(xs: seq<T>)
    ensures xs[..|xs|] == xs && xs[|xs|..] == []
  {
  }

  /** Unfolding the remaining work by one table. */
  lemma OutcomesStep(db: Db, objects: map<(string, string), Stored>, tables: seq<string>, bucket: string,
                     args: Args, ios: seq<TableIO>, i: nat)
    requires |ios| == |tables| && i < |tables|
    ensures var step := TableOutcome(db, tables[i], bucket, args, ios[i]);
            var rest := Outcomes(step.0, TableStore(objects, db, tables[i], bucket, args, ios[i]), tables[i + 1..], bucket, args, ios[i + 1..]);
            Outcomes(db, objects, tables[i..], bucket, args, ios[i..]) == (rest.0, rest.1, [step.1] + rest.2)
  {
    assert tables[i..][1..] == tables[i + 1..] && ios[i..][1..] == ios[i + 1..];
  }

  /** Collecting one more entry. */
  lemma CollectStep(tables: seq<string>, outs: seq<TableResult>, i: nat, r: TableResult)
    requires i < |tables| && |outs| == i
    ensures Collect(tables[..i + 1], outs + [r]) == Assign(Collect(tables[..i], outs), tables[i], r)
  {
    assert tables[..i + 1][..i] == tables[..i];
    assert (outs + [r])[..i] == outs;
  }


  // ---------- the corrected loop ----------

  /** main's loop with conn.rollback() after a failed table, so that the next table starts on
      a usable transaction. */
  function RecoveringOutcomes(db: Db, objects: map<(string, string), Stored>, tables: seq<string>, bucket: string,
                              args: Args, ios: seq<TableIO>): (r: (Db, map<(string, string), Stored>, seq<TableResult>))
    requires |ios| == |tables|
    ensures |r.2| == |tables|
    decreases |tables|
  {
    if tables == [] then (db, objects, [])
    else
      var step := TableOutcome(db, tables[0], bucket, args, ios[0]);
      var next := if step.1.Failed? then Rollback(step.0).0 else step.0;
      var rest := RecoveringOutcomes(next, TableStore(objects, db, tables[0], bucket, args, ios[0]),
                                     tables[1..], bucket, args, ios[1..]);
      (rest.0, rest.1, [step.1] + rest.2)
  }

  // ---------- lemmas: the spool ----------

  /** Writes accumulate: the spool after two runs of writes is the first run's bytes followed by
      the second's. */
  lemma {:induction false} SpoolAppend(a: seq<Chunk>, b: seq<Chunk>)
    ensures SpoolBytes(a + b) == SpoolBytes(a) + SpoolBytes(b)
    decreases |b|
  {
    if b == [] {
      assert a + b == a;
    } else {
      var b' := b[..|b| - 1];
      assert (a + b)[..|a + b| - 1] == a + b';
      assert (a + b)[|a + b| - 1] == b[|b| - 1];
      SpoolAppend(a, b');
    }
  }

  /** Text written through the adapter is the UTF-8 encoding of the text run together, and
      decodes back to it. */
  lemma {:induction false} TextSpool(cs: seq<Chunk>)
    requires AllText(cs)
    ensures SpoolBytes(cs) == Encode(Texts(cs))
    ensures Decode(SpoolBytes(cs)) == Some(Texts(cs))
    decreases |cs|
  {
    if cs != [] {
      var init := cs[..|cs| - 1];
      assert AllText(init);
      TextSpool(init);
      EncodeAppend(Texts(init), cs[|cs| - 1].text);
    }
    DecodeEncode(Texts(cs));
  }

  // ---------- lemmas: one export ----------

  /** The outcomes of export_table_to_s3: it succeeds exactly when it uploads, which needs a
      usable transaction, an existing table, a bucket and an accepted upload; success reports the
      table's row count under the composed key; a missing bucket is reported after the COPY and
      before any upload. */
  lemma ExportTableCases(db: Db, name: string, bucket: Option<string>, prefix: Option<string>,
                         timestamp: string, failure: Option<string>)
    ensures ExportTable(db, name, bucket, prefix, timestamp, failure).1.Ok? <==> Uploaded(db, name, bucket, failure)
    ensures Uploaded(db, name, bucket, failure) <==>
              Refusal(db).None? && name in db.working && Truthy(bucket) && failure.None?
    ensures Uploaded(db, name, bucket, failure) ==>
              ExportTable(db, name, bucket, prefix, timestamp, failure)
              == (db, Ok(Export(|db.working[name].rows|, ExportKey(prefix, name, timestamp))))
    ensures CopyOut(db, name).1.None? && !Truthy(bucket) ==>
              ExportTable(db, name, bucket, prefix, timestamp, failure).1 == Err(MissingBucket)
  {
  }

  /** The export only reads: the tables stay as they were; a database error aborts the open
      transaction, while a missing bucket or a refused upload leaves it usable. */
  lemma ExportTableReads(db: Db, name: string, bucket: Option<string>, prefix: Option<string>,
                         timestamp: string, failure: Option<string>)
    ensures var r := ExportTable(db, name, bucket, prefix, timestamp, failure);
            r.0.committed == db.committed && r.0.working == db.working && r.0.closed == db.closed
    ensures var r := ExportTable(db, name, bucket, prefix, timestamp, failure);
            r.1.Err? && r.1.error.Database? && !db.closed ==> r.0.aborted
    ensures var r := ExportTable(db, name, bucket, prefix, timestamp, failure);
            r.1.Err? && !r.1.error.Database? ==> r.0 == db
  {
  }

  // ---------- lemmas: configuration ----------

  /** pg_connect's check: all four of host, database, user and password must be set and
      non-empty; the port is not checked and defaults to 5432 only when unset. */
  lemma PgSettingsChecks(env: Env)
    ensures PgSettings(env).Ok? <==> forall i :: 0 <= i < |PgRequired| ==> Truthy(Getenv(env, PgRequired[i]))
    ensures PgSettings(env).Err? ==> PgSettings(env).error == MissingPgConfig
    ensures PgSettings(env).Ok? <==> PgSettings(env - {"PG_PORT"}).Ok?
    ensures PgSettings(env).Ok? && "PG_PORT" !in env ==> PgSettings(env).value.port == "5432"
    ensures PgSettings(env).Ok? && "PG_PORT" in env ==> PgSettings(env).value.port == env["PG_PORT"]
  {
    assert PgRequired[0] == "PG_HOST" && PgRequired[1] == "PG_DATABASE";
    assert PgRequired[2] == "PG_USER" && PgRequired[3] == "PG_PASSWORD";
    var rest := env - {"PG_PORT"};
    assert "PG_HOST" != "PG_PORT" && "PG_DATABASE" != "PG_PORT" && "PG_USER" != "PG_PORT" && "PG_PASSWORD" != "PG_PORT";
    assert Getenv(rest, "PG_HOST") == Getenv(env, "PG_HOST") && Getenv(rest, "PG_DATABASE") == Getenv(env, "PG_DATABASE");
    assert Getenv(rest, "PG_USER") == Getenv(env, "PG_USER") && Getenv(rest, "PG_PASSWORD") == Getenv(env, "PG_PASSWORD");
  }

  /** The --bucket option wins over S3_BUCKET; an empty option falls back to the variable. */
  lemma BucketPrecedence(args: Args, env: Env)
    ensures Truthy(ChooseBucket(args, env)) <==> Truthy(args.bucket) || Truthy(Getenv(env, "S3_BUCKET"))
    ensures Truthy(args.bucket) ==> ChooseBucket(args, env) == args.bucket
    ensures !Truthy(args.bucket) && Truthy(Getenv(env, "S3_BUCKET")) ==> ChooseBucket(args, env) == Some(env["S3_BUCKET"])
  {
  }

  // ---------- lemmas: the results dictionary ----------

  /** A key has an entry exactly when it is among the keys. */
  lemma {:induction false} ResultOfKeys(d: Results, k: string)
    ensures ResultOf(d, k).Some? <==> k in ResultKeys(d)
    decreases |d|
  {
    if d != [] {
      ResultOfKeys(d[1..], k);
    }
  }

  /** After d[k] = v: d[k] is v, every other key keeps its entry, and the keys are those of
      before, with k added last if it was new. */
  lemma {:induction false} AssignSpec(d: Results, k: string, v: TableResult)
    ensures ResultOf(Assign(d, k, v), k) == Some(v)
    ensures forall k' :: k' != k ==> ResultOf(Assign(d, k, v), k') == ResultOf(d, k')
    ensures ResultKeys(Assign(d, k, v)) == if k in ResultKeys(d) then ResultKeys(d) else ResultKeys(d) + [k]
    decreases |d|
  {
    if d != [] && d[0].0 != k {
      AssignSpec(d[1..], k, v);
      var a := Assign(d, k, v);
      assert a == [d[0]] + Assign(d[1..], k, v);
      assert a[1..] == Assign(d[1..], k, v);
      assert ResultKeys(a) == [d[0].0] + ResultKeys(Assign(d[1..], k, v));
      if k !in ResultKeys(d[1..]) {
        assert ResultKeys(a) == [d[0].0] + (ResultKeys(d[1..]) + [k]);
        assert ResultKeys(a) == ([d[0].0] + ResultKeys(d[1..])) + [k];
      }
    } else if d != [] {
      var a := Assign(d, k, v);
      assert a[1..] == d[1..];
    }
  }

  /** The tables without repetitions are distinct and are exactly the listed tables. */
  lemma {:induction false} FirstOccurrencesSpec(ts: seq<string>)
    ensures Distinct(FirstOccurrences(ts))
    ensures forall t :: t in FirstOccurrences(ts) <==> t in ts
    decreases |ts|
  {
    if ts != [] {
      var init := ts[..|ts| - 1];
      FirstOccurrencesSpec(init);
      assert ts == init + [ts[|ts| - 1]];
    }
  }

  /** The results dictionary has one entry per distinct listed table, in the order in which the
      tables were first listed. */
  lemma {:induction false} CollectKeys(tables: seq<string>, outs: seq<TableResult>)
    requires |outs| == |tables|
    ensures ResultKeys(Collect(tables, outs)) == FirstOccurrences(tables)
    decreases |tables|
  {
    if tables != [] {
      var n := |tables| - 1;
      CollectKeys(tables[..n], outs[..n]);
      AssignSpec(Collect(tables[..n], outs[..n]), tables[n], outs[n]);
    }
  }

  /** A listed table's entry is the outcome of its last listing; an unlisted one has none. */
  lemma {:induction false} CollectLast(tables: seq<string>, outs: seq<TableResult>, t: string)
    requires |outs| == |tables|
    ensures t !in tables ==> ResultOf(Collect(tables, outs), t).None?
    ensures forall i :: 0 <= i < |tables| && tables[i] == t && (forall j :: i < j < |tables| ==> tables[j] != t) ==>
              ResultOf(Collect(tables, outs), t) == Some(outs[i])
    decreases |tables|
  {
    if tables != [] {
      var n := |tables| - 1;
      CollectLast(tables[..n], outs[..n], t);
      AssignSpec(Collect(tables[..n], outs[..n]), tables[n], outs[n]);
      forall i | 0 <= i < |tables| && tables[i] == t && (forall j :: i < j < |tables| ==> tables[j] != t)
        ensures ResultOf(Collect(tables, outs), t) == Some(outs[i])
      {
        if i < n {
          assert tables[n] != t;
          assert tables[..n][i] == t && outs[..n][i] == outs[i];
          assert forall j :: i < j < n ==> tables[..n][j] == tables[j];
        }
      }
      if t !in tables {
        assert forall x :: x in tables[..n] ==> x in tables;
      }
    }
  }

  // ---------- lemmas: the loop over the tables ----------

  /** One table: a dry run uploads nothing and its entry carries no key; a real run's
      successful entry carries the key composed from the prefix, the table and the clock reading. */
  lemma TableOutcomeKey(db: Db, objects: map<(string, string), Stored>, table: string, bucket: string,
                        args: Args, io: TableIO)
    ensures args.dryRun ==> TableStore(objects, db, table, bucket, args, io) == objects
    ensures EntryKey(TableOutcome(db, table, bucket, args, io).1, table, args, io)
  {
    ExportTableCases(db, table, Some(bucket), Some(args.prefix), TimestampNow(io.now), io.failure);
  }

  /** A successful entry carries no key in a dry run, and the composed key otherwise. */
  predicate EntryKey(r: TableResult, table: string, args: Args, io: TableIO) {
    r.Done? ==> r.s3Key == if args.dryRun then None else Some(ExportKey(Some(args.prefix), table, TimestampNow(io.now)))
  }

  /** A dry run leaves the store as it was. */
  lemma {:induction false} DryRunUploadsNothing(db: Db, objects: map<(string, string), Stored>, tables: seq<string>,
                                                bucket: string, args: Args, ios: seq<TableIO>)
    requires |ios| == |tables| && args.dryRun
    ensures Outcomes(db, objects, tables, bucket, args, ios).1 == objects
    decreases |tables|
  {
    if tables != [] {
      var step := TableOutcome(db, tables[0], bucket, args, ios[0]);
      TableOutcomeKey(db, objects, tables[0], bucket, args, ios[0]);
      DryRunUploadsNothing(step.0, objects, tables[1..], bucket, args, ios[1..]);
    }
  }

  /** Each successful entry carries the key expected for the table at its position. */
  predicate KeysAgree(rs: seq<TableResult>, tables: seq<string>, args: Args, ios: seq<TableIO>)
    requires |rs| == |tables| == |ios|
  {
    forall i :: 0 <= i < |rs| ==> EntryKey(rs[i], tables[i], args, ios[i])
  }

  lemma KeysAgreeCons(rs: seq<TableResult>, tables: seq<string>, args: Args, ios: seq<TableIO>)
    requires |rs| == |tables| == |ios| && rs != []
    requires EntryKey(rs[0], tables[0], args, ios[0]) && KeysAgree(rs[1..], tables[1..], args, ios[1..])
    ensures KeysAgree(rs, tables, args, ios)
  {
    forall i | 0 <= i < |rs|
      ensures EntryKey(rs[i], tables[i], args, ios[i])
    {
      if i > 0 {
        assert rs[i] == rs[1..][i - 1] && tables[i] == tables[1..][i - 1] && ios[i] == ios[1..][i - 1];
      }
    }
  }

  /** Every successful entry of the loop: no key in a dry run, else the composed key. */
  lemma {:induction false} OutcomeKeys(db: Db, objects: map<(string, string), Stored>, tables: seq<string>,
                                       bucket: string, args: Args, ios: seq<TableIO>)
    requires |ios| == |tables|
    ensures KeysAgree(Outcomes(db, objects, tables, bucket, args, ios).2, tables, args, ios)
    decreases |tables|
  {
    if tables != [] {
      var step := TableOutcome(db, tables[0], bucket, args, ios[0]);
      var objects' := TableStore(objects, db, tables[0], bucket, args, ios[0]);
      OutcomeKeys(step.0, objects', tables[1..], bucket, args, ios[1..]);
      TableOutcomeKey(db, objects, tables[0], bucket, args, ios[0]);
      var o := Outcomes(db, objects, tables, bucket, args, ios);
      assert o.2 == [step.1] + Outcomes(step.0, objects', tables[1..], bucket, args, ios[1..]).2;
      assert o.2[1..] == Outcomes(step.0, objects', tables[1..], bucket, args, ios[1..]).2;
      KeysAgreeCons(o.2, tables, args, ios);
    }
  }

  /** Once a statement has failed, every later table of the loop is refused with
      InFailedTransaction, uploads nothing, and the connection stays as it is. */
  lemma {:induction false} AbortedPoisonsRest(db: Db, objects: map<(string, string), Stored>, tables: seq<string>,
                                              bucket: string, args: Args, ios: seq<TableIO>)
    requires |ios| == |tables| && db.aborted && !db.closed
    ensures Outcomes(db, objects, tables, bucket, args, ios).0 == db
    ensures Outcomes(db, objects, tables, bucket, args, ios).1 == objects
    ensures forall i :: 0 <= i < |tables| ==>
              Outcomes(db, objects, tables, bucket, args, ios).2[i] == Failed(Database(InFailedTransaction))
    decreases |tables|
  {
    if tables != [] {
      AbortedPoisonsRest(db, objects, tables[1..], bucket, args, ios[1..]);
      var o := Outcomes(db, objects, tables, bucket, args, ios);
      var rest := Outcomes(db, objects, tables[1..], bucket, args, ios[1..]);
      assert TableOutcome(db, tables[0], bucket, args, ios[0]) == (db, Failed(Database(InFailedTransaction)));
      assert o.2 == [Failed(Database(InFailedTransaction))] + rest.2;
    }
  }

  /** The loop as written: a missing first table makes the existing second one fail too,
      although exported on its own it would not fail that way. */
  lemma MissingTablePoisonsNext(server: map<string, Table>, objects: map<(string, string), Stored>,
                                bucket: string, args: Args, ios: seq<TableIO>)
    requires "missing" !in server && "accounts" in server && |ios| == 2
    ensures Outcomes(Opened(server), objects, ["missing", "accounts"], bucket, args, ios).2
            == [Failed(Database(UndefinedTable)), Failed(Database(InFailedTransaction))]
    ensures TableOutcome(Opened(server), "accounts", bucket, args, ios[1]).1 != Failed(Database(InFailedTransaction))
  {
    var tables := ["missing", "accounts"];
    var first := TableOutcome(Opened(server), "missing", bucket, args, ios[0]);
    assert first.1 == Failed(Database(UndefinedTable)) && first.0.aborted && !first.0.closed;
    assert tables[1..] == ["accounts"];
    AbortedPoisonsRest(first.0, TableStore(objects, Opened(server), "missing", bucket, args, ios[0]), tables[1..], bucket, args, ios[1..]);
  }

  /** What one table's try block does to the connection: it only reads, and it leaves the
      connection as it was unless it failed. */
  lemma TableOutcomeReads(db: Db, table: string, bucket: string, args: Args, io: TableIO)
    ensures var r := TableOutcome(db, table, bucket, args, io);
            r.0.committed == db.committed && r.0.closed == db.closed && (r.1.Done? ==> r.0 == db)
  {
    ExportTableReads(db, table, Some(bucket), Some(args.prefix), TimestampNow(io.now), io.failure);
  }

  /** Each table exported on its own, on a fresh connection to the same server. */
  function Standalone(server: map<string, Table>, tables: seq<string>, bucket: string, args: Args, ios: seq<TableIO>)
    : (r: seq<TableResult>)
    requires |ios| == |tables|
    ensures |r| == |tables|
    ensures forall i :: 0 <= i < |tables| ==> r[i] == TableOutcome(Opened(server), tables[i], bucket, args, ios[i]).1
    decreases |tables|
  {
    if tables == [] then []
    else [TableOutcome(Opened(server), tables[0], bucket, args, ios[0]).1] + Standalone(server, tables[1..], bucket, args, ios[1..])
  }

  /** With a rollback after each failure, every table's entry is what exporting that table alone
      on a fresh connection gives. */
  lemma {:induction false} RecoveringIndependent(server: map<string, Table>, objects: map<(string, string), Stored>,
                                                 tables: seq<string>, bucket: string, args: Args, ios: seq<TableIO>)
    requires |ios| == |tables|
    ensures RecoveringOutcomes(Opened(server), objects, tables, bucket, args, ios).2 == Standalone(server, tables, bucket, args, ios)
    decreases |tables|
  {
    if tables != [] {
      RecoveryRestores(server, tables[0], bucket, args, ios[0]);
      var objects' := TableStore(objects, Opened(server), tables[0], bucket, args, ios[0]);
      RecoveringIndependent(server, objects', tables[1..], bucket, args, ios[1..]);
    }
  }

  /** On a fresh connection, one table followed by the rollback a failure calls for leaves the
      connection fresh again. */
  lemma RecoveryRestores(server: map<string, Table>, table: string, bucket: string, args: Args, io: TableIO)
    ensures var step := TableOutcome(Opened(server), table, bucket, args, io);
            (if step.1.Failed? then Rollback(step.0).0 else step.0) == Opened(server)
  {
    TableOutcomeReads(Opened(server), table, bucket, args, io);
  }

  /** The intended loop on the same two tables: the existing table gets its own outcome. */
  lemma RecoveringMissingTable(server: map<string, Table>, objects: map<(string, string), Stored>,
                               bucket: string, args: Args, ios: seq<TableIO>)
    requires "missing" !in server && "accounts" in server && |ios| == 2
    ensures RecoveringOutcomes(Opened(server), objects, ["missing", "accounts"], bucket, args, ios).2
            == [Failed(Database(UndefinedTable)), TableOutcome(Opened(server), "accounts", bucket, args, ios[1]).1]
  {
    RecoveringIndependent(server, objects, ["missing", "accounts"], bucket, args, ios);
  }

}
