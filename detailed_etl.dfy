/** The second ETL file (extended logging): its settings and S3 prefix normalisation, the
    token-checked extraction, the generic upsert_table that derives the column list, the rows
    and the SET clause from the dicts it is given, and the S3 key of export_table_to_s3. */
module DetailedEtl {
  import opened Wrappers
  import opened PyValues
  import opened Upsert
  import opened Postgres
  import opened Extract
  import opened Environment

  /** REQUIRED_ENV of this file. __init__ insists on the first eight only: AWS_S3_PREFIX is read
      with a default. */
  const RequiredEnv: seq<string> := InitEnv + ["AWS_S3_PREFIX"]

  /** The names __init__ reads with env_or_fail, in order. */
  const InitEnv: seq<string> :=
    ["PLAID_CLIENT_ID", "PLAID_SECRET", "PG_HOST", "PG_PORT", "PG_DATABASE", "PG_USER", "PG_PASSWORD", "AWS_S3_BUCKET"]

  datatype Settings = Settings(clientId: string, secret: string,
                               accessToken: Option<string>, publicToken: Option<string>,
                               host: string, port: string, database: string, user: string, password: string,
                               bucket: string, prefix: string)

  /** __init__'s reads, in order; the prefix as read, before normalisation. */
  function LoadSettings(env: Env): Result<Settings> {
    var clientId :- EnvOrFail(env, "PLAID_CLIENT_ID");
    var secret :- EnvOrFail(env, "PLAID_SECRET");
    var host :- EnvOrFail(env, "PG_HOST");
    var port :- EnvOrFail(env, "PG_PORT");
    var database :- EnvOrFail(env, "PG_DATABASE");
    var user :- EnvOrFail(env, "PG_USER");
    var password :- EnvOrFail(env, "PG_PASSWORD");
    var bucket :- EnvOrFail(env, "AWS_S3_BUCKET");
    Ok(Settings(clientId, secret, Getenv(env, "PLAID_ACCESS_TOKEN"), Getenv(env, "PLAID_PUBLIC_TOKEN"),
                host, port, database, user, password, bucket, GetenvOr(env, "AWS_S3_PREFIX", "")))
  }

  /** A non-empty prefix gets a '/' appended unless it already ends with one. */
  function NormalizeTrailing(p: string): string {
    if p != "" && p[|p| - 1] != '/' then p + "/" else p
  }

  predicate EndsWithSlash(p: string) {
    p != "" && p[|p| - 1] == '/'
  }

  /** The S3 key of export_table_to_s3. */
  function ExportKey(prefix: string, table: string): string {
    prefix + table + ".csv"
  }

  const TimestampColumns: set<string> := {"created_at", "updated_at"}

  /** d.get(col, default) on a dict. */
  function DictGet(d: seq<Entry>, col: string, default: Value): Value {
    match Lookup(d, col)
    case Some(v) => v
    case None => default
  }

  /** One cell of upsert_table's row: a timestamp column keeps the dict's value and defaults to
      `now`; any other column is safe_str of the value, None when the dict lacks it. */
  function Cell(d: seq<Entry>, col: string, now: Stamp): Value {
    if col in TimestampColumns then DictGet(d, col, Time(now)) else SafeStr(DictGet(d, col, Null))
  }

  function BuildRow(d: seq<Entry>, columns: seq<string>, now: Stamp): (row: seq<Value>)
    ensures |row| == |columns|
  {
    seq(|columns|, i requires 0 <= i < |columns| => Cell(d, columns[i], now))
  }

  /** update_cols: the columns other than the conflict column, in their order. */
  function UpdateColumns(columns: seq<string>, conflict: string): seq<string>
    decreases |columns|
  {
    if columns == [] then []
    else (if columns[0] != conflict then [columns[0]] else []) + UpdateColumns(columns[1..], conflict)
  }

  function Assignment(col: string): string {
    col + "=EXCLUDED." + col
  }

  function Assignments(cols: seq<string>): (r: seq<string>)
    ensures |r| == |cols|
  {
    seq(|cols|, i requires 0 <= i < |cols| => Assignment(cols[i]))
  }

  /** set_clause: the assignments joined by ", ". */
  function SetClause(cols: seq<string>): string {
    Join(Assignments(cols), ", ")
  }

  /** The statement text upsert_table hands to execute_values (%s stands for the VALUES list). */
  function UpsertQuery(table: string, columns: seq<string>, conflict: string): string {
    "INSERT INTO " + table + " (" + Join(columns, ", ") + ") VALUES %s ON CONFLICT (" + conflict
      + ") DO UPDATE SET " + SetClause(UpdateColumns(columns, conflict))
  }

  /** What that text asks PostgreSQL to do. */
  function GenericStatement(columns: seq<string>, conflict: string): Statement {
    Statement(columns, conflict, UpdateColumns(columns, conflict))
  }

  /** The rows of upsert_table, one per dict, in order. */
  function Rows(data: seq<seq<Entry>>, columns: seq<string>, now: Stamp): (rows: seq<seq<Value>>)
    ensures |rows| == |data|
  {
    seq(|data|, i requires 0 <= i < |data| => BuildRow(data[i], columns, now))
  }

  /** The five placeholder tables, which run() upserts with an empty list. */
  const PlaceholderTables: seq<string> := ["categories", "customers", "products", "orders", "order_items"]

  const MissingAccessToken: Error := ValueError("PLAID_ACCESS_TOKEN is required")

  class DetailedEtl {
    const settings: Settings
    var s3Prefix: string
    var accessToken: Option<string>
    var conn: Connection?

    /** __init__ after the settings are read: the prefix gets its trailing '/'. */
    constructor (settings: Settings)
      ensures this.settings == settings && s3Prefix == NormalizeTrailing(settings.prefix)
      ensures accessToken == settings.accessToken && conn == null
    {
      this.settings := settings;
      s3Prefix := settings.prefix;
      accessToken := settings.accessToken;
      conn := null;
      new;
      if s3Prefix != "" && s3Prefix[|s3Prefix| - 1] != '/' {
        s3Prefix := s3Prefix + "/";
      }
    }

    /** extract_accounts: the token check, then resp.get("accounts", []). */
    method ExtractAccounts(reply: AccountsReply) returns (r: Result<seq<Value>>)
      ensures !Truthy(accessToken) ==> r == Err(MissingAccessToken)
      ensures Truthy(accessToken) ==> r == Accounts(reply, Defaulted)
    {
      if !Truthy(accessToken) {
        return Err(MissingAccessToken);
      }
      r := Accounts(reply, Defaulted);
    }

    /** extract_transactions: the token check, the default window, then the same pagination loop
        as the first file, with a missing "transactions" field read as an empty page. */
    method ExtractTransactions(start: Option<string>, end: Option<string>, today: int,
                               replies: seq<TransactionsReply>)
      returns (r: Result<seq<Value>>, requests: seq<Request>)
      ensures !Truthy(accessToken) ==> r == Err(MissingAccessToken) && requests == []
      ensures Truthy(accessToken) ==>
                (r.Ok? <==> Pages(replies, Defaulted).Ok?) &&
                (r.Ok? ==> r.value == Pages(replies, Defaulted).value.0) &&
                (r.Err? ==> r.error == Pages(replies, Defaulted).error) &&
                forall i :: 0 <= i < |requests| ==> requests[i] == Window(accessToken, start, end, today)
    {
      if !Truthy(accessToken) {
        return Err(MissingAccessToken), [];
      }
      r, requests := Paginate(Window(accessToken, start, end, today), replies, Defaulted);
    }

    /** The loop that fills `rows`, one tuple per dict. */
    static method BuildRows(data: seq<seq<Entry>>, columns: seq<string>, now: Stamp) returns (rows: seq<seq<Value>>)
      ensures rows == Rows(data, columns, now)
    {
      rows := [];
      for i := 0 to |data|
        invariant rows == Rows(data[..i], columns, now)
      {
        assert data[..i + 1][..i] == data[..i];
        rows := rows + [BuildRow(data[i], columns, now)];
      }
      assert data[..|data|] == data;
    }

    /** upsert_table: nothing at all for an empty list; otherwise one execute_values call with the
        statement derived from the first dict's keys, then commit. */
    method UpsertTable(name: string, data: seq<seq<Entry>>, conflict: string, now: Stamp)
      returns (r: Result<()>)
      requires conn != null
      modifies conn
      ensures data == [] ==> r == Ok(()) && conn.db == old(conn.db) && conn.log == old(conn.log)
      ensures data != [] ==>
                var columns := EntryKeys(data[0]);
                var up := ApplyUpsert(old(conn.db), name, GenericStatement(columns, conflict), Rows(data, columns, now));
                if up.1.Err? then r == Err(up.1.error) && conn.db == up.0 && conn.log == old(conn.log) + [Wrote(name)]
                else r == Ok(()) && conn.db == Commit(up.0).0 && conn.log == old(conn.log) + [Wrote(name), Committed]
    {
      if data == [] {
        return Ok(());
      }
      var columns := EntryKeys(data[0]);
      var rows := BuildRows(data, columns, now);
      var pages := conn.ExecuteUpsert(name, GenericStatement(columns, conflict), rows);
      if pages.Err? {
        return Err(pages.error);
      }
      var err := conn.CommitWork();
      r := Ok(());
    }

    /** The placeholder-table calls of run(): each has no data, so no statement is sent. */
    method UpsertPlaceholders(now: Stamp) returns (r: Result<()>)
      requires conn != null
      modifies conn
      ensures r == Ok(()) && conn.db == old(conn.db) && conn.log == old(conn.log)
    {
      for i := 0 to |PlaceholderTables|
        invariant conn.db == old(conn.db) && conn.log == old(conn.log)
      {
        r := UpsertTable(PlaceholderTables[i], [], "created_at", now);
      }
      r := Ok(());
    }

    /** export_table_to_s3: SELECT * (any refusal raises), then the upload under the derived key;
        `upload` is the upload's failure, if any. */
    method ExportTableToS3(name: string, upload: Option<string>) returns (r: Result<string>)
      requires conn != null
      modifies conn
      ensures var read := CopyOut(old(conn.db), name);
              conn.db == read.0 && conn.log == old(conn.log) + [Read(name)] &&
              r == (if read.1.Some? then Err(read.1.value)
                    else if upload.Some? then Err(S3Error(upload.value))
                    else Ok(ExportKey(s3Prefix, name)))
    {
      var err := conn.Copy(name);
      if err.Some? {
        return Err(err.value);
      }
      if upload.Some? {
        return Err(S3Error(upload.value));
      }
      r := Ok(ExportKey(s3Prefix, name));
    }
  }

  // ---------- lemmas ----------

  /** __init__ requires exactly the first eight names of REQUIRED_ENV, in that order; an unset
      AWS_S3_PREFIX is read as "". */
  lemma SettingsNeedEightVariables(env: Env)
    ensures LoadSettings(env).Ok? <==> RequireAll(env, InitEnv).Ok?
    ensures LoadSettings(env).Err? ==> LoadSettings(env).error == RequireAll(env, InitEnv).error
    ensures LoadSettings(env).Ok? && "AWS_S3_PREFIX" !in env ==> LoadSettings(env).value.prefix == ""
  {
    var ks := InitEnv;
    assert ks[1..][1..][1..][1..][1..][1..][1..][1..] == [];
  }

  /** The normalised prefix is empty or ends with '/', extends the original by at most that '/',
      and normalising again changes nothing. */
  lemma NormalizeTrailingProperties(p: string)
    ensures var q := NormalizeTrailing(p);
            (q == "" || EndsWithSlash(q)) && (q == "" <==> p == "") && p <= q && |q| <= |p| + 1
            && NormalizeTrailing(q) == q
  {
  }

  /** Keys under one prefix are distinct for distinct table names, and each key ends in ".csv"
      after the table name. */
  lemma ExportKeysDistinct(prefix: string, a: string, b: string)
    ensures ExportKey(prefix, a) == ExportKey(prefix, b) <==> a == b
    ensures ExportKey(prefix, a)[..|prefix| + |a|] == prefix + a
    ensures ExportKey(prefix, a)[|prefix| + |a|..] == ".csv"
  {
    if ExportKey(prefix, a) == ExportKey(prefix, b) {
      assert |a| == |b|;
      assert a == ExportKey(prefix, a)[|prefix|..|prefix| + |a|];
      assert b == ExportKey(prefix, b)[|prefix|..|prefix| + |b|];
    }
  }

  /** Both extraction methods fail without a token: ExtractAccounts and ExtractTransactions state
      it; here, a missing "transactions" field is an empty page, not the KeyError of the first file. */
  lemma MissingFieldIsEmptyPage(total: Option<int>)
    ensures Records(Page(None, total), Defaulted) == Ok([])
    ensures Records(Page(None, total), Subscripted) == Err(KeyError("transactions"))
    ensures Accounts(AccountsPage(None), Defaulted) == Ok([])
  {
  }

  /** update_cols holds exactly the columns other than the conflict column. */
  lemma {:induction false} UpdateColumnsMembers(columns: seq<string>, conflict: string)
    ensures forall c :: c in UpdateColumns(columns, conflict) <==> c in columns && c != conflict
    decreases |columns|
  {
    if columns != [] {
      UpdateColumnsMembers(columns[1..], conflict);
      assert columns == [columns[0]] + columns[1..];
    }
  }

  /** update_cols keeps the column order: filtering a concatenation filters each part. */
  lemma {:induction false} UpdateColumnsAppend(a: seq<string>, b: seq<string>, conflict: string)
    ensures UpdateColumns(a + b, conflict) == UpdateColumns(a, conflict) + UpdateColumns(b, conflict)
    decreases |a|
  {
    if a != [] {
      assert (a + b)[1..] == a[1..] + b;
      UpdateColumnsAppend(a[1..], b, conflict);
    } else {
      assert a + b == b;
    }
  }

  /** With distinct column names, update_cols is one shorter than the columns when the conflict
      column is among them, and as long otherwise; its names are distinct too. */
  lemma {:induction false} UpdateColumnsLength(columns: seq<string>, conflict: string)
    requires Distinct(columns)
    ensures |UpdateColumns(columns, conflict)| == if conflict in columns then |columns| - 1 else |columns|
    ensures Distinct(UpdateColumns(columns, conflict))
    decreases |columns|
  {
    if columns != [] {
      var rest := columns[1..];
      assert Distinct(rest) by {
        forall i, j | 0 <= i < j < |rest| ensures rest[i] != rest[j] {
          assert rest[i] == columns[i + 1] && rest[j] == columns[j + 1];
        }
      }
      UpdateColumnsLength(rest, conflict);
      UpdateColumnsMembers(rest, conflict);
      assert columns[0] !in rest by {
        forall j | 0 <= j < |rest| ensures rest[j] != columns[0] {
          assert rest[j] == columns[j + 1];
        }
      }
      assert conflict in columns <==> conflict == columns[0] || conflict in rest;
      var u := UpdateColumns(rest, conflict);
      var head: seq<string> := if columns[0] != conflict then [columns[0]] else [];
      assert UpdateColumns(columns, conflict) == head + u;
      forall i, j | 0 <= i < j < |head + u| ensures (head + u)[i] != (head + u)[j] {
        if head != [] && i == 0 {
          assert (head + u)[j] == u[j - 1];
          assert u[j - 1] in u;
        }
      }
    }
  }

  lemma {:induction false} JoinNonEmpty(parts: seq<string>, sep: string)
    requires forall i :: 0 <= i < |parts| ==> parts[i] != ""
    ensures Join(parts, sep) == "" <==> parts == []
    decreases |parts|
  {
    if |parts| > 1 {
      JoinNonEmpty(parts[1..], sep);
    }
  }

  /** Joining keeps concatenation: the clause of two non-empty lists is the two clauses joined by
      the separator. */
  lemma {:induction false} JoinAppend(a: seq<string>, b: seq<string>, sep: string)
    requires a != [] && b != []
    ensures Join(a + b, sep) == Join(a, sep) + sep + Join(b, sep)
    decreases |a|
  {
    if |a| == 1 {
      assert (a + b)[0] == a[0] && (a + b)[1..] == b;
    } else {
      assert (a + b)[1..] == a[1..] + b;
      JoinAppend(a[1..], b, sep);
    }
  }

  /** The SET clause is empty exactly when there is nothing to update — the case PostgreSQL
      rejects as a syntax error; it is one assignment per column, in order, joined by ", ". */
  lemma SetClauseShape(columns: seq<string>, conflict: string)
    ensures SetClause(UpdateColumns(columns, conflict)) == "" <==> !AcceptedSql(GenericStatement(columns, conflict))
    ensures forall c :: [c] == UpdateColumns(columns, conflict) ==> SetClause([c]) == c + "=EXCLUDED." + c
  {
    var u := UpdateColumns(columns, conflict);
    JoinNonEmpty(Assignments(u), ", ");
  }

  lemma SetClauseAppend(a: seq<string>, b: seq<string>)
    requires a != [] && b != []
    ensures SetClause(a + b) == SetClause(a) + ", " + SetClause(b)
  {
    assert Assignments(a + b) == Assignments(a) + Assignments(b);
    JoinAppend(Assignments(a), Assignments(b), ", ");
  }

  /** The statement text ends with the SET list of the statement it stands for: the columns
      GenericStatement overwrites on conflict. */
  lemma UpsertQueryStatement(table: string, columns: seq<string>, conflict: string)
    ensures var q := UpsertQuery(table, columns, conflict);
            var tail := " DO UPDATE SET " + SetClause(GenericStatement(columns, conflict).setColumns);
            |tail| <= |q| && q[|q| - |tail|..] == tail
  {
    var q := UpsertQuery(table, columns, conflict);
    var tail := " DO UPDATE SET " + SetClause(GenericStatement(columns, conflict).setColumns);
    var head := "INSERT INTO " + table + " (" + Join(columns, ", ") + ") VALUES %s ON CONFLICT (" + conflict + ")";
    assert q == head + tail;
    assert q[|head|..] == tail;
  }

  /** Each row has one value per column. A timestamp column holds the dict's value, or the batch's
      `now` when the dict lacks it (the same `now` for every row); every other column holds
      safe_str of the dict's value, NULL exactly when the dict lacks it or holds None. */
  lemma RowCells(d: seq<Entry>, columns: seq<string>, now: Stamp, i: nat)
    requires i < |columns|
    ensures var col := columns[i];
            var cell := BuildRow(d, columns, now)[i];
            (col in TimestampColumns && col in EntryKeys(d) ==> Lookup(d, col) == Some(cell)) &&
            (col in TimestampColumns && col !in EntryKeys(d) ==> cell == Time(now)) &&
            (col !in TimestampColumns ==>
               (cell.Null? || cell.Text?) && (cell.Null? <==> Lookup(d, col) == None || Lookup(d, col) == Some(Null)))
  {
    LookupFound(d, columns[i]);
  }

  /** The first dict supplies every column, so its row is its own values, in order (timestamps as
      given, the rest through safe_str). */
  lemma FirstRowIsFirstDict(d: seq<Entry>, now: Stamp, i: nat)
    requires i < |d| && Distinct(EntryKeys(d))
    ensures var row := BuildRow(d, EntryKeys(d), now);
            row[i] == if d[i].key in TimestampColumns then d[i].val else SafeStr(d[i].val)
  {
    LookupFirst(d, i);
  }

  lemma {:induction false} LookupFirst(d: seq<Entry>, i: nat)
    requires i < |d| && Distinct(EntryKeys(d))
    ensures Lookup(d, d[i].key) == Some(d[i].val)
    decreases |d|
  {
    if i > 0 {
      assert d[0].key != d[i].key by { assert EntryKeys(d)[0] == d[0].key && EntryKeys(d)[i] == d[i].key; }
      var rest := d[1..];
      assert Distinct(EntryKeys(rest)) by {
        forall a, b | 0 <= a < b < |rest| ensures EntryKeys(rest)[a] != EntryKeys(rest)[b] {
          assert EntryKeys(rest)[a] == EntryKeys(d)[a + 1] && EntryKeys(rest)[b] == EntryKeys(d)[b + 1];
        }
      }
      LookupFirst(rest, i - 1);
    }
  }

  /** A dict's keys are distinct, so the generic statement's tuples have the shape the INSERT
      column list asks for. */
  lemma RowsShaped(data: seq<seq<Entry>>, conflict: string, now: Stamp)
    requires data != [] && Distinct(EntryKeys(data[0]))
    ensures Shaped(GenericStatement(EntryKeys(data[0]), conflict), Rows(data, EntryKeys(data[0]), now))
  {
  }

  /** On conflict the generic statement overwrites every column the tuple supplies except the
      conflict column — created_at included — and keeps the conflict column's stored value. */
  lemma GenericConflictOverwrites(columns: seq<string>, conflict: string, existing: Row, proposed: Row)
    ensures var m := Merge(existing, proposed, UpdateColumns(columns, conflict));
            forall c :: c in columns && c != conflict && c in proposed ==> c in m && m[c] == proposed[c]
    ensures var m := Merge(existing, proposed, UpdateColumns(columns, conflict));
            conflict in existing ==> conflict in m && m[conflict] == existing[conflict]
    ensures var m := Merge(existing, proposed, UpdateColumns(columns, conflict));
            "created_at" in columns && conflict != "created_at" && "created_at" in proposed ==>
              "created_at" in m && m["created_at"] == proposed["created_at"]
  {
    UpdateColumnsMembers(columns, conflict);
    MergeColumn(existing, proposed, UpdateColumns(columns, conflict), conflict);
  }

  /** A whole generic upsert with distinct keys: afterwards every batch row's non-key columns hold
      the batch's values, whether the key was new or not, and keys outside the batch keep their rows. */
  lemma GenericUpsertEffect(t: Table, columns: seq<string>, conflict: string, tuples: seq<seq<Value>>)
    requires tuples != [] && ExecuteValues(t, GenericStatement(columns, conflict), tuples).Ok?
    requires Shaped(GenericStatement(columns, conflict), tuples)
    requires Distinct(Keys(conflict, Proposals(GenericStatement(columns, conflict), tuples)))
    ensures var s := GenericStatement(columns, conflict);
            var after := ExecuteValues(t, s, tuples).value.0.rows;
            var ps := Proposals(s, tuples);
            (forall k :: k in t.rows && k !in KeySet(conflict, ps) ==> k in after && after[k] == t.rows[k]) &&
            (forall i, c :: 0 <= i < |ps| && c in ps[i] && c != conflict ==>
                              KeyOf(conflict, ps[i]) in after && c in after[KeyOf(conflict, ps[i])] &&
                              after[KeyOf(conflict, ps[i])][c] == ps[i][c])
  {
    var s := GenericStatement(columns, conflict);
    ExecuteValuesEffect(t, s, tuples);
    var ps := Proposals(s, tuples);
    var after := ExecuteValues(t, s, tuples).value.0.rows;
    forall i, c | 0 <= i < |ps| && c in ps[i] && c != conflict
      ensures KeyOf(conflict, ps[i]) in after && c in after[KeyOf(conflict, ps[i])]
              && after[KeyOf(conflict, ps[i])][c] == ps[i][c]
    {
      var k := KeyOf(conflict, ps[i]);
      if k in t.rows {
        assert c in columns;
        GenericConflictOverwrites(columns, conflict, t.rows[k], ps[i]);
        MergeColumn(t.rows[k], ps[i], s.setColumns, c);
      }
    }
  }
}
