/** The first ETL file: PlaidPostgresETL with its settings, the token exchange, the two loaders
    that upsert and report insert/update counts, and run(), which checks for a token, then does
    everything inside one try block that rolls back on failure and always closes. */
module SyncEtl {
  import opened Wrappers
  import opened PyValues
  import opened Upsert
  import opened Postgres
  import opened Records
  import opened Extract
  import opened Environment

  /** REQUIRED_ENV: the variables __init__ insists on, in the order it reads them. */
  const RequiredEnv: seq<string> :=
    ["PLAID_CLIENT_ID", "PLAID_SECRET", "PG_HOST", "PG_PORT", "PG_DATABASE", "PG_USER", "PG_PASSWORD"]

  datatype Settings = Settings(clientId: string, secret: string,
                               accessToken: Option<string>, publicToken: Option<string>,
                               host: string, port: string, database: string, user: string, password: string)

  /** __init__: env_or_fail for each required variable, in order; the two tokens may be unset. */
  function LoadSettings(env: Env): Result<Settings> {
    var clientId :- EnvOrFail(env, "PLAID_CLIENT_ID");
    var secret :- EnvOrFail(env, "PLAID_SECRET");
    var host :- EnvOrFail(env, "PG_HOST");
    var port :- EnvOrFail(env, "PG_PORT");
    var database :- EnvOrFail(env, "PG_DATABASE");
    var user :- EnvOrFail(env, "PG_USER");
    var password :- EnvOrFail(env, "PG_PASSWORD");
    Ok(Settings(clientId, secret, Getenv(env, "PLAID_ACCESS_TOKEN"), Getenv(env, "PLAID_PUBLIC_TOKEN"),
                host, port, database, user, password))
  }

  /** An item_public_token_exchange reply (a missing field is None), or the ApiException. */
  datatype ExchangeReply = Exchanged(accessToken: Option<string>, itemId: Option<string>)
                         | ExchangeRefused(code: string)

  /** exchange_public_token: the new access token and the item id. */
  function Exchange(publicToken: Option<string>, reply: ExchangeReply): (r: Result<(string, Option<string>)>)
    ensures !Truthy(publicToken) ==> r.Err? && r.error.ValueError?
    ensures r.Ok? <==> Truthy(publicToken) && reply.Exchanged? && reply.accessToken.Some?
    ensures r.Ok? ==> r.value == (reply.accessToken.value, reply.itemId)
  {
    if !Truthy(publicToken) then Err(ValueError("public_token is required to exchange for an access token."))
    else match reply
      case ExchangeRefused(code) => Err(PlaidError(code))
      case Exchanged(token, item) =>
        if token.None? then Err(KeyError("access_token")) else Ok((token.value, item))
  }

  /** What a loader prints: nothing for an empty batch, or the rows returned and the split. */
  datatype LoadReport = NoData | Loaded(total: nat, inserted: nat, updated: nat)

  /** As written: cursor.fetchall() after execute_values holds only the last page's RETURNING
      rows, so the counts are those of the last page. */
  function ReportAsWritten(pages: seq<seq<bool>>): (r: LoadReport)
    requires pages != []
    ensures r.Loaded? && r.inserted + r.updated == r.total == |pages[|pages| - 1]|
  {
    var last := pages[|pages| - 1];
    CountTrueBounds(last);
    Loaded(|last|, CountTrue(last), |last| - CountTrue(last))
  }

  /** Corrected: the counts over the RETURNING rows of every page (execute_values(..., fetch=True)). */
  function FullReport(pages: seq<seq<bool>>): (r: LoadReport)
    ensures r.Loaded? && r.inserted + r.updated == r.total == |Flatten(pages)|
  {
    var all := Flatten(pages);
    CountTrueBounds(all);
    Loaded(|all|, CountTrue(all), |all| - CountTrue(all))
  }

  /** Accounts are written before transactions: no account write follows a transaction write. */
  predicate LoadsInOrder(log: seq<Event>) {
    forall i, j :: 0 <= i < j < |log| && log[i] == Wrote("transactions") ==> log[j] != Wrote("accounts")
  }

  /** `after` is `before` followed by events drawn from `allowed`. */
  predicate Extends(before: seq<Event>, after: seq<Event>, allowed: set<Event>) {
    |before| <= |after| && after[..|before|] == before
    && forall k :: |before| <= k < |after| ==> after[k] in allowed
  }

  /** One loader on the open transaction, given the tuples its comprehension built (or the error
      it raised): no statement for an empty batch; otherwise execute_values, then commit on
      success. The new database state and the report or the error. */
  function LoadOutcome(db: Db, name: string, s: Statement, tuples: Result<seq<seq<Value>>>): (Db, Result<LoadReport>) {
    match tuples
    case Err(e) => (db, Err(e))
    case Ok(ts) =>
      if ts == [] then (db, Ok(NoData))
      else
        var up := ApplyUpsert(db, name, s, ts);
        if up.1.Err? then (up.0, Err(up.1.error))
        else
          ExecuteValuesPages(db.working[name], s, ts);
          (Commit(up.0).0, Ok(ReportAsWritten(up.1.value)))
  }

  /** The try block of run() once connect_postgres has opened the connection: create_tables,
      extract_accounts, extract_transactions, load_accounts, load_transactions, stopping at the
      first step that raises. The final database state and the result: both reports, or the
      error of the step that failed. */
  function TryOutcome(server: map<string, Table>, now: Stamp, accountsReply: AccountsReply,
                      transactionReplies: seq<TransactionsReply>): (Db, Result<(LoadReport, LoadReport)>) {
    var a := CreateTable(Opened(server), "accounts", "account_id");
    if a.1.Some? then (a.0, Err(a.1.value)) else
    var t := CreateTable(a.0, "transactions", "transaction_id");
    if t.1.Some? then (t.0, Err(t.1.value)) else
    var c := Commit(t.0);
    if c.1.Some? then (c.0, Err(c.1.value)) else
    match Accounts(accountsReply, Subscripted)
    case Err(e) => (c.0, Err(e))
    case Ok(accounts) =>
      match Pages(transactionReplies, Subscripted)
      case Err(e) => (c.0, Err(e))
      case Ok(p) =>
        var la := LoadOutcome(c.0, "accounts", AccountStatement, AccountTuples(accounts, now));
        if la.1.Err? then (la.0, Err(la.1.error)) else
        var lt := LoadOutcome(la.0, "transactions", TransactionStatement, TransactionTuples(p.0, now));
        if lt.1.Err? then (lt.0, Err(lt.1.error)) else
        (lt.0, Ok((la.1.value, lt.1.value)))
  }

  const MissingToken: Error :=
    EnvironmentError("PLAID_ACCESS_TOKEN not set. Provide an access token or PLAID_PUBLIC_TOKEN.")

  class Etl {
    const settings: Settings
    var accessToken: Option<string>
    var conn: Connection?

    constructor (settings: Settings)
      ensures this.settings == settings && accessToken == settings.accessToken && conn == null
    {
      this.settings := settings;
      accessToken := settings.accessToken;
      conn := null;
    }

    method ExchangePublicToken(publicToken: Option<string>, reply: ExchangeReply)
      returns (r: Result<(string, Option<string>)>)
      modifies this`accessToken
      ensures r == Exchange(publicToken, reply)
      ensures accessToken == if r.Ok? then Some(r.value.0) else old(accessToken)
    {
      r := Exchange(publicToken, reply);
      if r.Ok? {
        accessToken := Some(r.value.0);
      }
    }

    /** psycopg2.connect: `reachable` says whether the server accepts the connection. */
    method ConnectPostgres(server: map<string, Table>, reachable: bool) returns (err: Option<Error>)
      modifies this`conn
      ensures reachable ==> err.None? && conn != null && fresh(conn) && conn.db == Opened(server) && conn.log == []
      ensures !reachable ==> err == Some(Database(ConnectionFailed)) && conn == old(conn)
    {
      if !reachable {
        return Some(Database(ConnectionFailed));
      }
      conn := new Connection(server);
      err := None;
    }

    /** create_tables: both tables (the two indexes are not modelled), then commit. */
    method CreateTables() returns (err: Option<Error>)
      requires conn != null
      modifies conn
      ensures var a := CreateTable(old(conn.db), "accounts", "account_id");
              var t := CreateTable(a.0, "transactions", "transaction_id");
              if a.1.Some? then err == a.1 && conn.db == a.0 && conn.log == old(conn.log) + [Created("accounts")]
              else if t.1.Some? then err == t.1 && conn.db == t.0
                                     && conn.log == old(conn.log) + [Created("accounts"), Created("transactions")]
              else err == Commit(t.0).1 && conn.db == Commit(t.0).0
                   && conn.log == old(conn.log) + [Created("accounts"), Created("transactions"), Committed]
      ensures Extends(old(conn.log), conn.log, {Created("accounts"), Created("transactions"), Committed})
    {
      err := conn.CreateTableIfNotExists("accounts", "account_id");
      if err.Some? { return; }
      err := conn.CreateTableIfNotExists("transactions", "transaction_id");
      if err.Some? { return; }
      err := conn.CommitWork();
    }

    /** execute_values, then fetchall() and the sum of the inserted flags, then commit. */
    method Load(name: string, s: Statement, tuples: seq<seq<Value>>) returns (r: Result<LoadReport>)
      requires conn != null && tuples != []
      modifies conn
      ensures var up := ApplyUpsert(old(conn.db), name, s, tuples);
              if up.1.Err? then r == Err(up.1.error) && conn.db == up.0 && conn.log == old(conn.log) + [Wrote(name)]
              else up.1.value != [] && r == Ok(ReportAsWritten(up.1.value)) && conn.db == Commit(up.0).0
                   && conn.log == old(conn.log) + [Wrote(name), Committed]
      ensures Extends(old(conn.log), conn.log, {Wrote(name), Committed})
    {
      var pages := conn.ExecuteUpsert(name, s, tuples);
      if pages.Err? {
        return Err(pages.error);
      }
      ExecuteValuesPages(old(conn.db).working[name], s, tuples);
      var result := pages.value[|pages.value| - 1];
      var inserted := CountInserted(result);
      var updated := |result| - inserted;
      var err := conn.CommitWork();
      r := Ok(Loaded(|result|, inserted, updated));
    }

    method LoadAccounts(accounts: seq<Value>, now: Stamp) returns (r: Result<LoadReport>)
      requires conn != null
      modifies conn
      ensures accounts == [] ==> r == Ok(NoData) && conn.db == old(conn.db) && conn.log == old(conn.log)
      ensures accounts != [] && AccountTuples(accounts, now).Err? ==>
                r == Err(AccountTuples(accounts, now).error) && conn.db == old(conn.db) && conn.log == old(conn.log)
      ensures accounts != [] && AccountTuples(accounts, now).Ok? ==>
                var up := ApplyUpsert(old(conn.db), "accounts", AccountStatement, AccountTuples(accounts, now).value);
                if up.1.Err? then r == Err(up.1.error) && conn.db == up.0 && conn.log == old(conn.log) + [Wrote("accounts")]
                else r == Ok(ReportAsWritten(up.1.value)) && conn.db == Commit(up.0).0
                     && conn.log == old(conn.log) + [Wrote("accounts"), Committed]
      ensures Extends(old(conn.log), conn.log, {Wrote("accounts"), Committed})
      ensures (conn.db, r) == LoadOutcome(old(conn.db), "accounts", AccountStatement, AccountTuples(accounts, now))
    {
      if accounts == [] {
        return Ok(NoData);
      }
      var rows := AccountTuples(accounts, now);
      if rows.Err? {
        return Err(rows.error);
      }
      CollectAll(accounts, a => AccountTuple(a, now));
      r := Load("accounts", AccountStatement, rows.value);
    }

    method LoadTransactions(transactions: seq<Value>, now: Stamp) returns (r: Result<LoadReport>)
      requires conn != null
      modifies conn
      ensures transactions == [] ==> r == Ok(NoData) && conn.db == old(conn.db) && conn.log == old(conn.log)
      ensures transactions != [] && TransactionTuples(transactions, now).Err? ==>
                r == Err(TransactionTuples(transactions, now).error) && conn.db == old(conn.db) && conn.log == old(conn.log)
      ensures transactions != [] && TransactionTuples(transactions, now).Ok? ==>
                var up := ApplyUpsert(old(conn.db), "transactions", TransactionStatement, TransactionTuples(transactions, now).value);
                if up.1.Err? then r == Err(up.1.error) && conn.db == up.0 && conn.log == old(conn.log) + [Wrote("transactions")]
                else r == Ok(ReportAsWritten(up.1.value)) && conn.db == Commit(up.0).0
                     && conn.log == old(conn.log) + [Wrote("transactions"), Committed]
      ensures Extends(old(conn.log), conn.log, {Wrote("transactions"), Committed})
      ensures (conn.db, r) == LoadOutcome(old(conn.db), "transactions", TransactionStatement,
                                          TransactionTuples(transactions, now))
    {
      if transactions == [] {
        return Ok(NoData);
      }
      var rows := TransactionTuples(transactions, now);
      if rows.Err? {
        return Err(rows.error);
      }
      CollectAll(transactions, t => TransactionTuple(t, now));
      r := Load("transactions", TransactionStatement, rows.value);
    }

    /** The try block of run(): connect, create, extract both, load both. */
    method Steps(start: Option<string>, end: Option<string>, today: int, now: Stamp,
                 server: map<string, Table>, reachable: bool,
                 accountsReply: AccountsReply, transactionReplies: seq<TransactionsReply>)
      returns (r: Result<(LoadReport, LoadReport)>)
      modifies this`conn
      ensures !reachable ==> conn == old(conn) && r == Err(Database(ConnectionFailed))
      ensures reachable ==> conn != null && fresh(conn)
                            && (conn.db, r) == TryOutcome(server, now, accountsReply, transactionReplies)
      ensures conn == old(conn) ==> r == Err(Database(ConnectionFailed))
      ensures conn != old(conn) ==>
                conn != null && fresh(conn) && LoadsInOrder(conn.log)
                && RolledBack !in conn.log && Closed !in conn.log
    {
      var err := ConnectPostgres(server, reachable);
      if err.Some? {
        return Err(err.value);
      }
      err := CreateTables();
      StepsLog(conn.log, conn.log, conn.log);
      if err.Some? {
        return Err(err.value);
      }
      var accounts := Accounts(accountsReply, Subscripted);
      if accounts.Err? {
        return Err(accounts.error);
      }
      var request := Window(accessToken, start, end, today);
      var transactions, requests := Paginate(request, transactionReplies, Subscripted);
      if transactions.Err? {
        return Err(transactions.error);
      }
      ghost var created := conn.log;
      StepsLog(created, created, created);
      var a := LoadAccounts(accounts.value, now);
      ghost var loaded := conn.log;
      StepsLog(created, loaded, loaded);
      if a.Err? {
        return Err(a.error);
      }
      var t := LoadTransactions(transactions.value, now);
      StepsLog(created, loaded, conn.log);
      if t.Err? {
        return Err(t.error);
      }
      r := Ok((a.value, t.value));
    }

    /** run(): no access token and no public token raises before anything else; a public token
        is exchanged first; on any failure after connecting the transaction is rolled back and
        the error re-raised; the connection, once made, is always closed. */
    method Run(start: Option<string>, end: Option<string>, today: int, now: Stamp,
               server: map<string, Table>, reachable: bool, exchange: ExchangeReply,
               accountsReply: AccountsReply, transactionReplies: seq<TransactionsReply>)
      returns (r: Result<(LoadReport, LoadReport)>)
      requires conn == null
      modifies this`accessToken, this`conn
      ensures !Truthy(old(accessToken)) && !Truthy(settings.publicToken) ==>
                r == Err(MissingToken) && conn == null && accessToken == old(accessToken)
      ensures !Truthy(old(accessToken)) && Truthy(settings.publicToken) && Exchange(settings.publicToken, exchange).Err? ==>
                r == Err(Exchange(settings.publicToken, exchange).error) && conn == null
      ensures conn != null ==> fresh(conn) && conn.db.closed && |conn.log| > 0
                               && conn.log[|conn.log| - 1] == Closed && LoadsInOrder(conn.log[..|conn.log| - 1])
      ensures conn != null && r.Err? ==> |conn.log| >= 2 && conn.log[|conn.log| - 2] == RolledBack
      ensures conn != null && r.Ok? ==> RolledBack !in conn.log
      ensures r.Ok? ==> conn != null
      ensures Truthy(old(accessToken)) || (Truthy(settings.publicToken) && Exchange(settings.publicToken, exchange).Ok?) ==>
                (!reachable ==> conn == null && r == Err(Database(ConnectionFailed))) &&
                (reachable ==>
                   (conn != null &&
                    var o := TryOutcome(server, now, accountsReply, transactionReplies);
                    r == o.1 && conn.db == Close(if o.1.Err? then Rollback(o.0).0 else o.0)))
    {
      if !Truthy(accessToken) {
        if Truthy(settings.publicToken) {
          var exchanged := ExchangePublicToken(settings.publicToken, exchange);
          if exchanged.Err? {
            return Err(exchanged.error);
          }
        } else {
          return Err(MissingToken);
        }
      }
      r := Attempt(start, end, today, now, server, reachable, accountsReply, transactionReplies);
    }

    /** run()'s try, except and finally: the steps, a rollback after a failure, and the close of a
        connection that was made. */
    method Attempt(start: Option<string>, end: Option<string>, today: int, now: Stamp,
                   server: map<string, Table>, reachable: bool,
                   accountsReply: AccountsReply, transactionReplies: seq<TransactionsReply>)
      returns (r: Result<(LoadReport, LoadReport)>)
      requires conn == null
      modifies this`conn
      ensures !reachable ==> conn == null && r == Err(Database(ConnectionFailed))
      ensures reachable ==>
                conn != null && fresh(conn) &&
                var o := TryOutcome(server, now, accountsReply, transactionReplies);
                r == o.1 && conn.db == Close(if o.1.Err? then Rollback(o.0).0 else o.0)
      ensures conn == null ==> r == Err(Database(ConnectionFailed))
      ensures conn != null ==>
                fresh(conn) && conn.db.closed && |conn.log| > 0
                && conn.log[|conn.log| - 1] == Closed && LoadsInOrder(conn.log[..|conn.log| - 1])
                && (r.Err? ==> |conn.log| >= 2 && conn.log[|conn.log| - 2] == RolledBack)
                && (r.Ok? ==> RolledBack !in conn.log)
    {
      r := Steps(start, end, today, now, server, reachable, accountsReply, transactionReplies);
      if conn != null {
        ghost var steps := conn.log;
        Conclude(r.Err?);
        assert conn.log[..|conn.log| - 1] == if r.Err? then steps + [RolledBack] else steps;
      }
    }

    /** The except and finally clauses of run(): roll back after a failure, then close. */
    method Conclude(failed: bool)
      requires conn != null
      modifies conn
      ensures conn.db == Close(if failed then Rollback(old(conn.db)).0 else old(conn.db))
      ensures conn.log == old(conn.log) + (if failed then [RolledBack, Closed] else [Closed])
    {
      if failed {
        var _ := conn.RollbackWork();
      }
      conn.CloseConnection();
    }
  }

  // ---------- lemmas ----------

  /** sum(1 for r in result if r[0]): the number of returned rows whose key was absent. */
  method CountInserted(result: seq<bool>) returns (inserted: nat)
    ensures inserted == CountTrue(result) && inserted <= |result|
  {
    inserted := 0;
    for i := 0 to |result|
      invariant inserted == CountTrue(result[..i])
    {
      assert result[..i + 1] == result[..i] + [result[i]];
      CountTrueAppend(result[..i], [result[i]]);
      inserted := inserted + if result[i] then 1 else 0;
    }
    assert result[..|result|] == result;
    CountTrueBounds(result);
  }

  /** The connection's log through the try block: table creation, then account writes, then
      transaction writes, never a rollback or a close. */
  lemma StepsLog(created: seq<Event>, loaded: seq<Event>, done: seq<Event>)
    requires Extends([], created, {Created("accounts"), Created("transactions"), Committed})
    requires Extends(created, loaded, {Wrote("accounts"), Committed})
    requires Extends(loaded, done, {Wrote("transactions"), Committed})
    ensures LoadsInOrder(done) && RolledBack !in done && Closed !in done
  {
    forall i, j | 0 <= i < j < |done| && done[i] == Wrote("transactions")
      ensures done[j] != Wrote("accounts")
    {
      assert |loaded| <= i;
      if j < |loaded| { assert false; }
      assert done[j] in {Wrote("transactions"), Committed};
    }
    forall k | 0 <= k < |done| ensures done[k] != RolledBack && done[k] != Closed {
      if k < |created| {
        assert done[k] == loaded[k] == created[k];
      } else if k < |loaded| {
        assert done[k] == loaded[k];
      }
    }
  }

  /** A loader commits only when its statement succeeded: a failing loader leaves the durable
      tables as they were, and a successful non-empty one leaves nothing uncommitted. */
  lemma LoadCommitsOnlyOnSuccess(db: Db, name: string, s: Statement, tuples: Result<seq<seq<Value>>>)
    ensures var o := LoadOutcome(db, name, s, tuples);
            (o.1.Err? ==> o.0.committed == db.committed) && (!db.closed ==> !o.0.closed)
    ensures var o := LoadOutcome(db, name, s, tuples);
            o.1.Ok? && tuples.value != [] ==> !o.0.aborted && o.0.working == o.0.committed
    ensures var o := LoadOutcome(db, name, s, tuples);
            o.1.Ok? && tuples.value == [] ==> o.0 == db
  {
  }

  /** The try block never closes the connection, and when it succeeds every change it made has
      been committed, so run()'s close keeps all of it. */
  lemma TryOutcomeCommitted(server: map<string, Table>, now: Stamp, accountsReply: AccountsReply,
                            transactionReplies: seq<TransactionsReply>)
    ensures var o := TryOutcome(server, now, accountsReply, transactionReplies);
            !o.0.closed && (o.1.Ok? ==> !o.0.aborted && o.0.working == o.0.committed)
    ensures var o := TryOutcome(server, now, accountsReply, transactionReplies);
            Close(if o.1.Err? then Rollback(o.0).0 else o.0).committed == o.0.committed
  {
    var a := CreateTable(Opened(server), "accounts", "account_id");
    var t := CreateTable(a.0, "transactions", "transaction_id");
    var c := Commit(t.0);
    if a.1.None? && t.1.None? && c.1.None? {
      assert !c.0.closed && !c.0.aborted && c.0.working == c.0.committed;
      var accounts := Accounts(accountsReply, Subscripted);
      var pages := Pages(transactionReplies, Subscripted);
      if accounts.Ok? && pages.Ok? {
        var ta := AccountTuples(accounts.value, now);
        var la := LoadOutcome(c.0, "accounts", AccountStatement, ta);
        LoadCommitsOnlyOnSuccess(c.0, "accounts", AccountStatement, ta);
        if la.1.Ok? {
          var tt := TransactionTuples(pages.value.0, now);
          LoadCommitsOnlyOnSuccess(la.0, "transactions", TransactionStatement, tt);
        }
      }
    }
  }

  /** __init__'s checks are REQUIRED_ENV in order: it succeeds exactly when each of those is set
      and non-empty, and otherwise names the first one that is not. */
  lemma SettingsNeedRequiredEnv(env: Env)
    ensures LoadSettings(env).Ok? <==> RequireAll(env, RequiredEnv).Ok?
    ensures LoadSettings(env).Err? ==> LoadSettings(env).error == RequireAll(env, RequiredEnv).error
    ensures LoadSettings(env).Ok? ==>
              var s := LoadSettings(env).value;
              [s.clientId, s.secret, s.host, s.port, s.database, s.user, s.password] == RequireAll(env, RequiredEnv).value
  {
    var ks := RequiredEnv;
    assert ks[1..][1..][1..][1..][1..][1..][1..] == [];
  }

  /** The corrected counts: one flag per tuple, and `inserted` is the number of distinct batch keys
      that were absent beforehand. */
  lemma FullReportCounts(t: Table, s: Statement, tuples: seq<seq<Value>>)
    requires tuples != [] && ExecuteValues(t, s, tuples).Ok?
    ensures Shaped(s, tuples)
    ensures FullReport(ExecuteValues(t, s, tuples).value.1).total == |tuples|
    ensures FullReport(ExecuteValues(t, s, tuples).value.1).inserted
            == |KeySet(s.conflict, Proposals(s, tuples)) - t.rows.Keys|
  {
    ExecuteValuesRuns(t, s, tuples);
    var ps := Proposals(s, tuples);
    RunFrame(t.rows, s, ps);
    RunCountsInserts(t.rows, s, ps);
  }

  /** Up to one page the code's counts are the corrected ones. */
  lemma OnePageReportIsFull(t: Table, s: Statement, tuples: seq<seq<Value>>)
    requires 0 < |tuples| <= PageSize && ExecuteValues(t, s, tuples).Ok?
    ensures ExecuteValues(t, s, tuples).value.1 != []
    ensures ReportAsWritten(ExecuteValues(t, s, tuples).value.1) == FullReport(ExecuteValues(t, s, tuples).value.1)
  {
    OnePage(t, s, tuples);
    var pages := ExecuteValues(t, s, tuples).value.1;
    assert |pages| == 1;
    assert Flatten(pages) == pages[0] + Flatten(pages[1..]);
    assert Flatten(pages) == pages[0];
  }

  /** As written, more than one page under-reports: the total is at most one page, fewer than
      the rows sent; when every key is new and distinct the inserted count is short as well. */
  lemma LastPageUnderReports(t: Table, s: Statement, tuples: seq<seq<Value>>)
    requires |tuples| > PageSize && ExecuteValues(t, s, tuples).Ok?
    ensures ExecuteValues(t, s, tuples).value.1 != []
    ensures ReportAsWritten(ExecuteValues(t, s, tuples).value.1).total <= PageSize < |tuples|
    ensures FullReport(ExecuteValues(t, s, tuples).value.1).total == |tuples|
    ensures Shaped(s, tuples)
    ensures Distinct(Keys(s.conflict, Proposals(s, tuples))) && KeySet(s.conflict, Proposals(s, tuples)) !! t.rows.Keys ==>
              ReportAsWritten(ExecuteValues(t, s, tuples).value.1).inserted
              < FullReport(ExecuteValues(t, s, tuples).value.1).inserted == |tuples|
  {
    var pages := ExecuteValues(t, s, tuples).value.1;
    ExecuteValuesPages(t, s, tuples);
    FullReportCounts(t, s, tuples);
    var ps := Proposals(s, tuples);
    if Distinct(Keys(s.conflict, ps)) && KeySet(s.conflict, ps) !! t.rows.Keys {
      ExecuteValuesRuns(t, s, tuples);
      RunFlags(t.rows, s, ps);
      var flags := Flatten(pages);
      forall i | 0 <= i < |flags| ensures flags[i] {
        assert KeyOf(s.conflict, ps[i]) in KeySet(s.conflict, ps);
      }
      CountTrueBounds(flags);
      CountTrueBounds(pages[|pages| - 1]);
    }
  }

  /** Loading the same batch again inserts nothing: every key is now present, so every flag of
      every page is false (both as written and corrected). */
  lemma RerunInsertsNothing(t: Table, s: Statement, tuples: seq<seq<Value>>)
    requires tuples != [] && ExecuteValues(t, s, tuples).Ok?
    requires ExecuteValues(ExecuteValues(t, s, tuples).value.0, s, tuples).Ok?
    ensures var again := ExecuteValues(ExecuteValues(t, s, tuples).value.0, s, tuples).value.1;
            again != [] && ReportAsWritten(again).inserted == 0 && FullReport(again).inserted == 0
  {
    RerunFlagsFalse(t, s, tuples);
    var again := ExecuteValues(ExecuteValues(t, s, tuples).value.0, s, tuples).value.1;
    NoFlagNoInsert(again);
  }

  /** On the re-run every RETURNING flag, over all pages, is false. */
  lemma RerunFlagsFalse(t: Table, s: Statement, tuples: seq<seq<Value>>)
    requires tuples != [] && ExecuteValues(t, s, tuples).Ok?
    requires ExecuteValues(ExecuteValues(t, s, tuples).value.0, s, tuples).Ok?
    ensures var again := ExecuteValues(ExecuteValues(t, s, tuples).value.0, s, tuples).value.1;
            again != [] && forall i :: 0 <= i < |Flatten(again)| ==> !Flatten(again)[i]
  {
    var once := ExecuteValues(t, s, tuples).value.0;
    ExecuteValuesRuns(t, s, tuples);
    var ps := Proposals(s, tuples);
    RunFrame(t.rows, s, ps);
    forall i | 0 <= i < |ps| ensures KeyOf(s.conflict, ps[i]) in once.rows {
      assert KeyOf(s.conflict, ps[i]) in KeySet(s.conflict, ps);
    }
    ExecuteValuesRuns(once, s, tuples);
    RunAllPresent(once.rows, s, ps);
    ExecuteValuesPages(once, s, tuples);
  }

  /** Pages with no true flag report no insert, counted either way. */
  lemma NoFlagNoInsert(pages: seq<seq<bool>>)
    requires pages != [] && forall i :: 0 <= i < |Flatten(pages)| ==> !Flatten(pages)[i]
    ensures ReportAsWritten(pages).inserted == 0 && FullReport(pages).inserted == 0
  {
    CountTrueBounds(Flatten(pages));
    FlattenLast(pages);
    var last := pages[|pages| - 1];
    forall i | 0 <= i < |last| ensures !last[i] {
      assert last[i] == Flatten(pages)[|Flatten(pages[..|pages| - 1])| + i];
    }
    CountTrueBounds(last);
  }
}
