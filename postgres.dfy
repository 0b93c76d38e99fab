/** A psycopg2 connection to PostgreSQL, as both ETL files and the export use it: statements run
    inside one open transaction; a failing statement aborts it, after which the server refuses
    every statement until the transaction ends; commit() makes the working state durable (on an
    aborted transaction the server answers COMMIT with a rollback); rollback() and close() discard
    what was not committed. */
module Postgres {
  import opened Wrappers
  import opened PyValues
  import opened Upsert

  /** The durable tables, the tables as the open transaction sees them, and the flags. */
  datatype Db = Db(committed: map<string, Table>, working: map<string, Table>, aborted: bool, closed: bool)

  /** What the connection was asked to do, in order. */
  datatype Event = Created(name: string) | Wrote(name: string) | Read(name: string)
                 | Committed | RolledBack | Closed

  /** A freshly opened connection onto the server's tables. */
  function Opened(tables: map<string, Table>): (db: Db)
    ensures db.working == db.committed == tables && !db.aborted && !db.closed
  {
    Db(tables, tables, false, false)
  }

  /** Why a statement is refused before it runs: psycopg2 refuses a closed connection, the server
      refuses every statement of an aborted transaction. */
  function Refusal(db: Db): Option<Error> {
    if db.closed then Some(Database(ConnectionClosed))
    else if db.aborted then Some(Database(InFailedTransaction))
    else None
  }

  /** A statement that fails aborts the open transaction (a closed connection stays as it is). */
  function Failed(db: Db): Db {
    if db.closed then db else db.(aborted := true)
  }

  /** CREATE TABLE IF NOT EXISTS name (key ... PRIMARY KEY, ...): an existing table is kept. */
  function CreateTable(db: Db, name: string, key: string): (Db, Option<Error>) {
    if Refusal(db).Some? then (Failed(db), Refusal(db))
    else if name in db.working then (db, None)
    else (db.(working := db.working[name := Table(key, map[])]), None)
  }

  /** execute_values(cursor, upsert, tuples): no statement at all for an empty list; otherwise
      the pages run in order and their RETURNING flags come back page by page. */
  function ApplyUpsert(db: Db, name: string, s: Statement, tuples: seq<seq<Value>>): (Db, Result<seq<seq<bool>>>) {
    if tuples == [] then (db, Ok([]))
    else if Refusal(db).Some? then (Failed(db), Err(Refusal(db).value))
    else if name !in db.working then (Failed(db), Err(Database(UndefinedTable)))
    else match ExecuteValues(db.working[name], s, tuples)
      case Err(e) => (Failed(db), Err(e))
      case Ok(r) => (db.(working := db.working[name := r.0]), Ok(r.1))
  }

  /** SELECT COUNT(*) FROM name. */
  function CountRows(db: Db, name: string): (Db, Result<nat>) {
    if Refusal(db).Some? then (Failed(db), Err(Refusal(db).value))
    else if name !in db.working then (Failed(db), Err(Database(UndefinedTable)))
    else (db, Ok(|db.working[name].rows|))
  }

  /** COPY (SELECT * FROM name) TO STDOUT: whether the server starts sending the table. */
  function CopyOut(db: Db, name: string): (Db, Option<Error>) {
    if Refusal(db).Some? then (Failed(db), Refusal(db))
    else if name !in db.working then (Failed(db), Some(Database(UndefinedTable)))
    else (db, None)
  }

  function Commit(db: Db): (Db, Option<Error>) {
    if db.closed then (db, Some(Database(ConnectionClosed)))
    else if db.aborted then (Db(db.committed, db.committed, false, false), None)
    else (Db(db.working, db.working, false, false), None)
  }

  function Rollback(db: Db): (Db, Option<Error>) {
    if db.closed then (db, Some(Database(ConnectionClosed)))
    else (Db(db.committed, db.committed, false, false), None)
  }

  /** close(): the server discards what was not committed. */
  function Close(db: Db): Db {
    Db(db.committed, db.committed, false, true)
  }

  // ---------- the connection object ----------

  class Connection {
    var db: Db
    var log: seq<Event>

    constructor (tables: map<string, Table>)
      ensures db == Opened(tables) && log == []
    {
      db := Opened(tables);
      log := [];
    }

    method CreateTableIfNotExists(name: string, key: string) returns (err: Option<Error>)
      modifies this
      ensures (db, err) == CreateTable(old(db), name, key)
      ensures log == old(log) + [Created(name)]
    {
      var r := CreateTable(db, name, key);
      db, err := r.0, r.1;
      log := log + [Created(name)];
    }

    method ExecuteUpsert(name: string, s: Statement, tuples: seq<seq<Value>>) returns (pages: Result<seq<seq<bool>>>)
      modifies this
      ensures (db, pages) == ApplyUpsert(old(db), name, s, tuples)
      ensures log == old(log) + (if tuples == [] then [] else [Wrote(name)])
    {
      var r := ApplyUpsert(db, name, s, tuples);
      db, pages := r.0, r.1;
      if tuples != [] {
        log := log + [Wrote(name)];
      }
    }

    method Count(name: string) returns (n: Result<nat>)
      modifies this
      ensures (db, n) == CountRows(old(db), name)
      ensures log == old(log) + [Read(name)]
    {
      var r := CountRows(db, name);
      db, n := r.0, r.1;
      log := log + [Read(name)];
    }

    method Copy(name: string) returns (err: Option<Error>)
      modifies this
      ensures (db, err) == CopyOut(old(db), name)
      ensures log == old(log) + [Read(name)]
    {
      var r := CopyOut(db, name);
      db, err := r.0, r.1;
      log := log + [Read(name)];
    }

    method CommitWork() returns (err: Option<Error>)
      modifies this
      ensures (db, err) == Commit(old(db))
      ensures log == old(log) + [Committed]
    {
      var r := Commit(db);
      db, err := r.0, r.1;
      log := log + [Committed];
    }

    method RollbackWork() returns (err: Option<Error>)
      modifies this
      ensures (db, err) == Rollback(old(db))
      ensures log == old(log) + [RolledBack]
    {
      var r := Rollback(db);
      db, err := r.0, r.1;
      log := log + [RolledBack];
    }

    method CloseConnection()
      modifies this
      ensures db == Close(old(db))
      ensures log == old(log) + [Closed]
    {
      db := Close(db);
      log := log + [Closed];
    }
  }

  // ---------- lemmas ----------

  /** Once a statement has failed, every statement that reaches the server is refused with
      InFailedTransaction and changes nothing, until the transaction ends; ending it by commit or
      rollback leaves exactly the durable tables. */
  lemma AbortedRefusesAll(db: Db, name: string, s: Statement, tuples: seq<seq<Value>>)
    requires db.aborted && !db.closed
    ensures tuples != [] ==> ApplyUpsert(db, name, s, tuples) == (db, Err(Database(InFailedTransaction)))
    ensures CountRows(db, name) == (db, Err(Database(InFailedTransaction)))
    ensures CopyOut(db, name) == (db, Some(Database(InFailedTransaction)))
    ensures CreateTable(db, name, s.conflict) == (db, Some(Database(InFailedTransaction)))
    ensures Commit(db).0 == Rollback(db).0 == Opened(db.committed)
  {
  }

  /** A successful upsert changes only its own table of the working state, to what the statement
      semantics give, and commit makes that durable. */
  lemma UpsertThenCommit(db: Db, name: string, s: Statement, tuples: seq<seq<Value>>)
    requires Refusal(db).None? && tuples != []
    requires ApplyUpsert(db, name, s, tuples).1.Ok?
    ensures name in db.working
    ensures ExecuteValues(db.working[name], s, tuples).Ok?
    ensures var after := Commit(ApplyUpsert(db, name, s, tuples).0).0;
            after.committed == db.working[name := ExecuteValues(db.working[name], s, tuples).value.0]
            && !after.aborted
    ensures ApplyUpsert(db, name, s, tuples).0.committed == db.committed
  {
  }

  /** A failed upsert leaves nothing behind: whether the transaction is then committed or rolled
      back, the durable tables are those of before the failure. */
  lemma FailureLeavesNothing(db: Db, name: string, s: Statement, tuples: seq<seq<Value>>)
    requires Refusal(db).None? && ApplyUpsert(db, name, s, tuples).1.Err?
    ensures ApplyUpsert(db, name, s, tuples).0.aborted
    ensures Commit(ApplyUpsert(db, name, s, tuples).0).0 == Opened(db.committed)
    ensures Rollback(ApplyUpsert(db, name, s, tuples).0).0 == Opened(db.committed)
  {
  }

  /** Closing keeps the committed tables and drops the rest. */
  lemma CloseKeepsCommitted(db: Db)
    ensures Close(db).committed == Close(db).working == db.committed && Close(db).closed
    ensures Refusal(Close(db)) == Some(Database(ConnectionClosed))
  {
  }
}
