/** What PostgreSQL does with the statement both ETL files send through execute_values:

      INSERT INTO t (c1, ..., cn) VALUES (...), (...) ON CONFLICT (k) DO UPDATE SET s = EXCLUDED.s, ...
        [RETURNING (xmax = 0) AS inserted]

    A table is a map from natural key to row, a row maps column names to values. The rows of
    one statement are processed in order; a key not yet in the table inserts the proposed row
    (xmax = 0 is true), a key already there overwrites exactly the SET columns and keeps the
    rest (xmax = 0 is false). psycopg2's execute_values sends the tuples in pages of 100, one
    statement per page. */
module Upsert {
  import opened Wrappers
  import opened PyValues

  type Row = map<string, Value>

  /** A table with a single-column primary key. */
  datatype Table = Table(key: string, rows: map<Value, Row>)

  /** The INSERT column list, the ON CONFLICT column and the SET list of one statement. */
  datatype Statement = Statement(columns: seq<string>, conflict: string, setColumns: seq<string>)

  /** ON CONFLICT DO UPDATE SET ... is only accepted with at least one assignment. */
  predicate AcceptedSql(s: Statement) {
    |s.setColumns| > 0
  }

  predicate Distinct<T(==)>(xs: seq<T>) {
    forall i, j :: 0 <= i < j < |xs| ==> xs[i] != xs[j]
  }

  /** Every VALUES tuple has one value per listed column, and no column is listed twice. */
  predicate Shaped(s: Statement, tuples: seq<seq<Value>>) {
    Distinct(s.columns) && forall i :: 0 <= i < |tuples| ==> |tuples[i]| == |s.columns|
  }

  /** The row a VALUES tuple proposes: listed column i gets value i. */
  function Proposed(columns: seq<string>, values: seq<Value>): Row
    requires Distinct(columns) && |values| == |columns|
  {
    map i | 0 <= i < |columns| :: columns[i] := values[i]
  }

  /** Listed column i holds value i. */
  lemma ProposedAt(columns: seq<string>, values: seq<Value>, i: nat)
    requires Distinct(columns) && |values| == |columns| && i < |columns|
    ensures columns[i] in Proposed(columns, values) && Proposed(columns, values)[columns[i]] == values[i]
  {
  }

  /** The proposed rows of a batch of VALUES tuples, in order. */
  function Proposals(s: Statement, tuples: seq<seq<Value>>): (ps: seq<Row>)
    requires Shaped(s, tuples)
    ensures |ps| == |tuples|
  {
    seq(|tuples|, i requires 0 <= i < |tuples| => Proposed(s.columns, tuples[i]))
  }

  /** The value a proposed row gives the conflict column (NULL when it is not listed). */
  function KeyOf(conflict: string, p: Row): Value {
    if conflict in p then p[conflict] else Null
  }

  function Keys(conflict: string, ps: seq<Row>): (ks: seq<Value>)
    ensures |ks| == |ps|
  {
    seq(|ps|, i requires 0 <= i < |ps| => KeyOf(conflict, ps[i]))
  }

  function KeySet(conflict: string, ps: seq<Row>): set<Value> {
    set i | 0 <= i < |ps| :: KeyOf(conflict, ps[i])
  }

  /** SET c = EXCLUDED.c for every listed c; every other column keeps its stored value. */
  function Merge(existing: Row, proposed: Row, setColumns: seq<string>): Row {
    existing + (map c | c in setColumns && c in proposed :: proposed[c])
  }

  /** One proposed row: the new rows, and RETURNING (xmax = 0), true when the key was absent. */
  function Step(rows: map<Value, Row>, s: Statement, p: Row): (map<Value, Row>, bool) {
    var k := KeyOf(s.conflict, p);
    if k in rows then (rows[k := Merge(rows[k], p, s.setColumns)], false) else (rows[k := p], true)
  }

  /** The proposed rows of one statement, in order. */
  function Run(rows: map<Value, Row>, s: Statement, ps: seq<Row>): (map<Value, Row>, seq<bool>)
    decreases |ps|
  {
    if ps == [] then (rows, [])
    else
      var first := Step(rows, s, ps[0]);
      var rest := Run(first.0, s, ps[1..]);
      (rest.0, [first.1] + rest.1)
  }

  /** The first row-level error, scanning the keys in order: a NULL key, or a key that an
      earlier row of the same statement already affected. */
  function FirstViolation(keys: seq<Value>, seen: set<Value>): Option<DbError> {
    if keys == [] then None
    else if keys[0] == Null then Some(NotNullViolation)
    else if keys[0] in seen then Some(CardinalityViolation)
    else FirstViolation(keys[1..], seen + {keys[0]})
  }

  /** One statement: it fails as a whole, or it applies every row. */
  function Execute(t: Table, s: Statement, tuples: seq<seq<Value>>): Result<(Table, seq<bool>)> {
    if !AcceptedSql(s) then Err(Database(SyntaxError))
    else if !Distinct(s.columns) then Err(Database(DuplicateColumn))
    else if s.conflict != t.key then Err(Database(NoMatchingConstraint))
    else if !Shaped(s, tuples) then Err(Database(ArityMismatch))
    else
      var ps := Proposals(s, tuples);
      match FirstViolation(Keys(s.conflict, ps), {})
      case Some(e) => Err(Database(e))
      case None =>
        var r := Run(t.rows, s, ps);
        Ok((Table(t.key, r.0), r.1))
  }

  /** psycopg2's default page size for execute_values. */
  const PageSize: nat := 100

  /** execute_values(cur, sql, tuples): one statement per page of 100 tuples, stopping at the
      first page that fails. On success: the table after the last page and the RETURNING
      flags of each page, in order. */
  function ExecuteValues(t: Table, s: Statement, tuples: seq<seq<Value>>): Result<(Table, seq<seq<bool>>)>
    decreases |tuples|
  {
    if tuples == [] then Ok((t, []))
    else
      var n := if |tuples| < PageSize then |tuples| else PageSize;
      var page :- Execute(t, s, tuples[..n]);
      var rest :- ExecuteValues(page.0, s, tuples[n..]);
      Ok((rest.0, [page.1] + rest.1))
  }

  function CountTrue(fs: seq<bool>): nat {
    if fs == [] then 0 else (if fs[0] then 1 else 0) + CountTrue(fs[1..])
  }

  function Flatten(pages: seq<seq<bool>>): seq<bool> {
    if pages == [] then [] else pages[0] + Flatten(pages[1..])
  }

  // ---------- lemmas ----------

  /** The first key of a batch with distinct keys is not among the later ones, and the later
      keys are distinct too. */
  lemma DistinctTail(conflict: string, ps: seq<Row>)
    requires ps != [] && Distinct(Keys(conflict, ps))
    ensures Distinct(Keys(conflict, ps[1..]))
    ensures KeyOf(conflict, ps[0]) !in KeySet(conflict, ps[1..])
  {
    var ks := Keys(conflict, ps);
    var rest := ps[1..];
    forall i, j | 0 <= i < j < |rest| ensures Keys(conflict, rest)[i] != Keys(conflict, rest)[j] {
      assert Keys(conflict, rest)[i] == ks[i + 1] && Keys(conflict, rest)[j] == ks[j + 1];
    }
    forall j | 0 <= j < |rest| ensures KeyOf(conflict, rest[j]) != KeyOf(conflict, ps[0]) {
      assert rest[j] == ps[j + 1];
      assert ks[j + 1] == KeyOf(conflict, rest[j]) && ks[0] == KeyOf(conflict, ps[0]);
    }
  }

  lemma KeySetCons(conflict: string, ps: seq<Row>)
    requires ps != []
    ensures KeySet(conflict, ps) == {KeyOf(conflict, ps[0])} + KeySet(conflict, ps[1..])
  {
    var rest := ps[1..];
    forall k | k in KeySet(conflict, ps) ensures k in {KeyOf(conflict, ps[0])} + KeySet(conflict, rest) {
      var i :| 0 <= i < |ps| && KeyOf(conflict, ps[i]) == k;
      if i > 0 { assert rest[i - 1] == ps[i]; }
    }
    forall k | k in KeySet(conflict, rest) ensures k in KeySet(conflict, ps) {
      var i :| 0 <= i < |rest| && KeyOf(conflict, rest[i]) == k;
      assert ps[i + 1] == rest[i];
    }
  }

  /** A statement succeeds row by row exactly when no key is NULL, none is among `seen`, and
      no two rows share a key. */
  lemma {:induction false} FirstViolationNone(keys: seq<Value>, seen: set<Value>)
    ensures FirstViolation(keys, seen).None? <==>
              (Distinct(keys) && forall i :: 0 <= i < |keys| ==> keys[i] != Null && keys[i] !in seen)
    decreases |keys|
  {
    if keys != [] {
      FirstViolationNone(keys[1..], seen + {keys[0]});
      var rest := keys[1..];
      if Distinct(keys) && forall i :: 0 <= i < |keys| ==> keys[i] != Null && keys[i] !in seen {
        assert Distinct(rest) by {
          forall i, j | 0 <= i < j < |rest| ensures rest[i] != rest[j] { assert rest[i] == keys[i + 1]; }
        }
        forall i | 0 <= i < |rest| ensures rest[i] != Null && rest[i] !in seen + {keys[0]} {
          assert rest[i] == keys[i + 1];
        }
      }
      if FirstViolation(keys, seen).None? {
        forall i, j | 0 <= i < j < |keys| ensures keys[i] != keys[j] {
          if i > 0 { assert keys[i] == rest[i - 1] && keys[j] == rest[j - 1]; }
          else { assert keys[j] == rest[j - 1]; }
        }
        forall i | 0 <= i < |keys| ensures keys[i] != Null && keys[i] !in seen {
          if i > 0 { assert keys[i] == rest[i - 1]; }
        }
      }
    }
  }

  /** A statement is accepted exactly when it is well formed and its keys are non-NULL and
      pairwise distinct; then it applies every row, in order. */
  lemma ExecuteSucceeds(t: Table, s: Statement, tuples: seq<seq<Value>>)
    ensures Execute(t, s, tuples).Ok? <==>
              (AcceptedSql(s) && s.conflict == t.key && Shaped(s, tuples)
               && Null !in Keys(s.conflict, Proposals(s, tuples))
               && Distinct(Keys(s.conflict, Proposals(s, tuples))))
    ensures Execute(t, s, tuples).Ok? ==>
              var r := Run(t.rows, s, Proposals(s, tuples));
              Execute(t, s, tuples).value == (Table(t.key, r.0), r.1)
  {
    if AcceptedSql(s) && Distinct(s.columns) && s.conflict == t.key && Shaped(s, tuples) {
      FirstViolationNone(Keys(s.conflict, Proposals(s, tuples)), {});
    }
  }

  /** Only the batch's keys are touched: afterwards the table holds the old keys and the batch
      keys, every other row is unchanged, and there is one flag per proposed row. */
  lemma {:induction false} RunFrame(rows: map<Value, Row>, s: Statement, ps: seq<Row>)
    ensures Run(rows, s, ps).0.Keys == rows.Keys + KeySet(s.conflict, ps)
    ensures forall k :: k in rows && k !in KeySet(s.conflict, ps) ==> Run(rows, s, ps).0[k] == rows[k]
    ensures |Run(rows, s, ps).1| == |ps|
    decreases |ps|
  {
    if ps != [] {
      KeySetCons(s.conflict, ps);
      RunFrame(Step(rows, s, ps[0]).0, s, ps[1..]);
    }
  }

  /** The flag of each row is true exactly when its key was absent before the statement
      (the batch's keys being distinct, as an accepted statement's are). */
  lemma {:induction false} RunFlags(rows: map<Value, Row>, s: Statement, ps: seq<Row>)
    requires Distinct(Keys(s.conflict, ps))
    ensures |Run(rows, s, ps).1| == |ps|
    ensures forall i :: 0 <= i < |ps| ==> Run(rows, s, ps).1[i] == (KeyOf(s.conflict, ps[i]) !in rows)
    decreases |ps|
  {
    RunFrame(rows, s, ps);
    if ps != [] {
      DistinctTail(s.conflict, ps);
      var first := Step(rows, s, ps[0]);
      var rest := ps[1..];
      RunFlags(first.0, s, rest);
      var flags := Run(rows, s, ps).1;
      assert flags == [first.1] + Run(first.0, s, rest).1;
      forall i | 1 <= i < |ps| ensures flags[i] == (KeyOf(s.conflict, ps[i]) !in rows) {
        assert rest[i - 1] == ps[i];
        assert KeyOf(s.conflict, ps[i]) in KeySet(s.conflict, rest);
      }
    }
  }

  /** Afterwards every batch key holds the proposed row when it was new, and the stored row
      with the SET columns overwritten when it was present (keys distinct, as above). */
  lemma {:induction false} RunValues(rows: map<Value, Row>, s: Statement, ps: seq<Row>)
    requires Distinct(Keys(s.conflict, ps))
    ensures forall i :: 0 <= i < |ps| ==>
              var k := KeyOf(s.conflict, ps[i]);
              k in Run(rows, s, ps).0 &&
              Run(rows, s, ps).0[k] == (if k in rows then Merge(rows[k], ps[i], s.setColumns) else ps[i])
    decreases |ps|
  {
    if ps != [] {
      DistinctTail(s.conflict, ps);
      var first := Step(rows, s, ps[0]);
      var rest := ps[1..];
      RunValues(first.0, s, rest);
      RunFrame(first.0, s, rest);
      var after := Run(rows, s, ps).0;
      assert after == Run(first.0, s, rest).0;
      forall i | 0 <= i < |ps|
        ensures var k := KeyOf(s.conflict, ps[i]);
                k in after && after[k] == (if k in rows then Merge(rows[k], ps[i], s.setColumns) else ps[i])
      {
        if i > 0 {
          assert rest[i - 1] == ps[i];
          assert KeyOf(s.conflict, ps[i]) in KeySet(s.conflict, rest);
        }
      }
    }
  }

  lemma {:induction false} CountTrueAppend(a: seq<bool>, b: seq<bool>)
    ensures CountTrue(a + b) == CountTrue(a) + CountTrue(b)
    decreases |a|
  {
    if a == [] {
      assert a + b == b;
    } else {
      assert (a + b)[0] == a[0];
      assert (a + b)[1..] == a[1..] + b;
      CountTrueAppend(a[1..], b);
    }
  }

  /** The code's `inserted` counts the distinct batch keys that were absent before; this needs
      no assumption on the batch (a key proposed twice counts once). */
  lemma MapUpdateKeys<K, V>(m: map<K, V>, k: K, v: V)
    ensures m[k := v].Keys == m.Keys + {k}
  {
  }

  /** One row adds its key to the table, and reports whether the key was new. */
  lemma StepKeys(rows: map<Value, Row>, s: Statement, p: Row)
    ensures Step(rows, s, p).0.Keys == rows.Keys + {KeyOf(s.conflict, p)}
    ensures Step(rows, s, p).1 == (KeyOf(s.conflict, p) !in rows)
  {
    var k := KeyOf(s.conflict, p);
    if k in rows {
      MapUpdateKeys(rows, k, Merge(rows[k], p, s.setColumns));
    } else {
      MapUpdateKeys(rows, k, p);
    }
  }

  lemma CountTrueCons(b: bool, rest: seq<bool>)
    ensures CountTrue([b] + rest) == (if b then 1 else 0) + CountTrue(rest)
  {
    assert ([b] + rest)[1..] == rest;
  }

  lemma DiffCons<T>(k: T, a: set<T>, known: set<T>)
    ensures |({k} + a) - known| == |a - (known + {k})| + (if k in known then 0 else 1)
  {
    var x := a - (known + {k});
    if k in known {
      assert ({k} + a) - known == x;
    } else {
      assert ({k} + a) - known == {k} + x;
      assert k !in x;
    }
  }

  lemma {:induction false} RunCountsInserts(rows: map<Value, Row>, s: Statement, ps: seq<Row>)
    ensures CountTrue(Run(rows, s, ps).1) == |KeySet(s.conflict, ps) - rows.Keys|
    decreases |ps|
  {
    if ps == [] {
      assert KeySet(s.conflict, ps) == {};
    } else {
      KeySetCons(s.conflict, ps);
      var k := KeyOf(s.conflict, ps[0]);
      var rest := ps[1..];
      var first := Step(rows, s, ps[0]);
      var later := Run(first.0, s, rest);
      RunCountsInserts(first.0, s, rest);
      assert Run(rows, s, ps).1 == [first.1] + later.1;
      CountTrueCons(first.1, later.1);
      StepKeys(rows, s, ps[0]);
      DiffCons(k, KeySet(s.conflict, rest), rows.Keys);
    }
  }

  lemma MergeTwice(existing: Row, proposed: Row, setColumns: seq<string>)
    ensures Merge(Merge(existing, proposed, setColumns), proposed, setColumns) == Merge(existing, proposed, setColumns)
    ensures Merge(proposed, proposed, setColumns) == proposed
  {
  }

  /** Re-applying the same batch changes nothing and reports no inserts (keys distinct, as an
      accepted statement's are). */
  lemma RunTwice(rows: map<Value, Row>, s: Statement, ps: seq<Row>)
    requires Distinct(Keys(s.conflict, ps))
    ensures Run(Run(rows, s, ps).0, s, ps).0 == Run(rows, s, ps).0
    ensures |Run(Run(rows, s, ps).0, s, ps).1| == |ps|
    ensures forall i :: 0 <= i < |ps| ==> !Run(Run(rows, s, ps).0, s, ps).1[i]
  {
    var once := Run(rows, s, ps).0;
    var twice := Run(once, s, ps).0;
    RunFrame(rows, s, ps);
    RunFrame(once, s, ps);
    RunValues(rows, s, ps);
    RunValues(once, s, ps);
    RunFlags(once, s, ps);
    forall k | k in twice ensures k in once && twice[k] == once[k] {
      if k in KeySet(s.conflict, ps) {
        var i :| 0 <= i < |ps| && KeyOf(s.conflict, ps[i]) == k;
        MergeTwice(if k in rows then rows[k] else ps[i], ps[i], s.setColumns);
      }
    }
    assert twice == once;
  }

  /** Processing a + b is processing a, then b from where a left the table. */
  lemma {:induction false} RunAppend(rows: map<Value, Row>, s: Statement, a: seq<Row>, b: seq<Row>)
    ensures Run(rows, s, a + b).0 == Run(Run(rows, s, a).0, s, b).0
    ensures Run(rows, s, a + b).1 == Run(rows, s, a).1 + Run(Run(rows, s, a).0, s, b).1
    decreases |a|
  {
    if a == [] {
      assert a + b == b;
    } else {
      assert (a + b)[0] == a[0];
      assert (a + b)[1..] == a[1..] + b;
      RunAppend(Step(rows, s, a[0]).0, s, a[1..], b);
    }
  }

  lemma ProposalsSplit(s: Statement, tuples: seq<seq<Value>>, n: nat)
    requires Shaped(s, tuples) && n <= |tuples|
    ensures Shaped(s, tuples[..n]) && Shaped(s, tuples[n..])
    ensures Proposals(s, tuples) == Proposals(s, tuples[..n]) + Proposals(s, tuples[n..])
  {
    assert forall i :: 0 <= i < n ==> tuples[..n][i] == tuples[i];
    assert forall i :: 0 <= i < |tuples| - n ==> tuples[n..][i] == tuples[n + i];
  }

  /** One page of execute_values: the first statement, then the remaining pages. */
  lemma ExecuteValuesCons(t: Table, s: Statement, tuples: seq<seq<Value>>)
    requires tuples != [] && ExecuteValues(t, s, tuples).Ok?
    ensures var n := if |tuples| < PageSize then |tuples| else PageSize;
            Execute(t, s, tuples[..n]).Ok? &&
            var page := Execute(t, s, tuples[..n]).value;
            ExecuteValues(page.0, s, tuples[n..]).Ok? &&
            var rest := ExecuteValues(page.0, s, tuples[n..]).value;
            ExecuteValues(t, s, tuples).value == (rest.0, [page.1] + rest.1)
  {
  }

  lemma FlattenCons(first: seq<bool>, rest: seq<seq<bool>>)
    ensures Flatten([first] + rest) == first + Flatten(rest)
  {
    assert ([first] + rest)[1..] == rest;
  }

  /** A batch whose two parts are well-shaped is well-shaped. */
  lemma ShapedJoin(s: Statement, tuples: seq<seq<Value>>, n: nat)
    requires n <= |tuples| && Shaped(s, tuples[..n]) && Shaped(s, tuples[n..])
    ensures Shaped(s, tuples)
  {
    forall i | 0 <= i < |tuples| ensures |tuples[i]| == |s.columns| {
      if i < n { assert tuples[i] == tuples[..n][i]; } else { assert tuples[i] == tuples[n..][i - n]; }
    }
  }

  /** Across pages, execute_values amounts to processing all tuples in order: the final table
      and the concatenated flags are those of Run over the whole batch. */
  lemma {:induction false} ExecuteValuesRuns(t: Table, s: Statement, tuples: seq<seq<Value>>)
    requires tuples != [] && ExecuteValues(t, s, tuples).Ok?
    ensures Shaped(s, tuples)
    ensures ExecuteValues(t, s, tuples).value.0 == Table(t.key, Run(t.rows, s, Proposals(s, tuples)).0)
    ensures Flatten(ExecuteValues(t, s, tuples).value.1) == Run(t.rows, s, Proposals(s, tuples)).1
    decreases |tuples|
  {
    var n := if |tuples| < PageSize then |tuples| else PageSize;
    var head, tail := tuples[..n], tuples[n..];
    ExecuteValuesCons(t, s, tuples);
    ExecuteSucceeds(t, s, head);
    var page := Execute(t, s, head).value;
    var pages := ExecuteValues(page.0, s, tail).value;
    var a := Proposals(s, head);
    assert page == (Table(t.key, Run(t.rows, s, a).0), Run(t.rows, s, a).1);
    var all := ExecuteValues(t, s, tuples).value;
    assert all == (pages.0, [page.1] + pages.1);
    FlattenCons(page.1, pages.1);
    if tail == [] {
      assert tuples == head;
      assert pages == (page.0, []);
      assert Flatten(all.1) == page.1 + [] == page.1;
    } else {
      ExecuteValuesRuns(page.0, s, tail);
      var b := Proposals(s, tail);
      ShapedJoin(s, tuples, n);
      ProposalsSplit(s, tuples, n);
      RunAppend(t.rows, s, a, b);
    }
  }

  /** A batch of at most one page is a single statement. */
  lemma OnePage(t: Table, s: Statement, tuples: seq<seq<Value>>)
    requires 0 < |tuples| <= PageSize
    ensures Execute(t, s, tuples).Ok? <==> ExecuteValues(t, s, tuples).Ok?
    ensures Execute(t, s, tuples).Ok? ==>
              ExecuteValues(t, s, tuples).value == (Execute(t, s, tuples).value.0, [Execute(t, s, tuples).value.1])
  {
    assert tuples[..|tuples|] == tuples;
    assert tuples[|tuples|..] == [];
    if Execute(t, s, tuples).Ok? {
      var page := Execute(t, s, tuples).value;
      assert ExecuteValues(page.0, s, []) == Ok((page.0, []));
      assert [page.1] + [] == [page.1];
    }
  }

  /** What SET leaves in a column: the proposed value for a listed column the tuple supplies,
      the stored value for every other column. */
  lemma MergeColumn(existing: Row, proposed: Row, setColumns: seq<string>, c: string)
    ensures c in setColumns && c in proposed ==>
              c in Merge(existing, proposed, setColumns) && Merge(existing, proposed, setColumns)[c] == proposed[c]
    ensures !(c in setColumns && c in proposed) ==>
              (c in Merge(existing, proposed, setColumns) <==> c in existing) &&
              (c in existing ==> Merge(existing, proposed, setColumns)[c] == existing[c])
  {
  }

  /** The effect of a whole execute_values batch whose keys are distinct: each batch key holds the
      proposed row (new key) or the stored row with the SET columns overwritten (existing key), and
      every key outside the batch keeps its row. */
  lemma ExecuteValuesEffect(t: Table, s: Statement, tuples: seq<seq<Value>>)
    requires tuples != [] && ExecuteValues(t, s, tuples).Ok?
    requires Shaped(s, tuples) && Distinct(Keys(s.conflict, Proposals(s, tuples)))
    ensures var after := ExecuteValues(t, s, tuples).value.0.rows;
            var ps := Proposals(s, tuples);
            after.Keys == t.rows.Keys + KeySet(s.conflict, ps) &&
            (forall k :: k in t.rows && k !in KeySet(s.conflict, ps) ==> after[k] == t.rows[k]) &&
            (forall i :: 0 <= i < |ps| ==>
              var k := KeyOf(s.conflict, ps[i]);
              k in after && after[k] == (if k in t.rows then Merge(t.rows[k], ps[i], s.setColumns) else ps[i]))
  {
    ExecuteValuesRuns(t, s, tuples);
    RunFrame(t.rows, s, Proposals(s, tuples));
    RunValues(t.rows, s, Proposals(s, tuples));
  }

  lemma {:induction false} CountTrueBounds(fs: seq<bool>)
    ensures CountTrue(fs) <= |fs|
    ensures (forall i :: 0 <= i < |fs| ==> fs[i]) ==> CountTrue(fs) == |fs|
    ensures (forall i :: 0 <= i < |fs| ==> !fs[i]) ==> CountTrue(fs) == 0
    decreases |fs|
  {
    if fs != [] {
      CountTrueBounds(fs[1..]);
      assert forall i :: 1 <= i < |fs| ==> fs[i] == fs[1..][i - 1];
    }
  }

  /** execute_values returns one list of flags per page, each of one to PageSize flags. */
  lemma {:induction false} ExecuteValuesPages(t: Table, s: Statement, tuples: seq<seq<Value>>)
    requires ExecuteValues(t, s, tuples).Ok?
    ensures var pages := ExecuteValues(t, s, tuples).value.1;
            (pages == [] <==> tuples == []) &&
            (forall i :: 0 <= i < |pages| ==> 0 < |pages[i]| <= PageSize)
    decreases |tuples|
  {
    if tuples != [] {
      var n := if |tuples| < PageSize then |tuples| else PageSize;
      var head, tail := tuples[..n], tuples[n..];
      ExecuteValuesCons(t, s, tuples);
      ExecuteSucceeds(t, s, head);
      var page := Execute(t, s, head).value;
      RunFrame(t.rows, s, Proposals(s, head));
      assert |page.1| == n;
      var rest := ExecuteValues(page.0, s, tail).value;
      ExecuteValuesPages(page.0, s, tail);
      var pages := ExecuteValues(t, s, tuples).value.1;
      assert pages == [page.1] + rest.1;
      forall i | 0 <= i < |pages| ensures 0 < |pages[i]| <= PageSize {
        if i > 0 { assert pages[i] == rest.1[i - 1]; }
      }
    } else {
      assert ExecuteValues(t, s, tuples) == Ok((t, []));
    }
  }

  /** A row whose key is already stored reports false, and the key stays stored: when every key
      of the batch is present beforehand, no row reports an insert. */
  lemma {:induction false} RunAllPresent(rows: map<Value, Row>, s: Statement, ps: seq<Row>)
    requires forall i :: 0 <= i < |ps| ==> KeyOf(s.conflict, ps[i]) in rows
    ensures forall i :: 0 <= i < |Run(rows, s, ps).1| ==> !Run(rows, s, ps).1[i]
    decreases |ps|
  {
    if ps != [] {
      var first := Step(rows, s, ps[0]);
      StepKeys(rows, s, ps[0]);
      forall i | 0 <= i < |ps[1..]| ensures KeyOf(s.conflict, ps[1..][i]) in first.0 {
        assert ps[1..][i] == ps[i + 1];
      }
      RunAllPresent(first.0, s, ps[1..]);
    }
  }

  /** Flattening keeps every page's flags: a flag of the last page is a flag of the whole. */
  lemma {:induction false} FlattenLast(pages: seq<seq<bool>>)
    requires pages != []
    ensures Flatten(pages) == Flatten(pages[..|pages| - 1]) + pages[|pages| - 1]
    decreases |pages|
  {
    if |pages| == 1 {
      assert Flatten(pages[1..]) == [];
      assert Flatten(pages[..0]) == [];
    } else {
      FlattenLast(pages[1..]);
      assert pages[1..][..|pages| - 2] == pages[..|pages| - 1][1..];
      assert pages[..|pages| - 1][0] == pages[0];
    }
  }
}
