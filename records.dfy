/** The per-record mappings of both ETL files: serialize_location, the VALUES tuples of the
    first file's upserts, the dicts the second file hands to its generic upsert, and the column
    and SET lists of the first file's two statements. */
module Records {
  import opened Wrappers
  import opened PyValues
  import opened Upsert

  // ---------- dict(v) ----------

  /** d[k] = v on a dict in insertion order: an existing key keeps its place. */
  function Insert(es: seq<Entry>, k: string, v: Value): seq<Entry> {
    if es == [] then [Entry(k, v)]
    else if es[0].key == k then [Entry(k, v)] + es[1..]
    else [es[0]] + Insert(es[1..], k, v)
  }

  /** One element of the sequence given to dict(): it must be a pair. A string of two characters
      is a pair of one-character strings and a two-key dict the pair of its keys, as in Python.
      Keys are strings in this model, so a pair with any other key is refused. */
  function Pair(item: Value): Result<(string, Value)> {
    match item
    case List(xs) =>
      if |xs| != 2 then Err(ValueError("dictionary update sequence element has length other than 2"))
      else if xs[0].Text? then Ok((xs[0].s, xs[1]))
      else Err(TypeError("dictionary key is not a string"))
    case Text(s) =>
      if |s| == 2 then Ok(([s[0]], Text([s[1]])))
      else Err(ValueError("dictionary update sequence element has length other than 2"))
    case Dict(es) =>
      if |es| == 2 then Ok((es[0].key, Text(es[1].key)))
      else Err(ValueError("dictionary update sequence element has length other than 2"))
    case _ => Err(TypeError("cannot convert dictionary update sequence element to a sequence"))
  }

  function PairsToDict(items: seq<Value>, acc: seq<Entry>): Result<seq<Entry>>
    decreases |items|
  {
    if items == [] then Ok(acc)
    else
      var kv :- Pair(items[0]);
      PairsToDict(items[1..], Insert(acc, kv.0, kv.1))
  }

  /** dict(v) for a value that has no to_dict(). */
  function DictOf(v: Value): Result<Value> {
    match v
    case Dict(es) => Ok(Dict(es))
    case Text(s) =>
      if s == "" then Ok(Dict([]))
      else Err(ValueError("dictionary update sequence element has length other than 2"))
    case List(items) =>
      var es :- PairsToDict(items, []);
      Ok(Dict(es))
    case _ => Err(TypeError("object is not iterable"))
  }

  /** serialize_location of the first ETL file: None gives {}, a Plaid model its to_dict(), and
      anything else dict() of it; only the AttributeError of a missing to_dict() is caught, so
      the errors of dict() reach the caller. */
  function SerializeLocationStrict(loc: Value): (r: Result<Value>)
    ensures loc.Null? ==> r == Ok(Dict([]))
    ensures r.Ok? ==> r.value.Dict?
    ensures r.Err? <==> !loc.Null? && !loc.Model? && DictOf(loc).Err?
    ensures r.Err? ==> r.error == DictOf(loc).error
  {
    if loc.Null? then Ok(Dict([]))
    else if loc.Model? then Ok(ToPlain(loc))
    else DictOf(loc)
  }

  /** serialize_location of the second ETL file: the same conversions, but every failure gives {}. */
  function SerializeLocation(loc: Value): (r: Value)
    ensures r.Dict?
    ensures loc.Null? ==> r == Dict([])
  {
    if loc.Null? then Dict([])
    else if loc.Model? then ToPlain(loc)
    else match DictOf(loc)
      case Ok(d) => d
      case Err(_) => Dict([])
  }

  // ---------- the first file's VALUES tuples ----------

  /** A list comprehension over records whose element expression can raise: the first record
      that raises stops it. */
  function Collect<T>(records: seq<Value>, f: Value -> Result<T>): Result<seq<T>>
    decreases |records|
  {
    if records == [] then Ok([])
    else
      var x :- f(records[0]);
      var rest :- Collect(records[1..], f);
      Ok([x] + rest)
  }

  const AccountColumns: seq<string> :=
    ["account_id", "name", "official_name", "type", "subtype", "mask",
     "current_balance", "available_balance", "currency_code", "created_at", "updated_at"]

  /** The first file's SET list for accounts: everything but the key and created_at. */
  const AccountSet: seq<string> :=
    ["name", "official_name", "type", "subtype", "mask",
     "current_balance", "available_balance", "currency_code", "updated_at"]

  const AccountStatement: Statement := Statement(AccountColumns, "account_id", AccountSet)

  const TransactionColumns: seq<string> :=
    ["transaction_id", "account_id", "amount", "date", "name", "merchant_name",
     "category", "pending", "payment_channel", "transaction_type", "location",
     "created_at", "updated_at"]

  /** The first file's SET list for transactions: it leaves out the key, account_id and created_at. */
  const TransactionSet: seq<string> :=
    ["amount", "date", "name", "merchant_name", "category", "pending",
     "payment_channel", "transaction_type", "location", "updated_at"]

  const TransactionStatement: Statement := Statement(TransactionColumns, "transaction_id", TransactionSet)

  /** The tuple load_accounts builds from one Plaid account. */
  function AccountTuple(a: Value, now: Stamp): Result<seq<Value>> {
    var id :- Subscript(a, "account_id");
    var name :- Get(a, "name");
    var official :- Get(a, "official_name");
    var kind :- Get(a, "type");
    var subtype :- Get(a, "subtype");
    var mask :- Get(a, "mask");
    var balances :- Subscript(a, "balances");
    var current :- Get(balances, "current");
    var available :- Get(balances, "available");
    var currency :- Get(balances, "iso_currency_code");
    Ok([id, SafeStr(name), SafeStr(official), SafeStr(kind), SafeStr(subtype), SafeStr(mask),
        current, available, SafeStr(currency), Time(now), Time(now)])
  }

  /** The tuple load_transactions builds from one Plaid transaction. */
  function TransactionTuple(t: Value, now: Stamp): Result<seq<Value>> {
    var id :- Subscript(t, "transaction_id");
    var account :- Subscript(t, "account_id");
    var amount :- Subscript(t, "amount");
    var date :- Subscript(t, "date");
    var name :- Get(t, "name");
    var merchant :- Get(t, "merchant_name");
    var category :- GetOr(t, "category", List([]));
    var pending :- Get(t, "pending");
    var channel :- Get(t, "payment_channel");
    var kind :- Get(t, "transaction_type");
    var location :- Get(t, "location");
    var json :- LocationJson(location);
    Ok([id, account, amount, date, SafeStr(name), SafeStr(merchant), category, pending,
        SafeStr(channel), SafeStr(kind), Text(json), Time(now), Time(now)])
  }

  /** json.dumps(serialize_location(location)) in the first file: either step may raise. */
  function LocationJson(location: Value): (r: Result<string>)
    ensures r.Ok? <==> SerializeLocationStrict(location).Ok? && JsonDumps(SerializeLocationStrict(location).value).Ok?
    ensures r.Ok? ==> r.value == JsonDumps(SerializeLocationStrict(location).value).value
  {
    var plain :- SerializeLocationStrict(location);
    JsonDumps(plain)
  }

  function AccountTuples(accounts: seq<Value>, now: Stamp): Result<seq<seq<Value>>> {
    Collect(accounts, a => AccountTuple(a, now))
  }

  function TransactionTuples(transactions: seq<Value>, now: Stamp): Result<seq<seq<Value>>> {
    Collect(transactions, t => TransactionTuple(t, now))
  }

  // ---------- the second file's dicts ----------

  /** The dict the second file's run builds from one Plaid account (name and official_name are
      not passed through safe_str here; balances defaults to {} only when the key is missing). */
  function AccountDict(a: Value, now: Stamp): Result<seq<Entry>> {
    var id :- Subscript(a, "account_id");
    var name :- Get(a, "name");
    var official :- Get(a, "official_name");
    var kind :- Get(a, "type");
    var subtype :- Get(a, "subtype");
    var mask :- Get(a, "mask");
    var balances :- GetOr(a, "balances", Dict([]));
    var current :- Get(balances, "current");
    var available :- Get(balances, "available");
    var currency :- Get(balances, "iso_currency_code");
    Ok([Entry("account_id", id), Entry("name", name), Entry("official_name", official),
        Entry("type", SafeStr(kind)), Entry("subtype", SafeStr(subtype)), Entry("mask", SafeStr(mask)),
        Entry("current_balance", current), Entry("available_balance", available),
        Entry("currency_code", SafeStr(currency)), Entry("created_at", Time(now)), Entry("updated_at", Time(now))])
  }

  /** The dict the second file's run builds from one Plaid transaction. */
  function TransactionDict(t: Value, now: Stamp): Result<seq<Entry>> {
    var id :- Subscript(t, "transaction_id");
    var account :- Get(t, "account_id");
    var amount :- Get(t, "amount");
    var date :- Get(t, "date");
    var name :- Get(t, "name");
    var merchant :- Get(t, "merchant_name");
    var category :- Get(t, "category");
    var pending :- Get(t, "pending");
    var channel :- Get(t, "payment_channel");
    var kind :- Get(t, "transaction_type");
    var location :- Get(t, "location");
    var json :- JsonDumps(SerializeLocation(location));
    Ok(TransactionEntries([id, account, amount, date, SafeStr(name), SafeStr(merchant), category,
                           pending, SafeStr(channel), SafeStr(kind), Text(json), Time(now), Time(now)]))
  }

  /** The transaction dict's literal, its values given in column order. */
  function TransactionEntries(vs: seq<Value>): (es: seq<Entry>)
    requires |vs| == |TransactionColumns|
    ensures EntryKeys(es) == TransactionColumns
    ensures forall i | 0 <= i < |es| :: es[i].val == vs[i]
  {
    seq(|vs|, i requires 0 <= i < |vs| => Entry(TransactionColumns[i], vs[i]))
  }

  function AccountDicts(accounts: seq<Value>, now: Stamp): Result<seq<seq<Entry>>> {
    Collect(accounts, a => AccountDict(a, now))
  }

  function TransactionDicts(transactions: seq<Value>, now: Stamp): Result<seq<seq<Entry>>> {
    Collect(transactions, t => TransactionDict(t, now))
  }

  // ---------- lemmas ----------

  /** Assigning a key: it then holds the new value, every other key keeps its value, and the key
      order is kept (a new key goes last). */
  lemma InsertLookup(es: seq<Entry>, k: string, v: Value)
    ensures Lookup(Insert(es, k, v), k) == Some(v)
    ensures forall k' :: k' != k ==> Lookup(Insert(es, k, v), k') == Lookup(es, k')
    ensures EntryKeys(Insert(es, k, v)) == if k in EntryKeys(es) then EntryKeys(es) else EntryKeys(es) + [k]
  {
    InsertValues(es, k, v);
    InsertKeys(es, k, v);
  }

  lemma {:induction false} InsertValues(es: seq<Entry>, k: string, v: Value)
    ensures Lookup(Insert(es, k, v), k) == Some(v)
    ensures forall k' :: k' != k ==> Lookup(Insert(es, k, v), k') == Lookup(es, k')
    decreases |es|
  {
    if es != [] && es[0].key != k {
      InsertValues(es[1..], k, v);
      assert Insert(es, k, v)[1..] == Insert(es[1..], k, v);
    }
  }

  lemma {:induction false} InsertKeys(es: seq<Entry>, k: string, v: Value)
    ensures EntryKeys(Insert(es, k, v)) == if k in EntryKeys(es) then EntryKeys(es) else EntryKeys(es) + [k]
    decreases |es|
  {
    if es != [] {
      var ks := EntryKeys(es);
      assert ks == [es[0].key] + EntryKeys(es[1..]);
      if es[0].key == k {
        assert EntryKeys(Insert(es, k, v)) == [k] + EntryKeys(es[1..]);
      } else {
        InsertKeys(es[1..], k, v);
        assert EntryKeys(Insert(es, k, v)) == [es[0].key] + EntryKeys(Insert(es[1..], k, v));
        assert k in ks <==> k in EntryKeys(es[1..]);
      }
    }
  }

  lemma InsertDistinct(es: seq<Entry>, k: string, v: Value)
    requires Distinct(EntryKeys(es))
    ensures Distinct(EntryKeys(Insert(es, k, v)))
  {
    InsertLookup(es, k, v);
    var ks := EntryKeys(es);
    if k !in ks {
      var ks' := ks + [k];
      forall i, j | 0 <= i < j < |ks'| ensures ks'[i] != ks'[j] {
        if j == |ks| { assert ks'[i] == ks[i]; }
      }
    }
  }

  /** dict() of a sequence of pairs is a proper dict: no key twice, and every pair's key is in it. */
  lemma {:induction false} PairsToDictKeys(items: seq<Value>, acc: seq<Entry>)
    requires Distinct(EntryKeys(acc))
    requires PairsToDict(items, acc).Ok?
    ensures Distinct(EntryKeys(PairsToDict(items, acc).value))
    ensures forall k :: k in EntryKeys(acc) ==> k in EntryKeys(PairsToDict(items, acc).value)
    ensures forall i :: 0 <= i < |items| ==> Pair(items[i]).Ok? && Pair(items[i]).value.0 in EntryKeys(PairsToDict(items, acc).value)
    decreases |items|
  {
    if items != [] {
      var kv := Pair(items[0]).value;
      var next := Insert(acc, kv.0, kv.1);
      InsertLookup(acc, kv.0, kv.1);
      InsertDistinct(acc, kv.0, kv.1);
      PairsToDictKeys(items[1..], next);
      assert PairsToDict(items, acc) == PairsToDict(items[1..], next);
      var keys := EntryKeys(PairsToDict(items[1..], next).value);
      assert kv.0 in keys by { assert kv.0 in EntryKeys(next); }
      forall i | 0 <= i < |items| ensures Pair(items[i]).Ok? && Pair(items[i]).value.0 in keys {
        if i > 0 { assert items[i] == items[1..][i - 1]; }
      }
    }
  }

  /** The two files' serialize_location agree wherever the first one succeeds; where it raises,
      the second one gives {}. */
  lemma SerializeLocationsAgree(loc: Value)
    ensures SerializeLocationStrict(loc).Ok? ==> SerializeLocation(loc) == SerializeLocationStrict(loc).value
    ensures SerializeLocationStrict(loc).Err? ==> SerializeLocation(loc) == Dict([])
    ensures loc.Dict? ==> SerializeLocation(loc) == loc
  {
  }

  /** A Plaid model as the location is written as JSON exactly when it holds no date or
      datetime; its enum fields are written as their value strings. */
  lemma ModelLocationDumps(loc: Value)
    requires loc.Model?
    ensures SerializeLocationStrict(loc).Ok?
    ensures JsonDumps(SerializeLocationStrict(loc).value).Ok? <==> DateFree(loc)
  {
    ToPlainSerializable(loc);
  }

  /** A comprehension over records succeeds exactly when every record maps; then it has one
      element per record, in order; otherwise it raises the error of the first failing record. */
  lemma {:induction false} CollectAll<T>(records: seq<Value>, f: Value -> Result<T>)
    ensures Collect(records, f).Ok? <==> forall i :: 0 <= i < |records| ==> f(records[i]).Ok?
    ensures Collect(records, f).Ok? ==>
              |Collect(records, f).value| == |records| &&
              forall i :: 0 <= i < |records| ==> Collect(records, f).value[i] == f(records[i]).value
    ensures Collect(records, f).Err? ==>
              exists i :: 0 <= i < |records| && f(records[i]).Err? && Collect(records, f).error == f(records[i]).error
                          && forall j :: 0 <= j < i ==> f(records[j]).Ok?
    decreases |records|
  {
    if records != [] {
      var rest := records[1..];
      CollectAll(rest, f);
      assert forall i :: 1 <= i < |records| ==> records[i] == rest[i - 1];
      if f(records[0]).Ok? && Collect(rest, f).Err? {
        var i :| 0 <= i < |rest| && f(rest[i]).Err? && Collect(rest, f).error == f(rest[i]).error
                 && forall j :: 0 <= j < i ==> f(rest[j]).Ok?;
        assert f(records[i + 1]).Err?;
        forall j | 0 <= j < i + 1 ensures f(records[j]).Ok? {
          if j > 0 { assert records[j] == rest[j - 1]; }
        }
      }
    }
  }

  /** No column is listed twice in either statement. */
  lemma ColumnsDistinct()
    ensures Distinct(AccountColumns) && Distinct(TransactionColumns)
  {
    StringsDistinct(AccountColumns);
    StringsDistinct(TransactionColumns);
  }

  /** Strings told apart by their length and first two characters. */
  lemma StringsDistinct(xs: seq<string>)
    requires forall i :: 0 <= i < |xs| ==> |xs[i]| >= 2
    requires forall i, j :: 0 <= i < j < |xs| ==> (|xs[i]|, xs[i][0], xs[i][1]) != (|xs[j]|, xs[j][0], xs[j][1])
    ensures Distinct(xs)
  {
  }

  /** A built account tuple has one value per listed column, in the listed order: its key
      column is the record's account_id, its timestamps are the batch's `now`. */
  lemma AccountTupleShape(a: Value, now: Stamp)
    requires AccountTuple(a, now).Ok?
    ensures Distinct(AccountColumns) && |AccountTuple(a, now).value| == |AccountColumns|
    ensures var v := AccountTuple(a, now).value;
            KeyOf("account_id", Proposed(AccountColumns, v)) == Subscript(a, "account_id").value &&
            v[9] == v[10] == Time(now) &&
            v[1] == SafeStr(Get(a, "name").value)
  {
    ColumnsDistinct();
    var v := AccountTuple(a, now).value;
    ProposedAt(AccountColumns, v, 0);
  }

  /** A built transaction tuple has one value per listed column: its key column is the record's
      transaction_id, then its account_id, and its location is the JSON text of the serialized
      location. */
  lemma TransactionTupleShape(t: Value, now: Stamp)
    requires TransactionTuple(t, now).Ok?
    ensures Distinct(TransactionColumns) && |TransactionTuple(t, now).value| == |TransactionColumns|
    ensures Subscript(t, "transaction_id").Ok? && Subscript(t, "account_id").Ok? && Get(t, "location").Ok?
    ensures var v := TransactionTuple(t, now).value;
            KeyOf("transaction_id", Proposed(TransactionColumns, v)) == Subscript(t, "transaction_id").value &&
            v[1] == Subscript(t, "account_id").value
    ensures SerializeLocationStrict(Get(t, "location").value).Ok?
    ensures JsonDumps(SerializeLocationStrict(Get(t, "location").value).value).Ok?
    ensures TransactionTuple(t, now).value[10] == Text(JsonDumps(SerializeLocationStrict(Get(t, "location").value).value).value)
  {
    ColumnsDistinct();
    ProposedAt(TransactionColumns, TransactionTuple(t, now).value, 0);
  }

  /** The second file's dicts have exactly the first file's column lists, in the same order. */
  lemma DictColumns(a: Value, t: Value, now: Stamp)
    ensures AccountDict(a, now).Ok? ==> EntryKeys(AccountDict(a, now).value) == AccountColumns
    ensures TransactionDict(t, now).Ok? ==> EntryKeys(TransactionDict(t, now).value) == TransactionColumns
  {
    AccountDictColumns(a, now);
    TransactionDictColumns(t, now);
  }

  lemma AccountDictColumns(a: Value, now: Stamp)
    ensures AccountDict(a, now).Ok? ==> EntryKeys(AccountDict(a, now).value) == AccountColumns
  {
  }

  lemma TransactionDictColumns(t: Value, now: Stamp)
    ensures TransactionDict(t, now).Ok? ==> EntryKeys(TransactionDict(t, now).value) == TransactionColumns
  {
  }

  /** On conflict, the first file's account upsert overwrites the listed columns and keeps the
      stored created_at; the transaction upsert also keeps the stored account_id. */
  lemma FirstFileConflicts(existing: Row, proposed: Row)
    ensures "created_at" in existing ==>
              Merge(existing, proposed, AccountSet)["created_at"] == existing["created_at"] &&
              Merge(existing, proposed, TransactionSet)["created_at"] == existing["created_at"]
    ensures "account_id" in existing ==>
              Merge(existing, proposed, TransactionSet)["account_id"] == existing["account_id"]
    ensures forall c :: c in AccountSet && c in proposed ==> Merge(existing, proposed, AccountSet)[c] == proposed[c]
    ensures forall c :: c in TransactionSet && c in proposed ==> Merge(existing, proposed, TransactionSet)[c] == proposed[c]
  {
    AccountConflicts(existing, proposed);
    TransactionConflicts(existing, proposed);
  }

  lemma AccountConflicts(existing: Row, proposed: Row)
    ensures "created_at" in existing ==> Merge(existing, proposed, AccountSet)["created_at"] == existing["created_at"]
    ensures forall c :: c in AccountSet && c in proposed ==> Merge(existing, proposed, AccountSet)[c] == proposed[c]
  {
    MergeColumn(existing, proposed, AccountSet, "created_at");
  }

  lemma TransactionConflicts(existing: Row, proposed: Row)
    ensures "created_at" in existing ==> Merge(existing, proposed, TransactionSet)["created_at"] == existing["created_at"]
    ensures "account_id" in existing ==> Merge(existing, proposed, TransactionSet)["account_id"] == existing["account_id"]
    ensures forall c :: c in TransactionSet && c in proposed ==> Merge(existing, proposed, TransactionSet)[c] == proposed[c]
  {
    MergeColumn(existing, proposed, TransactionSet, "created_at");
    MergeColumn(existing, proposed, TransactionSet, "account_id");
  }
}
