/** Python values as the pipeline sees them: Plaid records and their fields, mapping access
    (`v[k]`, `v.get(k, d)`), and what `str()`, `to_dict()` and `json.dumps()` make of them. */
module PyValues {
  import opened Wrappers

  /** A reading of datetime.now(timezone.utc), at whole seconds. */
  datatype Stamp = Stamp(year: nat, month: nat, day: nat, hour: nat, minute: nat, second: nat)

  /** The ranges datetime enforces (the day is bounded by 31, not by the month's length). */
  predicate ValidStamp(t: Stamp) {
    1 <= t.year <= 9999 && 1 <= t.month <= 12 && 1 <= t.day <= 31
    && t.hour < 24 && t.minute < 60 && t.second < 60
  }

  datatype Value =
    | Null                       // None
    | Text(s: string)            // str
    | Int(i: int)                // int; DECIMAL balances and amounts are carried as integer cents
    | Bool(b: bool)
    | Enum(name: string)         // a Plaid enum object such as AccountType; str() gives its value
    | Date(year: nat, month: nat, day: nat)
    | Time(at: Stamp)            // an aware datetime in UTC
    | List(items: seq<Value>)
    | Dict(entries: seq<Entry>)  // a dict, in insertion order
    | Model(fields: seq<Entry>)  // a Plaid model object: indexable, with .get() and .to_dict()

  datatype Entry = Entry(key: string, val: Value)

  // ---------- decimal digits ----------

  function DigitChar(d: nat): char
    requires d < 10
  {
    "0123456789"[d]
  }

  predicate IsDigit(c: char) {
    '0' <= c <= '9'
  }

  function DigitValue(c: char): nat
    requires IsDigit(c)
  {
    (c as int) - ('0' as int)
  }

  /** The shortest decimal numeral of n. */
  function Digits(n: nat): string
    decreases n
  {
    if n < 10 then [DigitChar(n)] else Digits(n / 10) + [DigitChar(n % 10)]
  }

  function Zeros(k: nat): string {
    seq(k, _ => '0')
  }

  /** printf's "%0<width>d" of a non-negative number. */
  function Pad(n: nat, width: nat): string {
    var d := Digits(n);
    if |d| >= width then d else Zeros(width - |d|) + d
  }

  /** str() of an int. */
  function Decimal(i: int): string {
    if i < 0 then "-" + Digits(-i) else Digits(i)
  }

  predicate AllDigits(s: string) {
    forall k :: 0 <= k < |s| ==> IsDigit(s[k])
  }

  /** The number a string of digits denotes. */
  function DigitsValue(s: string): nat
    requires AllDigits(s)
  {
    if s == [] then 0 else DigitsValue(s[..|s| - 1]) * 10 + DigitValue(s[|s| - 1])
  }

  /** int() of a decimal numeral with an optional leading '-'; None for anything else. */
  function ParseDecimal(s: string): Option<int> {
    if |s| > 0 && s[0] == '-' then
      (if |s| > 1 && AllDigits(s[1..]) then Some(0 - DigitsValue(s[1..])) else None)
    else if |s| > 0 && AllDigits(s) then Some(DigitsValue(s))
    else None
  }

  function Pow10(k: nat): nat {
    if k == 0 then 1 else 10 * Pow10(k - 1)
  }

  lemma DigitCharValue(d: nat)
    requires d < 10
    ensures IsDigit(DigitChar(d)) && DigitValue(DigitChar(d)) == d
  {
  }

  /** Digits(n) is a numeral for n, and it has at most w characters when n < 10^w. */
  lemma {:induction false} DigitsCorrect(n: nat, w: nat)
    ensures AllDigits(Digits(n)) && DigitsValue(Digits(n)) == n
    ensures 1 <= w && n < Pow10(w) ==> |Digits(n)| <= w
    ensures |Digits(n)| >= 1 && (n > 0 ==> Digits(n)[0] != '0')
    decreases n
  {
    var d := Digits(n);
    if n < 10 {
      DigitCharValue(n);
    } else {
      DigitsCorrect(n / 10, if w <= 1 then 1 else w - 1);
      DigitCharValue(n % 10);
      var p := Digits(n / 10);
      assert d == p + [DigitChar(n % 10)];
      assert d[..|d| - 1] == p;
      assert AllDigits(d) by {
        forall k | 0 <= k < |d| ensures IsDigit(d[k]) {
          if k < |p| { assert d[k] == p[k]; }
        }
      }
      if 1 <= w && n < Pow10(w) {
        assert n / 10 < Pow10(w - 1);
      }
    }
  }

  lemma {:induction false} ZerosPrefixValue(k: nat, s: string)
    requires AllDigits(s)
    ensures AllDigits(Zeros(k) + s) && DigitsValue(Zeros(k) + s) == DigitsValue(s) + DigitsValue(Zeros(k)) * Pow10(|s|)
    ensures AllDigits(Zeros(k)) && DigitsValue(Zeros(k)) == 0
    decreases |s|
  {
    assert AllDigits(Zeros(k) + s) by {
      forall i | 0 <= i < |Zeros(k) + s| ensures IsDigit((Zeros(k) + s)[i]) {
        if i < k { assert (Zeros(k) + s)[i] == '0'; } else { assert (Zeros(k) + s)[i] == s[i - k]; }
      }
    }
    ZerosValue(k);
    if s == [] {
      assert Zeros(k) + s == Zeros(k);
    } else {
      var t := Zeros(k) + s;
      assert t[..|t| - 1] == Zeros(k) + s[..|s| - 1];
      assert t[|t| - 1] == s[|s| - 1];
      ZerosPrefixValue(k, s[..|s| - 1]);
    }
  }

  lemma {:induction false} ZerosValue(k: nat)
    ensures AllDigits(Zeros(k)) && DigitsValue(Zeros(k)) == 0
  {
    if k > 0 {
      assert Zeros(k)[..k - 1] == Zeros(k - 1);
      ZerosValue(k - 1);
    }
  }

  /** "%0<w>d" is read back as the number it renders, and for n < 10^w it is exactly w digits. */
  lemma PadCorrect(n: nat, w: nat)
    ensures AllDigits(Pad(n, w)) && DigitsValue(Pad(n, w)) == n
    ensures 1 <= w && n < Pow10(w) ==> |Pad(n, w)| == w
  {
    DigitsCorrect(n, w);
    var d := Digits(n);
    if |d| < w {
      ZerosPrefixValue(w - |d|, d);
    }
  }

  /** str() of an int is lossless: int(str(i)) == i. */
  lemma DecimalRoundTrip(i: int)
    ensures ParseDecimal(Decimal(i)) == Some(i)
  {
    var d := Digits(if i < 0 then -i else i);
    DigitsCorrect(if i < 0 then -i else i, 1);
    assert d[0] != '-' by { assert IsDigit(d[0]); }
    if i < 0 {
      NegativeDecimal("-" + d, d);
    } else {
      assert Decimal(i) == d;
    }
  }

  lemma NegativeDecimal(s: string, d: string)
    requires s == "-" + d && |d| > 0 && AllDigits(d)
    ensures ParseDecimal(s) == Some(0 - DigitsValue(d))
  {
    assert s[1..] == d;
  }

  // ---------- str() and repr() ----------

  function Join(parts: seq<string>, sep: string): string {
    if |parts| == 0 then "" else if |parts| == 1 then parts[0] else parts[0] + sep + Join(parts[1..], sep)
  }

  function IsoDate(y: nat, m: nat, d: nat): string {
    Pad(y, 4) + "-" + Pad(m, 2) + "-" + Pad(d, 2)
  }

  function IsoClock(t: Stamp): string {
    Pad(t.hour, 2) + ":" + Pad(t.minute, 2) + ":" + Pad(t.second, 2)
  }

  /** The quote repr() puts around a string: ' unless the string holds ' and no ". */
  function QuoteFor(s: string): char {
    if '\'' in s && '"' !in s then '"' else '\''
  }

  /** One character of repr() of a string quoted with q: the backslash, the quote and \n \r \t
      are escaped, the other ASCII and Latin-1 control characters (and U+00A0, U+00AD) become
      \xhh, everything else is kept. */
  function ReprChar(c: char, q: char): string {
    if c == '\\' then "\\\\"
    else if c == q then ['\\', q]
    else if c == '\n' then "\\n"
    else if c == '\r' then "\\r"
    else if c == '\t' then "\\t"
    else if c as int < 0x20 || 0x7f <= c as int <= 0xa0 || c as int == 0xad then
      "\\x" + [HexDigit(c as int / 16), HexDigit(c as int % 16)]
    else [c]
  }

  function EscapeRepr(s: string, q: char): string {
    if s == [] then "" else ReprChar(s[0], q) + EscapeRepr(s[1..], q)
  }

  /** repr(s) of a string. */
  function ReprText(s: string): string {
    [QuoteFor(s)] + EscapeRepr(s, QuoteFor(s)) + [QuoteFor(s)]
  }

  /** A character that repr() writes as itself inside quotes q. */
  predicate PlainIn(c: char, q: char) {
    ' ' <= c <= '~' && c != '\\' && c != q
  }

  lemma {:induction false} EscapePlain(s: string, q: char)
    requires forall i :: 0 <= i < |s| ==> PlainIn(s[i], q)
    ensures EscapeRepr(s, q) == s
    decreases |s|
  {
    if s != [] {
      EscapePlain(s[1..], q);
      assert s == [s[0]] + s[1..];
    }
  }

  /** Printable ASCII without a backslash and without both kinds of quote: repr() only adds the
      quotes, and picks " exactly when the text holds a '. */
  lemma ReprTextPrintable(s: string)
    requires forall i :: 0 <= i < |s| ==> ' ' <= s[i] <= '~' && s[i] != '\\'
    requires !('\'' in s && '"' in s)
    ensures QuoteFor(s) == (if '\'' in s then '"' else '\'')
    ensures ReprText(s) == [QuoteFor(s)] + s + [QuoteFor(s)]
  {
    var q := QuoteFor(s);
    forall i | 0 <= i < |s| ensures PlainIn(s[i], q) {
      assert s[i] in s;
    }
    EscapePlain(s, q);
  }

  /** A name with an apostrophe: repr("McDonald's") puts it in double quotes. */
  lemma ReprApostrophe(s: string)
    requires s == "McDonald's"
    ensures ReprText(s) == "\"" + s + "\""
  {
    assert s[8] == '\'';
    forall i | 0 <= i < |s| ensures ' ' <= s[i] <= '~' && s[i] != '\\' && s[i] != '"' {
    }
    assert '"' !in s;
    ReprTextPrintable(s);
  }

  /** str(v). A Plaid model prints as a one-line dict of its fields in their stored order. */
  function Str(v: Value): string
    decreases v, 0
  {
    match v
    case Null => "None"
    case Text(s) => s
    case Int(i) => Decimal(i)
    case Bool(b) => if b then "True" else "False"
    case Enum(n) => n
    case Date(y, m, d) => IsoDate(y, m, d)
    case Time(t) => IsoDate(t.year, t.month, t.day) + " " + IsoClock(t) + "+00:00"
    case List(items) =>
      "[" + Join(seq(|items|, i requires 0 <= i < |items| => Repr(items[i])), ", ") + "]"
    case Dict(es) =>
      "{" + Join(seq(|es|, i requires 0 <= i < |es| => ReprText(es[i].key) + ": " + Repr(es[i].val)), ", ") + "}"
    case Model(es) =>
      "{" + Join(seq(|es|, i requires 0 <= i < |es| => ReprText(es[i].key) + ": " + Repr(es[i].val)), ", ") + "}"
  }

  /** repr(v), as str() uses it for the elements of a container. */
  function Repr(v: Value): string
    decreases v, 1
  {
    match v
    case Text(s) => ReprText(s)
    case Date(y, m, d) => "datetime.date(" + Decimal(y) + ", " + Decimal(m) + ", " + Decimal(d) + ")"
    case Time(t) =>
      "datetime.datetime(" + Decimal(t.year) + ", " + Decimal(t.month) + ", " + Decimal(t.day) + ", "
      + Decimal(t.hour) + ", " + Decimal(t.minute) + (if t.second != 0 then ", " + Decimal(t.second) else "")
      + ", tzinfo=datetime.timezone.utc)"
    case _ => Str(v)
  }

  /** safe_str: None stays None; every other value becomes the string str() gives it.
      (The second ETL file falls back to json.dumps when str() raises; no modelled value
      makes str() raise, so both files' helpers are this one function.) */
  function SafeStr(v: Value): (r: Value)
    ensures r.Null? <==> v.Null?
    ensures r.Null? || r.Text?
  {
    if v.Null? then Null else Text(Str(v))
  }

  /** safe_str keeps strings and gives an enum object its value: the conversion loses nothing
      for the classifications the mapper converts, and applying it twice changes nothing. */
  lemma SafeStrKeepsText(v: Value)
    ensures v.Text? ==> SafeStr(v) == v
    ensures v.Enum? ==> SafeStr(v) == Text(v.name)
    ensures v.Int? ==> SafeStr(v).Text? && ParseDecimal(SafeStr(v).s) == Some(v.i)
    ensures SafeStr(SafeStr(v)) == SafeStr(v)
  {
    if v.Int? { DecimalRoundTrip(v.i); }
  }

  // ---------- mapping access ----------

  /** The value stored under k (Python dicts hold each key once; the first entry wins here). */
  function Lookup(es: seq<Entry>, k: string): Option<Value> {
    if es == [] then None else if es[0].key == k then Some(es[0].val) else Lookup(es[1..], k)
  }

  function EntryKeys(es: seq<Entry>): seq<string> {
    seq(|es|, i requires 0 <= i < |es| => es[i].key)
  }

  lemma {:induction false} LookupFound(es: seq<Entry>, k: string)
    ensures Lookup(es, k).Some? <==> k in EntryKeys(es)
  {
    if es != [] {
      LookupFound(es[1..], k);
      assert EntryKeys(es) == [es[0].key] + EntryKeys(es[1..]);
    }
  }

  /** v[k]: a KeyError when the key is missing, a TypeError when v is not a mapping. */
  function Subscript(v: Value, k: string): Result<Value> {
    match v
    case Dict(es) => (match Lookup(es, k) case Some(x) => Ok(x) case None => Err(KeyError(k)))
    case Model(es) => (match Lookup(es, k) case Some(x) => Ok(x) case None => Err(KeyError(k)))
    case _ => Err(TypeError("object is not subscriptable"))
  }

  /** v.get(k, default): an AttributeError when v is not a mapping (None included). */
  function GetOr(v: Value, k: string, default: Value): Result<Value> {
    match v
    case Dict(es) => (match Lookup(es, k) case Some(x) => Ok(x) case None => Ok(default))
    case Model(es) => (match Lookup(es, k) case Some(x) => Ok(x) case None => Ok(default))
    case _ => Err(AttributeError("get"))
  }

  /** v.get(k). */
  function Get(v: Value, k: string): Result<Value> {
    GetOr(v, k, Null)
  }

  // ---------- to_dict() and json.dumps() ----------

  /** A Plaid model's to_dict(): nested models become dicts, inside lists and dicts too, and an
      enum field becomes its value string. */
  function ToPlain(v: Value): Value
    decreases v
  {
    match v
    case List(items) => List(seq(|items|, i requires 0 <= i < |items| => ToPlain(items[i])))
    case Dict(es) => Dict(seq(|es|, i requires 0 <= i < |es| => Entry(es[i].key, ToPlain(es[i].val))))
    case Model(es) => Dict(seq(|es|, i requires 0 <= i < |es| => Entry(es[i].key, ToPlain(es[i].val))))
    case Enum(n) => Text(n)
    case _ => v
  }

  /** The values json.dumps accepts; for the rest (enum objects, dates, datetimes, models) it
      raises TypeError. */
  predicate Serializable(v: Value)
    decreases v
  {
    match v
    case Null => true
    case Text(_) => true
    case Int(_) => true
    case Bool(_) => true
    case List(items) => forall i | 0 <= i < |items| :: Serializable(items[i])
    case Dict(es) => forall i | 0 <= i < |es| :: Serializable(es[i].val)
    case _ => false
  }

  /** Holds no date or datetime, at any depth. */
  predicate DateFree(v: Value)
    decreases v
  {
    match v
    case Date(_, _, _) => false
    case Time(_) => false
    case List(items) => forall i | 0 <= i < |items| :: DateFree(items[i])
    case Dict(es) => forall i | 0 <= i < |es| :: DateFree(es[i].val)
    case Model(es) => forall i | 0 <= i < |es| :: DateFree(es[i].val)
    case _ => true
  }

  /** json.dumps accepts a model's to_dict() exactly when nothing in it is a date or a datetime:
      models and enum fields are all converted. */
  lemma {:induction false} ToPlainSerializable(v: Value)
    ensures Serializable(ToPlain(v)) <==> DateFree(v)
    decreases v
  {
    match v
    case List(items) =>
      var ps := ToPlain(v).items;
      forall i | 0 <= i < |items| ensures Serializable(ps[i]) <==> DateFree(items[i]) {
        assert ps[i] == ToPlain(items[i]);
        ToPlainSerializable(items[i]);
      }
    case Dict(es) =>
      var ps := ToPlain(v).entries;
      forall i | 0 <= i < |es| ensures Serializable(ps[i].val) <==> DateFree(es[i].val) {
        assert ps[i].val == ToPlain(es[i].val);
        ToPlainSerializable(es[i].val);
      }
    case Model(es) =>
      var ps := ToPlain(v).entries;
      forall i | 0 <= i < |es| ensures Serializable(ps[i].val) <==> DateFree(es[i].val) {
        assert ps[i].val == ToPlain(es[i].val);
        ToPlainSerializable(es[i].val);
      }
    case _ =>
  }

  function HexDigit(d: nat): char
    requires d < 16
  {
    "0123456789abcdef"[d]
  }

  function Hex4(n: nat): string
    requires n < 0x10000
  {
    [HexDigit(n / 0x1000), HexDigit(n / 0x100 % 16), HexDigit(n / 0x10 % 16), HexDigit(n % 16)]
  }

  /** One character as json.dumps writes it with ensure_ascii=True. */
  function EscapeChar(c: char): string {
    if c == '"' then "\\\""
    else if c == '\\' then "\\\\"
    else if c == '\n' then "\\n"
    else if c == '\r' then "\\r"
    else if c == '\t' then "\\t"
    else if c as int == 8 then "\\b"
    else if c as int == 12 then "\\f"
    else if ' ' <= c <= '~' then [c]
    else if c as int < 0x10000 then "\\u" + Hex4(c as int)
    else
      var x := c as int - 0x10000;
      "\\u" + Hex4(0xD800 + x / 0x400) + "\\u" + Hex4(0xDC00 + x % 0x400)
  }

  function JsonQuote(s: string): string {
    "\"" + Join(seq(|s|, i requires 0 <= i < |s| => EscapeChar(s[i])), "") + "\""
  }

  /** json.dumps(v) with the default separators ", " and ": ". */
  function JsonText(v: Value): string
    requires Serializable(v)
    decreases v
  {
    match v
    case Null => "null"
    case Text(s) => JsonQuote(s)
    case Int(i) => Decimal(i)
    case Bool(b) => if b then "true" else "false"
    case List(items) =>
      "[" + Join(seq(|items|, i requires 0 <= i < |items| => JsonText(items[i])), ", ") + "]"
    case Dict(es) =>
      "{" + Join(seq(|es|, i requires 0 <= i < |es| => JsonQuote(es[i].key) + ": " + JsonText(es[i].val)), ", ") + "}"
  }

  function JsonDumps(v: Value): Result<string> {
    if Serializable(v) then Ok(JsonText(v)) else Err(TypeError("Object is not JSON serializable"))
  }
}
