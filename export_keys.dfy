/** The names the export utility gives its S3 objects: timestamp_now's compact UTC timestamp
    (the basic format of ISO 8601:2004 section 4.3.2, YYYYMMDDTHHMMSSZ), the prefix
    normalisation and the key `<prefix><table>.<timestamp>.csv`. */
module ExportKeys {
  import opened Wrappers
  import opened PyValues

  /** strftime("%Y%m%dT%H%M%SZ") of a UTC reading. */
  function TimestampNow(t: Stamp): string {
    Pad(t.year, 4) + Pad(t.month, 2) + Pad(t.day, 2) + "T" + Pad(t.hour, 2) + Pad(t.minute, 2) + Pad(t.second, 2) + "Z"
  }

  /** Reading a timestamp back: None unless it has the compact shape. */
  function ParseTimestamp(s: string): Option<Stamp> {
    if |s| == 16 && s[8] == 'T' && s[15] == 'Z'
       && AllDigits(s[0..4]) && AllDigits(s[4..6]) && AllDigits(s[6..8])
       && AllDigits(s[9..11]) && AllDigits(s[11..13]) && AllDigits(s[13..15])
    then Some(Stamp(DigitsValue(s[0..4]), DigitsValue(s[4..6]), DigitsValue(s[6..8]),
                    DigitsValue(s[9..11]), DigitsValue(s[11..13]), DigitsValue(s[13..15])))
    else None
  }

  /** Python's comparison of two strings: lexicographic by code point. */
  predicate LexLess(a: string, b: string)
    decreases |a|
  {
    if a == [] then b != []
    else b != [] && (a[0] < b[0] || (a[0] == b[0] && LexLess(a[1..], b[1..])))
  }

  /** Chronological order of two readings. */
  predicate Before(a: Stamp, b: Stamp) {
    a.year < b.year || (a.year == b.year &&
    (a.month < b.month || (a.month == b.month &&
    (a.day < b.day || (a.day == b.day &&
    (a.hour < b.hour || (a.hour == b.hour &&
    (a.minute < b.minute || (a.minute == b.minute && a.second < b.second)))))))))
  }

  /** s.rstrip(c). */
  function RStrip(s: string, c: char): string
    decreases |s|
  {
    if s != [] && s[|s| - 1] == c then RStrip(s[..|s| - 1], c) else s
  }

  /** (s3_prefix.rstrip("/") + "/") if s3_prefix else "". */
  function NormalizePrefix(p: Option<string>): string {
    if Truthy(p) then RStrip(p.value, '/') + "/" else ""
  }

  /** f"{prefix}{table_name}.{timestamp_now()}.csv". */
  function ExportKey(prefix: Option<string>, table: string, timestamp: string): string {
    NormalizePrefix(prefix) + table + "." + timestamp + ".csv"
  }

  // ---------- lemmas ----------

  /** The timestamp is 16 characters: eight digits, 'T', six digits, 'Z'. */
  lemma TimestampShape(t: Stamp)
    requires ValidStamp(t)
    ensures var s := TimestampNow(t);
            |s| == 16 && s[8] == 'T' && s[15] == 'Z'
            && s[0..4] == Pad(t.year, 4) && s[4..6] == Pad(t.month, 2) && s[6..8] == Pad(t.day, 2)
            && s[9..11] == Pad(t.hour, 2) && s[11..13] == Pad(t.minute, 2) && s[13..15] == Pad(t.second, 2)
  {
    assert Pow10(2) == 100 && Pow10(4) == 10000;
    PadCorrect(t.year, 4);
    PadCorrect(t.month, 2);
    PadCorrect(t.day, 2);
    PadCorrect(t.hour, 2);
    PadCorrect(t.minute, 2);
    PadCorrect(t.second, 2);
    Fields(Pad(t.year, 4), Pad(t.month, 2), Pad(t.day, 2), Pad(t.hour, 2), Pad(t.minute, 2), Pad(t.second, 2));
  }

  /** Where the six fields sit in "YYYYMMDDTHHMMSSZ". */
  lemma Fields(y: string, mo: string, d: string, h: string, mi: string, se: string)
    requires |y| == 4 && |mo| == 2 && |d| == 2 && |h| == 2 && |mi| == 2 && |se| == 2
    ensures var s := y + mo + d + "T" + h + mi + se + "Z";
            |s| == 16 && s[8] == 'T' && s[15] == 'Z'
            && s[0..4] == y && s[4..6] == mo && s[6..8] == d && s[9..11] == h && s[11..13] == mi && s[13..15] == se
  {
    var s := y + mo + d + "T" + h + mi + se + "Z";
    assert forall k :: 0 <= k < 4 ==> s[k] == y[k];
    assert forall k :: 0 <= k < 2 ==> s[4 + k] == mo[k] && s[6 + k] == d[k];
    assert forall k :: 0 <= k < 2 ==> s[9 + k] == h[k] && s[11 + k] == mi[k] && s[13 + k] == se[k];
  }

  /** The timestamp is read back as the reading it was made from. */
  lemma ParseTimestampNow(t: Stamp)
    requires ValidStamp(t)
    ensures ParseTimestamp(TimestampNow(t)) == Some(t)
  {
    TimestampShape(t);
    PadCorrect(t.year, 4);
    PadCorrect(t.month, 2);
    PadCorrect(t.day, 2);
    PadCorrect(t.hour, 2);
    PadCorrect(t.minute, 2);
    PadCorrect(t.second, 2);
  }

  /** Distinct readings give distinct timestamps. */
  lemma TimestampInjective(a: Stamp, b: Stamp)
    requires ValidStamp(a) && ValidStamp(b)
    ensures TimestampNow(a) == TimestampNow(b) <==> a == b
  {
    ParseTimestampNow(a);
    ParseTimestampNow(b);
  }

  /** Comparing two concatenations whose first parts have the same length compares the first
      parts, and the second parts only when the first parts are equal. */
  lemma {:induction false} LexConcat(a1: string, a2: string, b1: string, b2: string)
    requires |a1| == |b1|
    ensures LexLess(a1 + a2, b1 + b2) <==> LexLess(a1, b1) || (a1 == b1 && LexLess(a2, b2))
    decreases |a1|
  {
    if a1 == [] {
      assert a1 + a2 == a2 && b1 + b2 == b2;
    } else {
      assert (a1 + a2)[0] == a1[0] && (a1 + a2)[1..] == a1[1..] + a2;
      assert (b1 + b2)[0] == b1[0] && (b1 + b2)[1..] == b1[1..] + b2;
      LexConcat(a1[1..], a2, b1[1..], b2);
      assert a1 == b1 <==> a1[0] == b1[0] && a1[1..] == b1[1..] by {
        if a1[0] == b1[0] && a1[1..] == b1[1..] {
          assert a1 == [a1[0]] + a1[1..] && b1 == [b1[0]] + b1[1..];
        }
      }
    }
  }

  /** For digit strings of one length, string order is numeric order and equality is equality
      of the numbers. */
  lemma {:induction false} LexDigits(s: string, t: string)
    requires |s| == |t| && AllDigits(s) && AllDigits(t)
    ensures LexLess(s, t) <==> DigitsValue(s) < DigitsValue(t)
    ensures s == t <==> DigitsValue(s) == DigitsValue(t)
    decreases |s|
  {
    if s != [] {
      var n := |s| - 1;
      var s', t' := s[..n], t[..n];
      assert AllDigits(s') && AllDigits(t') by {
        forall k | 0 <= k < n ensures IsDigit(s'[k]) && IsDigit(t'[k]) {
          assert s'[k] == s[k] && t'[k] == t[k];
        }
      }
      LexDigits(s', t');
      assert s == s' + [s[n]] && t == t' + [t[n]];
      LexConcat(s', [s[n]], t', [t[n]]);
      assert LexLess([s[n]], [t[n]]) <==> s[n] < t[n] by {
        assert [s[n]][1..] == [] && [t[n]][1..] == [];
      }
      assert s == t <==> s' == t' && s[n] == t[n];
    }
  }

  /** "%0<w>d" orders and separates numbers below 10^w as the numbers themselves. */
  lemma PadOrder(m: nat, n: nat, w: nat)
    requires 1 <= w && m < Pow10(w) && n < Pow10(w)
    ensures LexLess(Pad(m, w), Pad(n, w)) <==> m < n
    ensures Pad(m, w) == Pad(n, w) <==> m == n
  {
    PadCorrect(m, w);
    PadCorrect(n, w);
    LexDigits(Pad(m, w), Pad(n, w));
  }

  /** String order of the timestamps is chronological order: the format is sortable. */
  lemma TimestampOrder(a: Stamp, b: Stamp)
    requires ValidStamp(a) && ValidStamp(b)
    ensures LexLess(TimestampNow(a), TimestampNow(b)) <==> Before(a, b)
  {
    ParseTimestampNow(a);
    ParseTimestampNow(b);
    ParsedOrder(TimestampNow(a), TimestampNow(b));
  }

  /** Two well-formed timestamps compare as strings as the readings they spell compare in time. */
  lemma ParsedOrder(s: string, s': string)
    requires ParseTimestamp(s).Some? && ParseTimestamp(s').Some?
    ensures LexLess(s, s') <==> Before(ParseTimestamp(s).value, ParseTimestamp(s').value)
  {
    FieldsOrder(s, s', 0, 4, 6, 8);
    FieldsOrder(s, s', 9, 11, 13, 15);
    assert s[8..9] == s'[8..9] == "T" && s[15..16] == s'[15..16] == "Z";
    LexIrreflexive("T");
    LexIrreflexive("Z");
    SliceStep(s, s', 0, 8, 9);
    SliceStep(s, s', 0, 9, 15);
    SliceStep(s, s', 0, 15, 16);
    assert s[0..16] == s && s'[0..16] == s';
  }

  /** Three adjacent numeric fields of equal widths compare as strings as their values compare in order. */
  lemma FieldsOrder(s: string, s': string, i: nat, j: nat, k: nat, l: nat)
    requires i <= j <= k <= l <= |s| == |s'|
    requires AllDigits(s[i..j]) && AllDigits(s'[i..j]) && AllDigits(s[j..k]) && AllDigits(s'[j..k])
    requires AllDigits(s[k..l]) && AllDigits(s'[k..l])
    ensures LexLess(s[i..l], s'[i..l]) <==>
      DigitsValue(s[i..j]) < DigitsValue(s'[i..j]) || (DigitsValue(s[i..j]) == DigitsValue(s'[i..j]) &&
      (DigitsValue(s[j..k]) < DigitsValue(s'[j..k]) || (DigitsValue(s[j..k]) == DigitsValue(s'[j..k]) &&
       DigitsValue(s[k..l]) < DigitsValue(s'[k..l]))))
    ensures s[i..l] == s'[i..l] <==>
      DigitsValue(s[i..j]) == DigitsValue(s'[i..j]) && DigitsValue(s[j..k]) == DigitsValue(s'[j..k])
      && DigitsValue(s[k..l]) == DigitsValue(s'[k..l])
  {
    LexDigits(s[i..j], s'[i..j]);
    LexDigits(s[j..k], s'[j..k]);
    LexDigits(s[k..l], s'[k..l]);
    SliceStep(s, s', i, j, k);
    SliceStep(s, s', i, k, l);
  }

  /** Extending two equal-length slices by one more piece. */
  lemma SliceStep(s: string, s': string, i: nat, j: nat, k: nat)
    requires i <= j <= k <= |s| == |s'|
    ensures LexLess(s[i..k], s'[i..k]) <==> LexLess(s[i..j], s'[i..j]) || (s[i..j] == s'[i..j] && LexLess(s[j..k], s'[j..k]))
    ensures s[i..k] == s'[i..k] <==> s[i..j] == s'[i..j] && s[j..k] == s'[j..k]
  {
    assert s[i..k] == s[i..j] + s[j..k] && s'[i..k] == s'[i..j] + s'[j..k];
    LexAppendField(s[i..j], s[j..k], s'[i..j], s'[j..k]);
  }

  /** Two concatenations whose first parts have the same length are equal exactly when both
      parts are. */
  lemma ConcatEqual(a1: string, a2: string, b1: string, b2: string)
    requires |a1| == |b1|
    ensures a1 + a2 == b1 + b2 <==> a1 == b1 && a2 == b2
  {
    if a1 + a2 == b1 + b2 {
      assert a1 == (a1 + a2)[..|a1|] && b1 == (b1 + b2)[..|b1|];
      assert a2 == (a1 + a2)[|a1|..] && b2 == (b1 + b2)[|b1|..];
    }
  }

  /** One field more at the end: the longer strings compare as the shorter ones, or, when those
      are equal, as the new fields. */
  lemma LexAppendField(a: string, f: string, b: string, g: string)
    requires |a| == |b| && |f| == |g|
    ensures LexLess(a + f, b + g) <==> LexLess(a, b) || (a == b && LexLess(f, g))
    ensures a + f == b + g <==> a == b && f == g
  {
    LexConcat(a, f, b, g);
    ConcatEqual(a, f, b, g);
  }

  lemma {:induction false} LexIrreflexive(a: string)
    ensures !LexLess(a, a)
    decreases |a|
  {
    if a != [] {
      LexIrreflexive(a[1..]);
    }
  }

  /** rstrip leaves a prefix of the string with no trailing c, and removes only c's. */
  lemma {:induction false} RStripProperties(s: string, c: char)
    ensures var r := RStrip(s, c);
            r <= s && (r == [] || r[|r| - 1] != c) && (forall k :: |r| <= k < |s| ==> s[k] == c)
    decreases |s|
  {
    if s != [] && s[|s| - 1] == c {
      RStripProperties(s[..|s| - 1], c);
    }
  }

  /** The normalised prefix is empty exactly when the given prefix is None or empty; otherwise it
      ends in a single '/' (only "/" itself is nothing but the slash), and normalising it again
      changes nothing. */
  lemma NormalizePrefixProperties(p: Option<string>)
    ensures var q := NormalizePrefix(p);
            (q == "" <==> !Truthy(p))
            && (q != "" ==> q[|q| - 1] == '/' && (|q| == 1 || q[|q| - 2] != '/'))
            && NormalizePrefix(Some(q)) == q
  {
    var q := NormalizePrefix(p);
    if Truthy(p) {
      var r := RStrip(p.value, '/');
      RStripProperties(p.value, '/');
      assert q == r + "/";
      assert q[..|q| - 1] == r;
      assert RStrip(q, '/') == r by {
        if r != [] { assert RStrip(r, '/') == r; } else { assert RStrip(r, '/') == r; }
      }
    }
  }

  /** The three spellings of one prefix agree. */
  lemma PrefixExamples()
    ensures NormalizePrefix(Some("daily")) == "daily/"
    ensures NormalizePrefix(Some("daily/")) == "daily/"
    ensures NormalizePrefix(Some("daily///")) == "daily/"
    ensures NormalizePrefix(Some("")) == "" && NormalizePrefix(None) == ""
  {
    assert "daily///"[..7] == "daily//" && "daily//"[..6] == "daily/" && "daily/"[..5] == "daily";
  }

  /** The example of the utility's own documentation. */
  lemma DocumentedKey(t: Stamp)
    requires t == Stamp(2025, 2, 13, 12, 13, 55)
    ensures ExportKey(Some("daily/"), "accounts", TimestampNow(t)) == "daily/" + "accounts" + "." + "20250213T121355Z" + ".csv"
  {
    PrefixExamples();
    DocumentedStamp(t);
    var ts := TimestampNow(t);
    assert ExportKey(Some("daily/"), "accounts", ts) == "daily/" + "accounts" + "." + ts + ".csv";
  }

  /** The reading of the documented example, formatted. */
  lemma DocumentedStamp(t: Stamp)
    requires t == Stamp(2025, 2, 13, 12, 13, 55)
    ensures TimestampNow(t) == "20250213T121355Z"
  {
    PadYear();
    PadTwo(t.month, "02");
    PadTwo(t.day, "13");
    PadTwo(t.hour, "12");
    PadTwo(t.minute, "13");
    PadTwo(t.second, "55");
  }

  lemma PadYear()
    ensures Pad(2025, 4) == "2025"
  {
    assert Digits(2) == "2";
    assert Digits(20) == "20";
    assert Digits(202) == "202";
    assert Digits(2025) == "2025";
  }

  lemma PadTwo(n: nat, r: string)
    requires n < 100 && |r| == 2 && r == [DigitChar(n / 10), DigitChar(n % 10)]
    ensures Pad(n, 2) == r
  {
    if n < 10 {
      assert Digits(n) == [DigitChar(n)];
    } else {
      assert Digits(n / 10) == [DigitChar(n / 10)];
    }
  }

  /** For one prefix and table, distinct readings give distinct keys. */
  lemma DistinctStampsDistinctKeys(prefix: Option<string>, table: string, a: Stamp, b: Stamp)
    requires ValidStamp(a) && ValidStamp(b) && a != b
    ensures ExportKey(prefix, table, TimestampNow(a)) != ExportKey(prefix, table, TimestampNow(b))
  {
    TimestampShape(a);
    TimestampShape(b);
    TimestampInjective(a, b);
    var head := NormalizePrefix(prefix) + table + ".";
    var ka, kb := ExportKey(prefix, table, TimestampNow(a)), ExportKey(prefix, table, TimestampNow(b));
    assert ka[|head|..|head| + 16] == TimestampNow(a);
    assert kb[|head|..|head| + 16] == TimestampNow(b);
  }
}
