/**
 * The string primitives the backend leans on: Python's `str.strip()`,
 * `str.lower()`, the `\w+` tokeniser, `sep.join(parts)` and `s.split(sep)`,
 * the `<` order on `str`, `str(int)` and `int(str)`.
 *
 * `lower()` and `\w` are modelled over ASCII; `strip()` uses the whole set of
 * characters for which Python's `str.isspace()` holds.
 */
module Text {
  import opened Wrappers

  // ---------------------------------------------------------------------------
  // Character classes

  /** Python's `str.isspace()` on one character. */
  predicate IsSpace(c: char) {
    || c == ' '
    || '\t' <= c <= '\r'
    || '\U{1C}' <= c <= '\U{1F}'
    || c == '\U{85}' || c == '\U{A0}' || c == '\U{1680}'
    || '\U{2000}' <= c <= '\U{200A}'
    || c == '\U{2028}' || c == '\U{2029}' || c == '\U{202F}' || c == '\U{205F}' || c == '\U{3000}'
  }

  /** A character matched by the regular expression `\w` (ASCII letters, digits, underscore). */
  predicate IsWordChar(c: char) {
    'a' <= c <= 'z' || 'A' <= c <= 'Z' || '0' <= c <= '9' || c == '_'
  }

  function LowerChar(c: char): (d: char)
    ensures IsWordChar(d) <==> IsWordChar(c)
    ensures !('A' <= d <= 'Z')
  {
    if 'A' <= c <= 'Z' then (c as int + 32) as char else c
  }

  /** `s.lower()` */
  function Lower(s: string): (r: string)
    ensures |r| == |s|
    ensures forall i :: 0 <= i < |s| ==> r[i] == LowerChar(s[i])
  {
    seq(|s|, i requires 0 <= i < |s| => LowerChar(s[i]))
  }

  // ---------------------------------------------------------------------------
  // strip()

  function LStrip(s: string): (r: string)
    ensures |r| <= |s| && r == s[|s| - |r|..]
    ensures forall i :: 0 <= i < |s| - |r| ==> IsSpace(s[i])
    ensures r == [] || !IsSpace(r[0])
  {
    if s != [] && IsSpace(s[0]) then
      var r := LStrip(s[1..]);
      assert s[1..][|s| - 1 - |r|..] == s[|s| - |r|..];
      assert forall i :: 1 <= i < |s| - |r| ==> s[i] == s[1..][i - 1];
      r
    else s
  }

  function RStrip(s: string): (r: string)
    ensures |r| <= |s| && r == s[..|r|]
    ensures forall i :: |r| <= i < |s| ==> IsSpace(s[i])
    ensures r == [] || !IsSpace(r[|r| - 1])
  {
    if s != [] && IsSpace(s[|s| - 1]) then
      var r := RStrip(s[..|s| - 1]);
      assert s[..|s| - 1][..|r|] == s[..|r|];
      r
    else s
  }

  /** Neither end of `s` is whitespace. */
  predicate IsStripped(s: string) {
    s == [] || (!IsSpace(s[0]) && !IsSpace(s[|s| - 1]))
  }

  /** `s.strip()`: the text between the leading and the trailing whitespace (see `StripIsSlice`). */
  function Strip(s: string): (r: string)
    ensures IsStripped(r)
    ensures |r| <= |s|
  {
    RStrip(LStrip(s))
  }

  /** `strip()` yields the empty string exactly when `s` is all whitespace. */
  lemma StripEmpty(s: string)
    ensures Strip(s) == [] <==> forall i :: 0 <= i < |s| ==> IsSpace(s[i])
  {
    AllSpaceWhenStrippedEmpty(s);
  }

  /**
   * `strip()` keeps the slice `s[a..a + |r|]` and drops only whitespace
   * before and after it; with `IsStripped(r)` this fixes the result uniquely.
   */
  lemma StripIsSlice(s: string, r: string)
    requires r == Strip(s)
    ensures LeadingSpaces(s) + |r| <= |s|
    ensures r == s[LeadingSpaces(s)..LeadingSpaces(s) + |r|]
    ensures forall i :: LeadingSpaces(s) + |r| <= i < |s| ==> IsSpace(s[i])
  {
    var l := LStrip(s);
    assert r == RStrip(l) && LeadingSpaces(s) == |s| - |l|;
    StripSlice(s, l, r);
  }

  /** How many whitespace characters `strip()` removes from the front: all of them are whitespace. */
  function LeadingSpaces(s: string): (n: nat)
    ensures n <= |s|
    ensures forall i :: 0 <= i < n ==> IsSpace(s[i])
  {
    |s| - |LStrip(s)|
  }

  /** A prefix of a suffix of `s` is a slice of `s`; what the prefix leaves of the suffix is the tail of `s`. */
  lemma StripSlice(s: string, l: string, r: string)
    requires |l| <= |s| && l == s[|s| - |l|..]
    requires |r| <= |l| && r == l[..|r|]
    requires forall i :: |r| <= i < |l| ==> IsSpace(l[i])
    ensures var a := |s| - |l|;
      && a + |r| <= |s|
      && r == s[a..a + |r|]
      && (forall i :: a + |r| <= i < |s| ==> IsSpace(s[i]))
  {
    var a := |s| - |l|;
    forall i | a + |r| <= i < |s| ensures IsSpace(s[i]) {
      assert s[i] == l[i - a];
    }
  }

  lemma AllSpaceWhenStrippedEmpty(s: string)
    ensures RStrip(LStrip(s)) == [] ==> forall i :: 0 <= i < |s| ==> IsSpace(s[i])
  {
  }

  lemma StripOfStripped(s: string)
    requires IsStripped(s)
    ensures Strip(s) == s
  {
  }

  /** Stripping twice is stripping once. */
  lemma StripIdempotent(s: string)
    ensures Strip(Strip(s)) == Strip(s)
  {
    StripOfStripped(Strip(s));
  }

  // ---------------------------------------------------------------------------
  // The `\w+` tokeniser of `re.findall(r"\w+", s)`

  /** The maximal runs of word characters of `s`, left to right. */
  function WordTokens(s: string): (tokens: seq<string>)
    decreases |s|
  {
    if s == [] then []
    else if !IsWordChar(s[0]) then WordTokens(s[1..])
    else
      var n := WordRun(s);
      [s[..n]] + WordTokens(s[n..])
  }

  /** Length of the run of word characters at the start of `s`. */
  function WordRun(s: string): (n: nat)
    ensures n <= |s|
    ensures forall i :: 0 <= i < n ==> IsWordChar(s[i])
    ensures n == |s| || !IsWordChar(s[n])
  {
    if s == [] || !IsWordChar(s[0]) then 0 else 1 + WordRun(s[1..])
  }

  predicate IsWord(t: string) {
    t != [] && forall i :: 0 <= i < |t| ==> IsWordChar(t[i])
  }

  predicate HasWordChar(s: string) {
    exists i :: 0 <= i < |s| && IsWordChar(s[i])
  }

  /** Every token is a non-empty run of word characters, and there is none exactly when `s` has no word character. */
  lemma {:induction false} WordTokensShape(s: string)
    ensures forall k :: 0 <= k < |WordTokens(s)| ==> IsWord(WordTokens(s)[k])
    ensures WordTokens(s) == [] <==> !HasWordChar(s)
    decreases |s|
  {
    if s == [] {
    } else if !IsWordChar(s[0]) {
      WordTokensShape(s[1..]);
      assert HasWordChar(s) <==> HasWordChar(s[1..]) by {
        if HasWordChar(s) {
          var i :| 0 <= i < |s| && IsWordChar(s[i]);
          assert s[1..][i - 1] == s[i];
        }
        if HasWordChar(s[1..]) {
          var i :| 0 <= i < |s[1..]| && IsWordChar(s[1..][i]);
          assert s[i + 1] == s[1..][i];
        }
      }
    } else {
      var n := WordRun(s);
      WordTokensShape(s[n..]);
      assert WordRun(s) >= 1;
      assert WordTokens(s)[0] == s[..n];
      assert IsWord(s[..n]);
      forall k | 1 <= k < |WordTokens(s)| ensures IsWord(WordTokens(s)[k]) {
        assert WordTokens(s)[k] == WordTokens(s[n..])[k - 1];
      }
    }
  }

  /** Lower-casing keeps and drops exactly the same word characters. */
  lemma LowerKeepsWordChars(s: string)
    ensures HasWordChar(Lower(s)) <==> HasWordChar(s)
  {
    if HasWordChar(s) {
      var i :| 0 <= i < |s| && IsWordChar(s[i]);
      assert IsWordChar(Lower(s)[i]);
    }
    if HasWordChar(Lower(s)) {
      var i :| 0 <= i < |s| && IsWordChar(Lower(s)[i]);
      assert IsWordChar(s[i]);
    }
  }

  // ---------------------------------------------------------------------------
  // Substrings, join and split

  predicate IsPrefix(p: string, s: string) {
    |p| <= |s| && s[..|p|] == p
  }

  /** Python's `needle in hay` on strings. */
  predicate IsSubstring(needle: string, hay: string)
    decreases |hay|
  {
    IsPrefix(needle, hay) || (hay != [] && IsSubstring(needle, hay[1..]))
  }

  /** The substring test is a search for a position where `needle` starts. */
  lemma {:induction false} IsSubstringAt(needle: string, hay: string, i: nat)
    requires i + |needle| <= |hay| && hay[i..i + |needle|] == needle
    ensures IsSubstring(needle, hay)
    decreases i
  {
    if i > 0 {
      assert hay[1..][i - 1..i - 1 + |needle|] == hay[i..i + |needle|];
      IsSubstringAt(needle, hay[1..], i - 1);
    }
  }

  /** `sep.join(parts)` */
  function Join(sep: string, parts: seq<string>): (r: string)
    decreases |parts|
  {
    if |parts| == 0 then ""
    else if |parts| == 1 then parts[0]
    else parts[0] + sep + Join(sep, parts[1..])
  }

  /** `s.split(sep)`: the pieces between non-overlapping occurrences of `sep`, left to right. */
  function SplitOn(s: string, sep: string): (pieces: seq<string>)
    requires sep != []
    ensures |pieces| >= 1
    decreases |s|
  {
    if |s| < |sep| then [s]
    else if s[..|sep|] == sep then [""] + SplitOn(s[|sep|..], sep)
    else
      var rest := SplitOn(s[1..], sep);
      [[s[0]] + rest[0]] + rest[1..]
  }

  /** No piece contains the first character of the separator. */
  predicate AvoidsChar(parts: seq<string>, c: char) {
    forall i, j :: 0 <= i < |parts| && 0 <= j < |parts[i]| ==> parts[i][j] != c
  }

  /** Where no separator starts, `split` keeps the first character with the first piece. */
  lemma SplitOnStep(s: string, sep: string)
    requires sep != [] && s != []
    requires |s| < |sep| || s[..|sep|] != sep
    ensures SplitOn(s, sep) == [[s[0]] + SplitOn(s[1..], sep)[0]] + SplitOn(s[1..], sep)[1..]
  {
    if |s| < |sep| {
      assert [s[0]] + s[1..] == s;
    }
  }

  lemma {:induction false} SplitAfterPiece(p: string, rest: string, sep: string)
    requires sep != []
    requires forall j :: 0 <= j < |p| ==> p[j] != sep[0]
    ensures SplitOn(p + rest, sep) == [p + SplitOn(rest, sep)[0]] + SplitOn(rest, sep)[1..]
    decreases |p|
  {
    var x := SplitOn(rest, sep);
    if p == [] {
      assert p + rest == rest && p + x[0] == x[0];
      assert [x[0]] + x[1..] == x;
    } else {
      var s := p + rest;
      assert s[1..] == p[1..] + rest;
      assert |s| < |sep| || s[..|sep|] != sep by {
        if |s| >= |sep| {
          assert s[..|sep|][0] == p[0] != sep[0];
        }
      }
      SplitOnStep(s, sep);
      SplitAfterPiece(p[1..], rest, sep);
      assert [p[0]] + (p[1..] + x[0]) == p + x[0];
    }
  }

  /** `sep.join(parts).split(sep) == parts` when no part contains the separator's first character. */
  lemma {:induction false} SplitJoin(parts: seq<string>, sep: string)
    requires sep != [] && |parts| >= 1
    requires AvoidsChar(parts, sep[0])
    ensures SplitOn(Join(sep, parts), sep) == parts
    decreases |parts|
  {
    var p := parts[0];
    assert forall j :: 0 <= j < |p| ==> p[j] != sep[0] by {
      forall j | 0 <= j < |p| ensures p[j] != sep[0] {
        assert parts[0][j] != sep[0];
      }
    }
    if |parts| == 1 {
      SplitAfterPiece(p, "", sep);
      assert p + "" == p;
    } else {
      var tail := parts[1..];
      assert AvoidsChar(tail, sep[0]) by {
        forall i, j | 0 <= i < |tail| && 0 <= j < |tail[i]| ensures tail[i][j] != sep[0] {
          assert tail[i] == parts[i + 1];
        }
      }
      SplitJoin(tail, sep);
      var j := Join(sep, tail);
      assert Join(sep, parts) == p + (sep + j);
      SplitAfterPiece(p, sep + j, sep);
      assert (sep + j)[..|sep|] == sep;
      assert (sep + j)[|sep|..] == j;
      assert SplitOn(sep + j, sep) == [""] + tail;
      assert p + "" == p;
    }
  }

  // ---------------------------------------------------------------------------
  // Python's order on str: lexicographic by code point

  predicate StrLt(a: string, b: string)
    decreases |a|
  {
    if a == [] then b != []
    else if b == [] then false
    else if a[0] != b[0] then a[0] < b[0]
    else StrLt(a[1..], b[1..])
  }

  predicate StrLe(a: string, b: string) {
    a == b || StrLt(a, b)
  }

  lemma {:induction false} StrLtIrreflexive(a: string)
    ensures !StrLt(a, a)
    decreases |a|
  {
    if a != [] {
      StrLtIrreflexive(a[1..]);
    }
  }

  lemma {:induction false} StrLtTransitive(a: string, b: string, c: string)
    requires StrLt(a, b) && StrLt(b, c)
    ensures StrLt(a, c)
    decreases |a|
  {
    if a != [] && b != [] && c != [] && a[0] == b[0] && b[0] == c[0] {
      StrLtTransitive(a[1..], b[1..], c[1..]);
    }
  }

  lemma {:induction false} StrLtTotal(a: string, b: string)
    ensures a == b || StrLt(a, b) || StrLt(b, a)
    decreases |a|
  {
    if a != [] && b != [] && a[0] == b[0] {
      StrLtTotal(a[1..], b[1..]);
      if a[1..] == b[1..] {
        assert a == [a[0]] + a[1..] && b == [b[0]] + b[1..];
      }
    }
  }

  lemma StrLtAsymmetric(a: string, b: string)
    requires StrLt(a, b)
    ensures !StrLt(b, a)
  {
    if StrLt(b, a) {
      StrLtTransitive(a, b, a);
      StrLtIrreflexive(a);
    }
  }

  /** Strictly increasing, hence sorted and free of duplicates. */
  predicate StrictlyIncreasing(r: seq<string>) {
    forall i, j :: 0 <= i < j < |r| ==> StrLt(r[i], r[j])
  }

  /** The least element of a non-empty set of strings. */
  method MinString(s: set<string>) returns (m: string)
    requires s != {}
    ensures m in s
    ensures forall x :: x in s ==> StrLe(m, x)
  {
    m :| m in s;
    var todo := s - {m};
    while todo != {}
      invariant m in s && todo <= s
      invariant forall x :: x in s && x !in todo ==> StrLe(m, x)
      decreases todo
    {
      var y :| y in todo;
      if StrLt(y, m) {
        forall x | x in s && x !in todo ensures StrLe(y, x) {
          if x != m { StrLtTransitive(y, m, x); }
        }
        m := y;
      } else {
        StrLtTotal(m, y);
      }
      todo := todo - {y};
    }
  }

  /** Python's `sorted(s)` for a set of strings. */
  method SortedStrings(s: set<string>) returns (r: seq<string>)
    ensures StrictlyIncreasing(r)
    ensures forall x :: x in r <==> x in s
    ensures |r| == |s|
  {
    r := [];
    var rest := s;
    while rest != {}
      invariant rest <= s
      invariant forall x :: x in s <==> x in r || x in rest
      invariant forall x :: x in r ==> x !in rest
      invariant |r| + |rest| == |s|
      invariant StrictlyIncreasing(r)
      invariant forall i, x :: 0 <= i < |r| && x in rest ==> StrLt(r[i], x)
      decreases rest
    {
      var m := MinString(rest);
      forall x | x in rest - {m} ensures StrLt(m, x) {
        StrLtTotal(m, x);
      }
      r := r + [m];
      rest := rest - {m};
    }
  }

  // ---------------------------------------------------------------------------
  // str(int) and int(str)

  predicate AllDigits(s: string) {
    forall i :: 0 <= i < |s| ==> '0' <= s[i] <= '9'
  }

  function DigitChar(d: nat): (c: char)
    requires d < 10
    ensures '0' <= c <= '9'
  {
    ('0' as int + d) as char
  }

  /** The number a string of decimal digits denotes. */
  function DecimalValue(s: string): nat
    requires AllDigits(s)
    decreases |s|
  {
    if s == [] then 0 else 10 * DecimalValue(s[..|s| - 1]) + (s[|s| - 1] as int - '0' as int)
  }

  /** `str(n)` for a non-negative integer. */
  function NatToDecimal(n: nat): (r: string)
    ensures r != [] && AllDigits(r)
  {
    if n < 10 then [DigitChar(n)] else NatToDecimal(n / 10) + [DigitChar(n % 10)]
  }

  /** `str(i)` for a Python `int`. */
  function IntToDecimal(i: int): (r: string)
    ensures r != []
  {
    if i < 0 then "-" + NatToDecimal(-i) else NatToDecimal(i)
  }

  lemma {:induction false} NatToDecimalValue(n: nat)
    ensures DecimalValue(NatToDecimal(n)) == n
  {
    if n >= 10 {
      NatToDecimalValue(n / 10);
      var r := NatToDecimal(n);
      assert r[..|r| - 1] == NatToDecimal(n / 10);
    }
  }

  /**
   * The numeral of `int()`: decimal digits, in groups that single
   * underscores may separate (`1_000`, but not `_1`, `1_` or `1__0`).
   */
  predicate DigitGroups(t: string) {
    && t != []
    && NumeralChars(t)
    && t[0] != '_' && t[|t| - 1] != '_'
    && (forall i :: 0 <= i < |t| - 1 && t[i] == '_' ==> t[i + 1] != '_')
  }

  /** Only digits and underscores. */
  predicate NumeralChars(t: string) {
    forall i :: 0 <= i < |t| ==> '0' <= t[i] <= '9' || t[i] == '_'
  }

  /** The digits of a numeral with its underscores dropped. */
  function Ungrouped(t: string): (d: string)
    requires NumeralChars(t)
    ensures AllDigits(d)
    decreases |t|
  {
    if t == [] then [] else (if t[0] == '_' then [] else [t[0]]) + Ungrouped(t[1..])
  }

  /** `int(s)` for a string: optional surrounding whitespace, an optional sign, then a numeral. */
  function ParseInt(s: string): (r: Option<int>)
  {
    ParseSigned(Strip(s))
  }

  /** An optional sign, then a numeral. */
  function ParseSigned(t: string): (r: Option<int>)
  {
    if t != [] && (t[0] == '-' || t[0] == '+') then
      if DigitGroups(t[1..]) then
        var v: int := DecimalValue(Ungrouped(t[1..]));
        Some(if t[0] == '-' then -v else v)
      else None
    else if DigitGroups(t) then Some(DecimalValue(Ungrouped(t)))
    else None
  }

  /** A plain digit string is a numeral of one group. */
  lemma DigitsGrouped(d: string)
    requires d != [] && AllDigits(d)
    ensures DigitGroups(d) && Ungrouped(d) == d
  {
    DigitsUngrouped(d);
  }

  /** A digit string has no underscore to drop. */
  lemma {:induction false} DigitsUngrouped(d: string)
    requires AllDigits(d)
    ensures NumeralChars(d) && Ungrouped(d) == d
    decreases |d|
  {
    if d != [] {
      DigitsUngrouped(d[1..]);
    }
  }


  /** Dropping underscores distributes over concatenation. */
  lemma {:induction false} UngroupedAppend(x: string, y: string)
    requires NumeralChars(x) && NumeralChars(y)
    ensures Ungrouped(x + y) == Ungrouped(x) + Ungrouped(y)
    decreases |x|
  {
    if x != [] {
      var head := if x[0] == '_' then [] else [x[0]];
      var tail := x[1..];
      assert NumeralChars(tail);
      NumeralCharsAppend(x, y);
      NumeralCharsAppend(tail, y);
      assert Ungrouped(x + y) == head + Ungrouped(tail + y) by {
        assert (x + y)[0] == x[0];
        assert (x + y)[1..] == tail + y;
      }
      UngroupedAppend(tail, y);
      var ut, uy := Ungrouped(tail), Ungrouped(y);
      assert head + (ut + uy) == (head + ut) + uy;
      assert Ungrouped(x) == head + ut;
    } else {
      assert x + y == y;
    }
  }

  /** A digit is never whitespace, so a digit string is already stripped. */
  lemma DigitsStripped(d: string)
    requires d != [] && AllDigits(d)
    ensures IsStripped(d) && IsStripped("-" + d)
  {
    assert '0' <= d[0] <= '9' && '0' <= d[|d| - 1] <= '9';
    assert ("-" + d)[|d|] == d[|d| - 1];
  }

  /** `int()` of a digit string is its decimal value. */
  lemma ParseDigits(d: string)
    requires d != [] && AllDigits(d)
    ensures ParseInt(d) == Some(DecimalValue(d))
  {
    DigitsStripped(d);
    StripOfStripped(d);
    PositiveDigits(d);
  }

  lemma PositiveDigits(d: string)
    requires d != [] && AllDigits(d)
    ensures ParseSigned(d) == Some(DecimalValue(d))
  {
    assert '0' <= d[0] <= '9';
    DigitsGrouped(d);
  }

  /** `int()` reads two digit groups joined by one underscore as the digits run together: `int("1_000") == 1000`. */
  lemma ParseUnderscore(a: string, b: string)
    requires a != [] && AllDigits(a) && b != [] && AllDigits(b)
    ensures ParseInt(a + "_" + b) == Some(DecimalValue(a + b))
  {
    var t := a + "_" + b;
    TwoGroups(a, b);
    assert t[0] == a[0] && t[|t| - 1] == b[|b| - 1];
    assert IsStripped(t);
    StripOfStripped(t);
    assert ParseSigned(t) == Some(DecimalValue(Ungrouped(t)));
  }

  /** Two digit groups joined by one underscore form a numeral whose digits are those of both groups. */
  lemma TwoGroups(a: string, b: string)
    requires a != [] && AllDigits(a) && b != [] && AllDigits(b)
    ensures DigitGroups(a + "_" + b) && Ungrouped(a + "_" + b) == a + b
  {
    TwoGroupsShape(a, b);
    TwoGroupsDigits(a, b);
  }

  lemma TwoGroupsShape(a: string, b: string)
    requires a != [] && AllDigits(a) && b != [] && AllDigits(b)
    ensures DigitGroups(a + "_" + b)
  {
    var t := a + "_" + b;
    forall i | 0 <= i < |t| ensures (i < |a| ==> t[i] == a[i]) && (i == |a| ==> t[i] == '_') && (i > |a| ==> t[i] == b[i - |a| - 1]) {
    }
  }

  lemma TwoGroupsDigits(a: string, b: string)
    requires a != [] && AllDigits(a) && b != [] && AllDigits(b)
    ensures NumeralChars(a + "_" + b) && Ungrouped(a + "_" + b) == a + b
  {
    var ub := "_" + b;
    assert a + "_" + b == a + ub;
    assert NumeralChars(ub) && Ungrouped(ub) == b by {
      UnderscoreThen(b);
    }
    assert NumeralChars(a) && Ungrouped(a) == a by {
      DigitsUngrouped(a);
    }
    NumeralCharsAppend(a, ub);
    UngroupedAppend(a, ub);
  }

  /** A leading underscore is dropped. */
  lemma UnderscoreThen(b: string)
    requires b != [] && AllDigits(b)
    ensures NumeralChars("_" + b) && Ungrouped("_" + b) == b
  {
    var u := "_";
    DigitsUngrouped(b);
    assert NumeralChars(u) && Ungrouped(u) == [] by {
      assert u[1..] == [];
    }
    NumeralCharsAppend(u, b);
    UngroupedAppend(u, b);
    assert [] + b == b;
  }

  lemma NumeralCharsAppend(x: string, y: string)
    requires NumeralChars(x) && NumeralChars(y)
    ensures NumeralChars(x + y)
  {
    forall i | 0 <= i < |x + y| ensures '0' <= (x + y)[i] <= '9' || (x + y)[i] == '_' {
      if i >= |x| {
        assert (x + y)[i] == y[i - |x|];
      }
    }
  }



  /** `int()` of a minus sign followed by a digit string is the negated decimal value. */
  lemma ParseNegativeDigits(d: string)
    requires d != [] && AllDigits(d)
    ensures ParseInt("-" + d) == Some(-(DecimalValue(d) as int))
  {
    DigitsStripped(d);
    StripOfStripped("-" + d);
    NegativeDigits(d);
  }

  lemma NegativeDigits(d: string)
    requires d != [] && AllDigits(d)
    ensures ParseSigned("-" + d) == Some(-(DecimalValue(d) as int))
  {
    var t := "-" + d;
    assert t[0] == '-';
    assert t[1..] == d;
    DigitsGrouped(d);
  }

  /** `int(str(i)) == i` */
  lemma IntDecimalRoundTrip(i: int)
    ensures ParseInt(IntToDecimal(i)) == Some(i)
  {
    var n: nat := if i < 0 then -i else i;
    var d := NatToDecimal(n);
    NatToDecimalValue(n);
    if i < 0 {
      ParseNegativeDigits(d);
      assert IntToDecimal(i) == "-" + d;
    } else {
      ParseDigits(d);
      assert IntToDecimal(i) == d;
    }
  }
}
