/** Text and number primitives of the .NET runtime that the audit core relies on:
    substring search, String.Replace, the regular-expression class \s,
    Int32 parsing and formatting, and two-digit/four-digit padding. */
module Strings {

  datatype Option<T> = None | Some(value: T)

  const Int32Min: int := -2147483648
  const Int32Max: int := 2147483647

  /** t occurs in s starting at index i. */
  predicate IsAt(s: string, i: int, t: string) {
    0 <= i && i + |t| <= |s| && forall k :: 0 <= k < |t| ==> s[i + k] == t[k]
  }

  /** The characters of an occurrence, indexed from the start of s. */
  lemma IsAtIndex(s: string, i: int, t: string)
    requires IsAt(s, i, t)
    ensures forall j :: i <= j < i + |t| ==> s[j] == t[j - i]
  {
    forall j | i <= j < i + |t| ensures s[j] == t[j - i] {
      assert s[i + (j - i)] == t[j - i];
    }
  }

  /** An occurrence is the slice of s at its position. */
  lemma IsAtSlice(s: string, i: int, t: string)
    requires IsAt(s, i, t)
    ensures s[i..i + |t|] == t
  {
    IsAtIndex(s, i, t);
  }

  /** Inside an occurrence of u at i, t occurs in s exactly where it occurs in u. */
  lemma IsAtInside(s: string, i: nat, u: string, j: nat, t: string)
    requires IsAt(s, i, u) && i <= j && j + |t| <= i + |u|
    ensures IsAt(s, j, t) <==> IsAt(u, j - i, t)
  {
    IsAtIndex(s, i, u);
  }

  /** A two-character occurrence, spelled out. */
  lemma IsAtPair(s: string, i: int, a: char, b: char)
    ensures IsAt(s, i, [a, b]) <==> 0 <= i && i + 2 <= |s| && s[i] == a && s[i + 1] == b
  {
    if 0 <= i && i + 2 <= |s| && s[i] == a && s[i + 1] == b {
      assert forall k :: 0 <= k < 2 ==> s[i + k] == [a, b][k];
    }
    if IsAt(s, i, [a, b]) {
      assert s[i + 0] == [a, b][0] && s[i + 1] == [a, b][1];
    }
  }

  /** String.Contains: t occurs somewhere in s. */
  predicate Contains(s: string, t: string) {
    exists i :: 0 <= i <= |s| && IsAt(s, i, t)
  }

  /** The characters .NET's regular-expression class \s matches:
      \t \n \v \f \r, U+0085 and the Unicode separators (category Z). */
  predicate IsRegexSpace(c: char) {
    c == ' ' || c == '\t' || c == '\n' || c == '\U{000B}' || c == '\U{000C}' || c == '\r'
    || c == '\U{0085}' || c == '\U{00A0}' || c == '\U{1680}'
    || ('\U{2000}' <= c <= '\U{200A}')
    || c == '\U{2028}' || c == '\U{2029}' || c == '\U{202F}' || c == '\U{205F}' || c == '\U{3000}'
  }

  /** The white space Int32.Parse skips at either end (U+0009..U+000D and the space). */
  predicate IsNumberSpace(c: char) {
    c == ' ' || ('\t' <= c <= '\r')
  }

  predicate IsDigit(c: char) {
    '0' <= c <= '9'
  }

  predicate AllDigits(s: string) {
    forall i :: 0 <= i < |s| ==> IsDigit(s[i])
  }

  /** Concatenation regroups freely. */
  lemma AppendAssoc<T>(a: seq<T>, b: seq<T>, c: seq<T>)
    ensures a + b + c == a + (b + c)
  {
  }

  function Min(a: int, b: int): int {
    if a <= b then a else b
  }

  // ---------------------------------------------------------------------
  // Searching

  /** First index at or after `from` where t occurs (String.IndexOf). */
  function IndexOfFrom(s: string, t: string, from: nat): (r: Option<nat>)
    requires |t| > 0
    ensures r.Some? ==> from <= r.value && r.value + |t| <= |s|
    decreases |s| - from
  {
    if |s| < from + |t| then None
    else if IsAt(s, from, t) then Some(from)
    else IndexOfFrom(s, t, from + 1)
  }

  /** IndexOfFrom finds the first occurrence at or after `from`, and finds none
      only when there is none. */
  lemma {:induction false} IndexOfFromSpec(s: string, t: string, from: nat)
    requires |t| > 0
    ensures var r := IndexOfFrom(s, t, from);
            && (r.Some? ==> IsAt(s, r.value, t))
            && (r.Some? ==> forall j :: from <= j < r.value ==> !IsAt(s, j, t))
            && (r.None? ==> forall j :: from <= j ==> !IsAt(s, j, t))
    decreases |s| - from
  {
    if |s| >= from + |t| && !IsAt(s, from, t) {
      IndexOfFromSpec(s, t, from + 1);
    }
  }

  /** An occurrence at c with none in [from, c) is what IndexOfFrom finds. */
  lemma {:induction false} IndexOfFromIs(s: string, t: string, from: nat, c: nat)
    requires |t| > 0 && from <= c && IsAt(s, c, t)
    requires forall j :: from <= j < c ==> !IsAt(s, j, t)
    ensures IndexOfFrom(s, t, from) == Some(c)
    decreases c - from
  {
    if from < c {
      IndexOfFromIs(s, t, from + 1, c);
    }
  }

  /** Last index j with from <= j < below where t occurs. */
  function LastIndexBelow(s: string, t: string, from: nat, below: nat): (r: Option<nat>)
    ensures r.Some? ==> from <= r.value < below
    decreases below
  {
    if below <= from then None
    else if IsAt(s, below - 1, t) then Some(below - 1)
    else LastIndexBelow(s, t, from, below - 1)
  }

  /** LastIndexBelow finds the last occurrence below `below`, and finds none only
      when there is none in [from, below). */
  lemma {:induction false} LastIndexBelowSpec(s: string, t: string, from: nat, below: nat)
    ensures var r := LastIndexBelow(s, t, from, below);
            && (r.Some? ==> IsAt(s, r.value, t))
            && (r.Some? ==> forall j :: r.value < j < below ==> !IsAt(s, j, t))
            && (r.None? ==> forall j :: from <= j < below ==> !IsAt(s, j, t))
    decreases below
  {
    if from < below && !IsAt(s, below - 1, t) {
      LastIndexBelowSpec(s, t, from, below - 1);
    }
  }

  /** Last index at or after `from` where t occurs (String.LastIndexOf). */
  function LastIndexOf(s: string, t: string, from: nat): (r: Option<nat>)
    requires |t| > 0
    ensures r.Some? ==> from <= r.value && r.value + |t| <= |s|
  {
    LastIndexBelowSpec(s, t, from, |s|);
    LastIndexBelow(s, t, from, |s|)
  }

  /** LastIndexOf finds the last occurrence at or after `from`, and finds none only
      when there is none. */
  lemma LastIndexOfSpec(s: string, t: string, from: nat)
    requires |t| > 0
    ensures var r := LastIndexOf(s, t, from);
            && (r.Some? ==> IsAt(s, r.value, t))
            && (r.Some? ==> forall j :: r.value < j ==> !IsAt(s, j, t))
            && (r.None? ==> forall j :: from <= j ==> !IsAt(s, j, t))
  {
    LastIndexBelowSpec(s, t, from, |s|);
  }

  // ---------------------------------------------------------------------
  // Maximal runs, the greedy quantifiers of a regular expression

  /** End of the longest run of ASCII digits starting at i ([0-9]*). */
  function DigitsEnd(s: string, i: nat): (r: nat)
    requires i <= |s|
    ensures i <= r <= |s|
    decreases |s| - i
  {
    if i == |s| || !IsDigit(s[i]) then i else DigitsEnd(s, i + 1)
  }

  /** End of the longest run of \s characters starting at i (\s*). */
  function SpacesEnd(s: string, i: nat): (r: nat)
    requires i <= |s|
    ensures i <= r <= |s|
    decreases |s| - i
  {
    if i == |s| || !IsRegexSpace(s[i]) then i else SpacesEnd(s, i + 1)
  }

  /** End of the longest run of characters other than the space starting at i ([^ ]*). */
  function NonBlankEnd(s: string, i: nat): (r: nat)
    requires i <= |s|
    ensures i <= r <= |s|
    decreases |s| - i
  {
    if i == |s| || s[i] == ' ' then i else NonBlankEnd(s, i + 1)
  }

  /** DigitsEnd ends a run of digits that cannot be extended, and is the only
      position that does. */
  lemma {:induction false} DigitsEndRun(s: string, i: nat)
    requires i <= |s|
    ensures forall j :: i <= j < DigitsEnd(s, i) ==> IsDigit(s[j])
    ensures DigitsEnd(s, i) == |s| || !IsDigit(s[DigitsEnd(s, i)])
    decreases |s| - i
  {
    if i < |s| && IsDigit(s[i]) {
      DigitsEndRun(s, i + 1);
    }
  }

  lemma {:induction false} SpacesEndRun(s: string, i: nat)
    requires i <= |s|
    ensures forall j :: i <= j < SpacesEnd(s, i) ==> IsRegexSpace(s[j])
    ensures SpacesEnd(s, i) == |s| || !IsRegexSpace(s[SpacesEnd(s, i)])
    decreases |s| - i
  {
    if i < |s| && IsRegexSpace(s[i]) {
      SpacesEndRun(s, i + 1);
    }
  }

  lemma {:induction false} NonBlankEndRun(s: string, i: nat)
    requires i <= |s|
    ensures forall j :: i <= j < NonBlankEnd(s, i) ==> s[j] != ' '
    ensures NonBlankEnd(s, i) == |s| || s[NonBlankEnd(s, i)] == ' '
    decreases |s| - i
  {
    if i < |s| && s[i] != ' ' {
      NonBlankEndRun(s, i + 1);
    }
  }

  /** A run of white space from i reaches no further than SpacesEnd. */
  lemma SpacesEndCovers(s: string, i: nat, e: nat)
    requires i <= e <= |s|
    requires forall j :: i <= j < e ==> IsRegexSpace(s[j])
    ensures e <= SpacesEnd(s, i)
  {
    SpacesEndRun(s, i);
  }

  /** A run of characters other than the space from i reaches no further than
      NonBlankEnd. */
  lemma NonBlankEndCovers(s: string, i: nat, e: nat)
    requires i <= e <= |s|
    requires forall j :: i <= j < e ==> s[j] != ' '
    ensures e <= NonBlankEnd(s, i)
  {
    NonBlankEndRun(s, i);
  }

  /** The maximal runs are determined by where the run stops. */
  lemma {:induction false} DigitsEndIs(s: string, i: nat, e: nat)
    requires i <= e <= |s|
    requires forall j :: i <= j < e ==> IsDigit(s[j])
    requires e == |s| || !IsDigit(s[e])
    ensures DigitsEnd(s, i) == e
    decreases e - i
  {
    if i < e {
      DigitsEndIs(s, i + 1, e);
    }
  }

  lemma {:induction false} SpacesEndIs(s: string, i: nat, e: nat)
    requires i <= e <= |s|
    requires forall j :: i <= j < e ==> IsRegexSpace(s[j])
    requires e == |s| || !IsRegexSpace(s[e])
    ensures SpacesEnd(s, i) == e
    decreases e - i
  {
    if i < e {
      SpacesEndIs(s, i + 1, e);
    }
  }

  lemma {:induction false} NonBlankEndIs(s: string, i: nat, e: nat)
    requires i <= e <= |s|
    requires forall j :: i <= j < e ==> s[j] != ' '
    requires e == |s| || s[e] == ' '
    ensures NonBlankEnd(s, i) == e
    decreases e - i
  {
    if i < e {
      NonBlankEndIs(s, i + 1, e);
    }
  }

  // ---------------------------------------------------------------------
  // String.Replace and the line-ending strip

  /** String.Replace(pat, replacement): every non-overlapping occurrence of pat, scanning
      left to right, is replaced by `replacement`. */
  function ReplaceAll(s: string, pat: string, replacement: string): (r: string)
    requires |pat| > 0
    ensures replacement == [] ==> |r| <= |s|
    ensures |s| < |pat| ==> r == s
    decreases |s|
  {
    if |s| < |pat| then s
    else if s[..|pat|] == pat then replacement + ReplaceAll(s[|pat|..], pat, replacement)
    else [s[0]] + ReplaceAll(s[1..], pat, replacement)
  }

  /** The path clean-up of the handle.exe resolver:
      .Replace("\r\n", "").Replace("\r", "").Replace("\n", ""). */
  function StripLineEndings(s: string): (r: string)
    ensures |r| <= |s|
  {
    ReplaceAll(ReplaceAll(ReplaceAll(s, "\r\n", ""), "\r", ""), "\n", "")
  }

  /** Reference definition: s with every '\r' and '\n' left out. */
  function DropLineBreaks(s: string): (r: string)
    ensures forall i :: 0 <= i < |r| ==> r[i] != '\r' && r[i] != '\n'
  {
    if s == [] then []
    else if s[0] == '\r' || s[0] == '\n' then DropLineBreaks(s[1..])
    else [s[0]] + DropLineBreaks(s[1..])
  }

  /** s with every c left out. */
  function DropChar(s: string, c: char): string {
    if s == [] then []
    else if s[0] == c then DropChar(s[1..], c)
    else [s[0]] + DropChar(s[1..], c)
  }

  lemma {:induction false} ReplaceCharIsDrop(s: string, c: char)
    ensures ReplaceAll(s, [c], "") == DropChar(s, c)
    decreases |s|
  {
    if |s| >= 1 {
      ReplaceCharIsDrop(s[1..], c);
      assert s[..1] == [s[0]];
      assert s[1..] == s[|[c]|..];
    }
  }

  lemma {:induction false} DropCrThenLf(s: string)
    ensures DropChar(DropChar(s, '\r'), '\n') == DropLineBreaks(s)
    decreases |s|
  {
    if s != [] {
      DropCrThenLf(s[1..]);
      if s[0] != '\r' {
        assert DropChar(s, '\r') == [s[0]] + DropChar(s[1..], '\r');
        assert ([s[0]] + DropChar(s[1..], '\r'))[1..] == DropChar(s[1..], '\r');
      }
    }
  }

  lemma {:induction false} DropBreaksAfterCrLf(s: string)
    ensures DropLineBreaks(ReplaceAll(s, "\r\n", "")) == DropLineBreaks(s)
    decreases |s|
  {
    if |s| < 2 {
      if |s| == 1 {
        assert ReplaceAll(s, "\r\n", "") == s;
      }
    } else if s[..2] == "\r\n" {
      DropBreaksAfterCrLf(s[2..]);
      assert s[0] == '\r' && s[1] == '\n';
      assert ReplaceAll(s, "\r\n", "") == ReplaceAll(s[2..], "\r\n", "");
      assert s[1..][1..] == s[2..];
      assert DropLineBreaks(s) == DropLineBreaks(s[1..]) == DropLineBreaks(s[2..]);
    } else {
      DropBreaksAfterCrLf(s[1..]);
      var rest := ReplaceAll(s[1..], "\r\n", "");
      assert ReplaceAll(s, "\r\n", "") == [s[0]] + rest;
      assert ([s[0]] + rest)[1..] == rest;
    }
  }

  /** The three Replace calls remove exactly the carriage returns and line feeds. */
  lemma StripLineEndingsDropsBreaks(s: string)
    ensures StripLineEndings(s) == DropLineBreaks(s)
  {
    var a := ReplaceAll(s, "\r\n", "");
    ReplaceCharIsDrop(a, '\r');
    ReplaceCharIsDrop(DropChar(a, '\r'), '\n');
    DropCrThenLf(a);
    DropBreaksAfterCrLf(s);
    assert "\r" == ['\r'] && "\n" == ['\n'];
  }

  lemma {:induction false} DropLineBreaksIdentity(s: string)
    requires forall i :: 0 <= i < |s| ==> s[i] != '\r' && s[i] != '\n'
    ensures DropLineBreaks(s) == s
    decreases |s|
  {
    if s != [] {
      DropLineBreaksIdentity(s[1..]);
    }
  }

  /** Stripping leaves a path without line breaks unchanged, and stripping twice
      is the same as stripping once. */
  lemma StripLineEndingsFixes(s: string)
    ensures forall i :: 0 <= i < |StripLineEndings(s)| ==>
              StripLineEndings(s)[i] != '\r' && StripLineEndings(s)[i] != '\n'
    ensures (forall i :: 0 <= i < |s| ==> s[i] != '\r' && s[i] != '\n') ==> StripLineEndings(s) == s
    ensures StripLineEndings(StripLineEndings(s)) == StripLineEndings(s)
  {
    StripLineEndingsDropsBreaks(s);
    StripLineEndingsDropsBreaks(DropLineBreaks(s));
    DropLineBreaksIdentity(DropLineBreaks(s));
    if forall i :: 0 <= i < |s| ==> s[i] != '\r' && s[i] != '\n' {
      DropLineBreaksIdentity(s);
    }
  }

  // ---------------------------------------------------------------------
  // Int32 formatting and parsing

  function DigitChar(d: nat): (c: char)
    requires d < 10
    ensures IsDigit(c)
  {
    ('0' as int + d) as char
  }

  function DigitValue(c: char): (d: nat)
    requires IsDigit(c)
    ensures d < 10
  {
    c as int - '0' as int
  }

  /** The decimal value of a string of ASCII digits (the empty string is 0). */
  function DigitsValue(s: string): nat
    requires AllDigits(s)
  {
    if s == [] then 0 else DigitsValue(s[..|s| - 1]) * 10 + DigitValue(s[|s| - 1])
  }

  /** Decimal rendering of a natural number, without leading zeros. */
  function NatToString(n: nat): (r: string)
    ensures |r| > 0 && AllDigits(r)
    ensures |r| > 1 ==> r[0] != '0'
  {
    if n < 10 then [DigitChar(n)] else NatToString(n / 10) + [DigitChar(n % 10)]
  }

  /** Int32.ToString() in the invariant culture. */
  function IntToString(n: int): (r: string)
    ensures |r| > 0 && (r[0] == '-' <==> n < 0)
    ensures AllDigits(if n < 0 then r[1..] else r)
  {
    if n < 0 then "-" + NatToString(-n) else NatToString(n)
  }

  function TrimStartNumberSpace(s: string): string {
    if s != [] && IsNumberSpace(s[0]) then TrimStartNumberSpace(s[1..]) else s
  }

  function TrimEndNumberSpace(s: string): string {
    if s != [] && IsNumberSpace(s[|s| - 1]) then TrimEndNumberSpace(s[..|s| - 1]) else s
  }

  /** The digits Int32.Parse reads under NumberStyles.Integer: white space, an
      optional sign, then the digits, then white space. */
  function NumberBody(s: string): string {
    var t := TrimEndNumberSpace(TrimStartNumberSpace(s));
    if t != [] && (t[0] == '-' || t[0] == '+') then t[1..] else t
  }

  predicate IsNegative(s: string) {
    var t := TrimEndNumberSpace(TrimStartNumberSpace(s));
    t != [] && t[0] == '-'
  }

  /** Int32.TryParse(s, out v) (NumberStyles.Integer): Some(v) on success, None where
      Int32.Parse would throw. */
  function ParseInt32(s: string): (r: Option<int>)
    ensures r.Some? ==> Int32Min <= r.value <= Int32Max
  {
    var body := NumberBody(s);
    if body == [] || !AllDigits(body) then None
    else
      var magnitude: int := DigitsValue(body);
      var v := if IsNegative(s) then -magnitude else magnitude;
      if Int32Min <= v <= Int32Max then Some(v) else None
  }

  lemma {:induction false} DigitsValueAppend(s: string, c: char)
    requires AllDigits(s) && IsDigit(c)
    ensures AllDigits(s + [c]) && DigitsValue(s + [c]) == DigitsValue(s) * 10 + DigitValue(c)
  {
    assert (s + [c])[..|s + [c]| - 1] == s;
  }

  lemma {:induction false} NatToStringValue(n: nat)
    ensures DigitsValue(NatToString(n)) == n
  {
    if n < 10 {
      assert [DigitChar(n)][..0] == [];
    } else {
      NatToStringValue(n / 10);
      DigitsValueAppend(NatToString(n / 10), DigitChar(n % 10));
    }
  }

  lemma TrimIdentity(s: string)
    requires s != [] && !IsNumberSpace(s[0]) && !IsNumberSpace(s[|s| - 1])
    ensures TrimEndNumberSpace(TrimStartNumberSpace(s)) == s
  {
  }

  /** Parsing what Int32.ToString renders gives the number back. */
  lemma IntToStringRoundTrip(n: int)
    requires Int32Min <= n <= Int32Max
    ensures ParseInt32(IntToString(n)) == Some(n)
  {
    var m: nat := if n < 0 then -n else n;
    var digits := NatToString(m);
    NatToStringValue(m);
    var s := IntToString(n);
    if n < 0 {
      assert s == "-" + digits;
      assert s[|s| - 1] == digits[|digits| - 1];
      TrimIdentity(s);
      assert s[1..] == digits;
      assert NumberBody(s) == digits;
      assert IsNegative(s);
    } else {
      assert s == digits;
      TrimIdentity(s);
      assert NumberBody(s) == digits;
      assert !IsNegative(s);
    }
  }

  /** On a string of ASCII digits, as the handle.exe pattern captures, Int32.Parse
      fails exactly when the string is empty or its value exceeds Int32.MaxValue. */
  lemma ParseDigitsOnly(s: string)
    requires AllDigits(s)
    ensures ParseInt32(s) == if s == [] || DigitsValue(s) > Int32Max then None else Some(DigitsValue(s))
  {
    if s != [] {
      TrimIdentity(s);
    }
  }

  // ---------------------------------------------------------------------
  // Fixed-width digit fields (custom DateTime format "dd", "MM", "yyyy")

  function TwoDigits(n: nat): (r: string)
    requires n < 100
    ensures |r| == 2 && AllDigits(r)
  {
    [DigitChar(n / 10), DigitChar(n % 10)]
  }

  function FourDigits(n: nat): (r: string)
    requires n < 10000
    ensures |r| == 4 && AllDigits(r)
  {
    TwoDigits(n / 100) + TwoDigits(n % 100)
  }

  lemma TwoDigitsValue(n: nat)
    requires n < 100
    ensures DigitsValue(TwoDigits(n)) == n
    ensures DigitsValue(TwoDigits(n)) == DigitValue(TwoDigits(n)[0]) * 10 + DigitValue(TwoDigits(n)[1])
  {
    var t := TwoDigits(n);
    assert t[..1] == [t[0]];
    assert [t[0]][..0] == [];
    assert DigitValue(t[0]) == n / 10 && DigitValue(t[1]) == n % 10;
    assert DigitsValue(t[..1]) == DigitsValue([t[0]][..0]) * 10 + DigitValue(t[0]) == n / 10;
    assert DigitsValue(t) == DigitsValue(t[..1]) * 10 + DigitValue(t[1]);
  }

  /** The fixed-width fields read back as the numbers they were made from. */
  lemma FixedDigitsValue(n: nat)
    requires n < 10000
    ensures n < 100 ==> DigitsValue(TwoDigits(n)) == n
    ensures DigitsValue(FourDigits(n)) == n
  {
    var hi, lo := TwoDigits(n / 100), TwoDigits(n % 100);
    TwoDigitsValue(n / 100);
    TwoDigitsValue(n % 100);
    if n < 100 {
      TwoDigitsValue(n);
    }
    var f := FourDigits(n);
    assert f[..3] == hi + [lo[0]];
    assert f[..2] == hi;
    DigitsValueAppend(hi, lo[0]);
    DigitsValueAppend(hi + [lo[0]], lo[1]);
    assert f == hi + [lo[0]] + [lo[1]];
  }
}
