/**
 * The few Python string built-ins the animation core relies on:
 * repetition `c * k`, ASCII `upper()`/`lower()`, `" ".join(parts)`,
 * `str(int)` and counting a glyph in a rendered frame.
 */
module Text {

  /** Python's `c * k` for a one-character string: k copies of c, none when k <= 0. */
  function Repeat(c: char, k: int): (r: string)
    ensures |r| == if k <= 0 then 0 else k
    ensures forall i :: 0 <= i < |r| ==> r[i] == c
    decreases k
  {
    if k <= 0 then [] else [c] + Repeat(c, k - 1)
  }

  // ---------------------------------------------------------------------------
  // Case mapping (ASCII letters only)
  // ---------------------------------------------------------------------------

  predicate IsLowerLetter(c: char) { 'a' <= c <= 'z' }

  predicate IsUpperLetter(c: char) { 'A' <= c <= 'Z' }

  function UpperChar(c: char): (u: char)
    ensures !IsLowerLetter(u)
    ensures IsLowerLetter(c) ==> IsUpperLetter(u)
    ensures !IsLowerLetter(c) ==> u == c
  {
    if IsLowerLetter(c) then (c as int - 32) as char else c
  }

  function LowerChar(c: char): (l: char)
    ensures !IsUpperLetter(l)
    ensures IsUpperLetter(c) ==> IsLowerLetter(l) && UpperChar(l) == c
    ensures !IsUpperLetter(c) ==> l == c
  {
    if IsUpperLetter(c) then (c as int + 32) as char else c
  }

  /** `s.upper()`: every ASCII lower-case letter mapped to its capital, the rest kept. */
  function ToUpper(s: string): (r: string)
    ensures |r| == |s|
    ensures forall i :: 0 <= i < |s| ==> r[i] == UpperChar(s[i])
  {
    if s == [] then [] else [UpperChar(s[0])] + ToUpper(s[1..])
  }

  /** `s.lower()`: every ASCII capital mapped to its lower-case letter, the rest kept. */
  function ToLower(s: string): (r: string)
    ensures |r| == |s|
    ensures forall i :: 0 <= i < |s| ==> r[i] == LowerChar(s[i])
  {
    if s == [] then [] else [LowerChar(s[0])] + ToLower(s[1..])
  }

  /** Upper-casing twice is upper-casing once. */
  lemma ToUpperIdempotent(s: string)
    ensures ToUpper(ToUpper(s)) == ToUpper(s)
  {
    var u := ToUpper(s);
    assert forall i :: 0 <= i < |u| ==> ToUpper(u)[i] == u[i];
  }

  /** Lower-casing twice is lower-casing once. */
  lemma ToLowerIdempotent(s: string)
    ensures ToLower(ToLower(s)) == ToLower(s)
  {
    var l := ToLower(s);
    assert forall i :: 0 <= i < |l| ==> ToLower(l)[i] == l[i];
  }

  /** Upper-casing forgets the case the letters had before. */
  lemma ToUpperOfLower(s: string)
    ensures ToUpper(ToLower(s)) == ToUpper(s)
  {
    assert forall i :: 0 <= i < |s| ==> ToUpper(ToLower(s))[i] == ToUpper(s)[i];
  }

  /** A string without capitals is its own lower-case form. */
  lemma ToLowerKeeps(s: string)
    requires forall i :: 0 <= i < |s| ==> !IsUpperLetter(s[i])
    ensures ToLower(s) == s
  {
  }

  /** Lower-casing forgets the case the letters had before. */
  lemma ToLowerOfUpper(s: string)
    ensures ToLower(ToUpper(s)) == ToLower(s)
  {
    assert forall i :: 0 <= i < |s| ==> ToLower(ToUpper(s))[i] == ToLower(s)[i];
  }

  // ---------------------------------------------------------------------------
  // sep.join(parts)
  // ---------------------------------------------------------------------------

  /** `sep.join(parts)`, built from the right: the last part follows the join of the others. */
  function Join(parts: seq<string>, sep: string): string
  {
    if |parts| == 0 then ""
    else if |parts| == 1 then parts[0]
    else Join(parts[..|parts| - 1], sep) + sep + parts[|parts| - 1]
  }

  /** Joining also peels off from the left: the first part, the separator, then the rest. */
  lemma {:induction false} JoinFirst(parts: seq<string>, sep: string)
    requires |parts| >= 2
    ensures Join(parts, sep) == parts[0] + sep + Join(parts[1..], sep)
  {
    var n := |parts|;
    if n > 2 {
      JoinFirst(parts[..n - 1], sep);
      assert parts[..n - 1][1..] == parts[1..][..n - 2];
      assert parts[1..][n - 2] == parts[n - 1];
    } else {
      assert parts[1..] == [parts[1]];
    }
  }

  /** The result begins with the first part and ends with the last one. */
  lemma JoinEnds(parts: seq<string>, sep: string)
    requires |parts| >= 1
    ensures |Join(parts, sep)| >= |parts[0]| && Join(parts, sep)[..|parts[0]|] == parts[0]
    ensures |Join(parts, sep)| >= |parts[|parts| - 1]|
    ensures Join(parts, sep)[|Join(parts, sep)| - |parts[|parts| - 1]|..] == parts[|parts| - 1]
  {
    if |parts| >= 2 {
      JoinFirst(parts, sep);
    }
  }

  /** With two or more parts, the result ends with the separator and the last part. */
  lemma JoinLast(parts: seq<string>, sep: string)
    requires |parts| >= 2
    ensures |Join(parts, sep)| >= |sep| + |parts[|parts| - 1]|
    ensures Join(parts, sep)[|Join(parts, sep)| - |sep| - |parts[|parts| - 1]|..] == sep + parts[|parts| - 1]
  {
    var init := Join(parts[..|parts| - 1], sep);
    assert Join(parts, sep) == init + sep + parts[|parts| - 1];
  }

  // ---------------------------------------------------------------------------
  // str(int) and its inverse
  // ---------------------------------------------------------------------------

  predicate IsDigit(c: char) { '0' <= c <= '9' }

  predicate AllDigits(s: string) { forall i :: 0 <= i < |s| ==> IsDigit(s[i]) }

  function DigitChar(d: nat): (c: char)
    requires d < 10
    ensures IsDigit(c)
  {
    ('0' as int + d) as char
  }

  function DigitValue(c: char): (d: nat)
    requires IsDigit(c)
    ensures d < 10 && DigitChar(d) == c
  {
    c as int - '0' as int
  }

  /** `str(n)` for n >= 0: decimal digits, most significant first, no leading zero. */
  function NatToDecimal(n: nat): (r: string)
    ensures |r| >= 1 && AllDigits(r)
    ensures r[0] == '0' ==> n == 0
  {
    if n < 10 then [DigitChar(n)] else NatToDecimal(n / 10) + [DigitChar(n % 10)]
  }

  /** Reads back a run of decimal digits. */
  function ParseDecimal(s: string): nat
    requires AllDigits(s)
  {
    if |s| == 0 then 0 else ParseDecimal(s[..|s| - 1]) * 10 + DigitValue(s[|s| - 1])
  }

  /** The digits written for n read back as n. */
  lemma {:induction false} DecimalRoundTrip(n: nat)
    ensures ParseDecimal(NatToDecimal(n)) == n
  {
    if n >= 10 {
      var r := NatToDecimal(n);
      assert r[..|r| - 1] == NatToDecimal(n / 10);
      DecimalRoundTrip(n / 10);
    }
  }

  /** `str(i)` for any integer: a minus sign before the digits of |i| when i < 0. */
  function IntToDecimal(i: int): (r: string)
    ensures |r| >= 1
    ensures (r[0] == '-') <==> i < 0
    ensures AllDigits(r[(if i < 0 then 1 else 0)..])
  {
    if i < 0 then "-" + NatToDecimal(-i) else NatToDecimal(i)
  }

  /** Reads back an optionally signed run of decimal digits. */
  function ParseInt(s: string): int
    requires |s| >= 1
    requires AllDigits(s[(if s[0] == '-' then 1 else 0)..])
  {
    if s[0] == '-' then 0 - ParseDecimal(s[1..]) as int else ParseDecimal(s)
  }

  /** The text written for i reads back as i. */
  lemma IntDecimalRoundTrip(i: int)
    ensures ParseInt(IntToDecimal(i)) == i
  {
    if i < 0 {
      assert IntToDecimal(i)[1..] == NatToDecimal(-i);
      DecimalRoundTrip(-i);
    } else {
      DecimalRoundTrip(i);
    }
  }

  // ---------------------------------------------------------------------------
  // Counting a glyph
  // ---------------------------------------------------------------------------

  /** The number of positions of s that hold c. */
  function Count(s: string, c: char): nat
  {
    if |s| == 0 then 0 else Count(s[..|s| - 1], c) + (if s[|s| - 1] == c then 1 else 0)
  }

  function Min(a: int, b: int): int { if a <= b then a else b }

  /** When every c in s sits in [lo, hi), s holds at most hi - lo of them. */
  lemma {:induction false} CountWithin(s: string, c: char, lo: int, hi: int)
    requires forall j :: 0 <= j < |s| && s[j] == c ==> lo <= j < hi
    ensures Count(s, c) <= if Min(|s|, hi) <= lo then 0 else Min(|s|, hi) - lo
    ensures lo <= hi ==> Count(s, c) <= hi - lo
  {
    if |s| > 0 {
      var t := s[..|s| - 1];
      assert forall j :: 0 <= j < |t| ==> t[j] == s[j];
      CountWithin(t, c, lo, hi);
    }
  }

  /** A glyph that occurs at exactly one position is counted once. */
  lemma {:induction false} CountSingle(s: string, c: char, k: int)
    requires 0 <= k < |s|
    requires forall j :: 0 <= j < |s| ==> (s[j] == c <==> j == k)
    ensures Count(s, c) == 1
  {
    var t := s[..|s| - 1];
    assert forall j :: 0 <= j < |t| ==> t[j] == s[j];
    if k == |s| - 1 {
      CountWithin(t, c, 0, 0);
    } else {
      CountSingle(t, c, k);
    }
  }
}
