/** String helpers standing in for the JavaScript built-ins the plugin calls:
    `String.prototype.indexOf` and the decimal rendering of an index inside a
    template literal. */
module Strings {
  import opened Wrappers

  /** `pat` occurs in `s` starting at position `i`. */
  predicate OccursAt(s: string, pat: string, i: nat)
  {
    i + |pat| <= |s| && s[i..i + |pat|] == pat
  }

  /** `s.indexOf(pat)`: the first position at which `pat` occurs, `None`
      where JavaScript answers -1. */
  function IndexOf(s: string, pat: string): (r: Option<nat>)
    ensures r.Some? ==> OccursAt(s, pat, r.value)
    ensures r.Some? ==> forall j: nat | j < r.value :: !OccursAt(s, pat, j)
    ensures r.None? ==> forall j: nat :: !OccursAt(s, pat, j)
    decreases |s|
  {
    if OccursAt(s, pat, 0) then Some(0)
    else if |s| <= |pat| then None
    else
      match IndexOf(s[1..], pat)
      case None =>
        assert forall j: nat :: !OccursAt(s, pat, j) by {
          forall j: nat ensures !OccursAt(s, pat, j) {
            if j >= 1 { OccursShift(s, pat, j); }
          }
        }
        None
      case Some(k) =>
        assert forall j: nat | j < k + 1 :: !OccursAt(s, pat, j) by {
          forall j: nat | j < k + 1 ensures !OccursAt(s, pat, j) {
            if j >= 1 { OccursShift(s, pat, j); }
          }
        }
        OccursShift(s, pat, k + 1);
        Some(k + 1)
  }

  /** An occurrence past the first character is an occurrence in the tail. */
  lemma OccursShift(s: string, pat: string, j: nat)
    requires 1 <= j && s != []
    ensures OccursAt(s, pat, j) <==> OccursAt(s[1..], pat, j - 1)
  {
    if j + |pat| <= |s| {
      assert s[1..][j - 1..j - 1 + |pat|] == s[j..j + |pat|];
    }
  }

  /** IndexOf is determined by its contract: the first occurrence. */
  lemma IndexOfIsFirst(s: string, pat: string, i: nat)
    requires OccursAt(s, pat, i)
    requires forall j: nat | j < i :: !OccursAt(s, pat, j)
    ensures IndexOf(s, pat) == Some(i)
  {
  }

  /** Text that agrees with `s` up to the end of the first occurrence of
      `pat` has its first occurrence at the same place. */
  lemma IndexOfSharedPrefix(s: string, t: string, pat: string, i: nat)
    requires OccursAt(s, pat, i) && forall j: nat | j < i :: !OccursAt(s, pat, j)
    requires i + |pat| <= |t| && t[..i + |pat|] == s[..i + |pat|]
    ensures IndexOf(t, pat) == Some(i)
  {
    var end := i + |pat|;
    SharedPrefixSlice(s, t, end, i, end);
    forall j: nat | j < i
      ensures !OccursAt(t, pat, j)
    {
      assert !OccursAt(s, pat, j);
      SharedPrefixSlice(s, t, end, j, j + |pat|);
    }
    IndexOfIsFirst(t, pat, i);
  }

  /** Two texts that agree on their first `end` characters agree on every
      slice inside them. */
  lemma SharedPrefixSlice(s: string, t: string, end: nat, a: nat, b: nat)
    requires a <= b <= end <= |s| && end <= |t| && s[..end] == t[..end]
    ensures s[a..b] == t[a..b]
  {
    forall m | a <= m < b
      ensures s[m] == t[m]
    {
      assert s[m] == s[..end][m];
      assert t[m] == t[..end][m];
    }
  }

  /** A decimal digit character. */
  predicate IsDigit(c: char)
  {
    '0' <= c <= '9'
  }

  function DigitChar(d: nat): (c: char)
    requires d < 10
    ensures IsDigit(c) && c as int - '0' as int == d
  {
    ['0', '1', '2', '3', '4', '5', '6', '7', '8', '9'][d]
  }

  /** The decimal text of `n`, as `${n}` renders a non-negative integer. */
  function Decimal(n: nat): (s: string)
    ensures |s| > 0
    ensures forall c | c in s :: IsDigit(c)
  {
    if n < 10 then [DigitChar(n)] else Decimal(n / 10) + [DigitChar(n % 10)]
  }

  /** The value of a string of decimal digits (the inverse of `Decimal`). */
  function DecimalValue(s: string): nat
    requires forall c | c in s :: IsDigit(c)
  {
    if s == [] then 0
    else
      assert IsDigit(s[|s| - 1]);
      DecimalValue(s[..|s| - 1]) * 10 + (s[|s| - 1] as int - '0' as int)
  }

  /** Reading back the rendered text gives the number again. */
  lemma {:induction false} DecimalRoundTrip(n: nat)
    ensures DecimalValue(Decimal(n)) == n
  {
    if n >= 10 {
      DecimalRoundTrip(n / 10);
      var s := Decimal(n);
      assert s[..|s| - 1] == Decimal(n / 10);
    }
  }

  /** The length of the run of decimal digits at the start of `s`. */
  function DigitRun(s: string): (n: nat)
    ensures n <= |s|
    ensures forall k | 0 <= k < n :: IsDigit(s[k])
    ensures n < |s| ==> !IsDigit(s[n])
  {
    if s == [] || !IsDigit(s[0]) then 0 else 1 + DigitRun(s[1..])
  }

  /** A digit string followed by a non-digit is read as exactly that run. */
  lemma {:induction false} DigitRunOfDigits(d: string, t: string)
    requires forall c | c in d :: IsDigit(c)
    requires t != [] && !IsDigit(t[0])
    ensures DigitRun(d + t) == |d|
  {
    if d != [] {
      assert (d + t)[1..] == d[1..] + t;
      DigitRunOfDigits(d[1..], t);
    }
  }
}
