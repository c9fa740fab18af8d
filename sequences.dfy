/** Sequence helpers shared by the validation and grouping models. */
module Sequences {
  import opened Wrappers

  /** The first index whose element is `bad`: the exit point of a loop that
      scans in increasing index order and throws at the first offending entry. */
  function FirstWhere<T>(s: seq<T>, bad: T -> bool): (r: Option<nat>)
    ensures r.Some? ==> r.value < |s| && bad(s[r.value])
    ensures r.Some? ==> forall j | 0 <= j < r.value :: !bad(s[j])
    ensures r.None? <==> forall j | 0 <= j < |s| :: !bad(s[j])
  {
    if s == [] then None
    else if bad(s[0]) then Some(0)
    else
      match FirstWhere(s[1..], bad)
      case None => None
      case Some(k) => Some(k + 1)
  }

  /** Scanning one more element: an earlier hit stays the answer, otherwise
      the new element is checked. */
  lemma FirstWhereSnoc<T>(s: seq<T>, bad: T -> bool)
    requires s != []
    ensures FirstWhere(s, bad) ==
      match FirstWhere(s[..|s| - 1], bad)
      case Some(i) => Some(i)
      case None => if bad(s[|s| - 1]) then Some(|s| - 1) else None
  {
    var n := |s| - 1;
    var init := s[..n];
    var q := FirstWhere(init, bad);
    if q.Some? {
      var i := q.value;
      assert init[i] == s[i];
      forall j | 0 <= j < i ensures !bad(s[j]) {
        assert init[j] == s[j];
      }
      FirstWhereIs(s, bad, q);
    } else {
      forall j | 0 <= j < n ensures !bad(s[j]) {
        assert init[j] == s[j];
      }
      FirstWhereIs(s, bad, if bad(s[n]) then Some(n) else None);
    }
  }

  /** FirstWhere is determined by its contract. */
  lemma FirstWhereIs<T>(s: seq<T>, bad: T -> bool, r: Option<nat>)
    requires r.Some? ==> r.value < |s| && bad(s[r.value]) && forall j | 0 <= j < r.value :: !bad(s[j])
    requires r.None? ==> forall j | 0 <= j < |s| :: !bad(s[j])
    ensures FirstWhere(s, bad) == r
  {
  }

  /** The number of times `x` occurs in `s`. */
  function Occurrences<T(==)>(s: seq<T>, x: T): nat
  {
    multiset(s)[x]
  }

  /** One element more adds one occurrence exactly when it is `x`. */
  lemma OccurrencesSnoc<T>(s: seq<T>, x: T)
    requires s != []
    ensures Occurrences(s, x) == Occurrences(s[..|s| - 1], x) + if s[|s| - 1] == x then 1 else 0
  {
    var n := |s| - 1;
    assert s == s[..n] + [s[n]];
    assert multiset(s) == multiset(s[..n]) + multiset{s[n]};
  }

  /** `n` copies of `x`. */
  function Repeat<T>(x: T, n: nat): (r: seq<T>)
    ensures |r| == n
    ensures forall k | 0 <= k < n :: r[k] == x
  {
    if n == 0 then [] else Repeat(x, n - 1) + [x]
  }
}
