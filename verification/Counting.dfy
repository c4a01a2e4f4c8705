/** Counting with sets: what is needed to compare a list of distinct things with a table. */
module Counting {

  ghost predicate AllDistinct<T>(xs: seq<T>) {
    forall i, j :: 0 <= i < |xs| && 0 <= j < |xs| && xs[i] == xs[j] ==> i == j
  }

  function Elements<T>(xs: seq<T>): set<T> {
    set x | x in xs
  }

  lemma {:induction false} DistinctSize<T>(xs: seq<T>)
    requires AllDistinct(xs)
    ensures |Elements(xs)| == |xs|
  {
    if xs != [] {
      var before, last := xs[..|xs| - 1], xs[|xs| - 1];
      assert AllDistinct(before);
      DistinctSize(before);
      assert Elements(xs) == Elements(before) + {last};
      assert last !in before;
    }
  }

  lemma SubsetSize<T>(a: set<T>, b: set<T>)
    requires a <= b
    ensures |a| <= |b|
    ensures |a| == |b| ==> a == b
  {
    assert b == a + (b - a);
  }

  function Below(n: nat): (s: set<int>)
    ensures |s| == n && forall i :: i in s <==> 0 <= i < n
  {
    if n == 0 then {} else Below(n - 1) + {n - 1}
  }

  /** A list of distinct numbers below `n` has at most `n` members. */
  lemma DistinctBelow(xs: seq<int>, n: nat)
    requires AllDistinct(xs) && forall i :: 0 <= i < |xs| ==> 0 <= xs[i] < n
    ensures |xs| <= n
  {
    DistinctSize(xs);
    SubsetSize(Elements(xs), Below(n));
  }
}
