/** Texts of any kind of character: what stands where, and what reading from a position gives. */
module Texts {

  /** The outcome of reading from a position: a value and the position behind it, or nothing. */
  datatype Parsed<T> = Bad | Got(value: T, pos: nat)

  /** `s` stands in `d` at `p`. */
  predicate At<T(==)>(d: seq<T>, p: nat, s: seq<T>) {
    p + |s| <= |d| && d[p..p + |s|] == s
  }

  lemma AtSplit<T>(d: seq<T>, p: nat, a: seq<T>, b: seq<T>)
    requires At(d, p, a + b)
    ensures At(d, p, a) && At(d, p + |a|, b)
  {
    var s := d[p..p + |a| + |b|];
    assert s[..|a|] == a && s[|a|..] == b;
    assert d[p..p + |a|] == s[..|a|];
    assert d[p + |a|..p + |a| + |b|] == s[|a|..];
  }

  lemma AtJoin<T>(d: seq<T>, p: nat, a: seq<T>, b: seq<T>)
    requires At(d, p, a) && At(d, p + |a|, b)
    ensures At(d, p, a + b)
  {
    assert d[p..p + |a| + |b|] == d[p..p + |a|] + d[p + |a|..p + |a| + |b|];
  }

  lemma Regroup<T>(a: seq<T>, b: seq<T>, c: seq<T>)
    ensures (a + b) + c == a + (b + c)
  {
  }
}
