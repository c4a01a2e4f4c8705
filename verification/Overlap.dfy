/** Alignment of an incoming batch with the retained tail (internal/continuity/reducer.go). */
module Overlap {
  import opened Protocol
  import opened Digests

  /** The last `k` of `p` are the first `k` of `q`. */
  predicate Joins(p: seq<Digest>, q: seq<Digest>, k: nat) {
    k <= |p| && k <= |q| && p[|p| - k..] == q[..k]
  }

  /** `w` stands in `p` at `start`. */
  predicate OccursAt(p: seq<Digest>, w: seq<Digest>, start: int) {
    0 <= start && start + |w| <= |p| && p[start..start + |w|] == w
  }

  /** The longest length not above `limit` at which `p` joins `q`. */
  function LongestUpTo(p: seq<Digest>, q: seq<Digest>, limit: nat): (k: nat)
    ensures k <= limit && Joins(p, q, k)
    ensures forall j: nat :: k < j <= limit ==> !Joins(p, q, j)
  {
    if limit == 0 || Joins(p, q, limit) then assert limit == 0 ==> p[|p|..] == q[..0]; limit
    else LongestUpTo(p, q, limit - 1)
  }

  function Min(a: nat, b: nat): nat { if a < b then a else b }

  function LongestJoin(p: seq<Digest>, q: seq<Digest>): (k: nat)
    ensures Joins(p, q, k) && forall j: nat :: k < j ==> !Joins(p, q, j)
  {
    LongestUpTo(p, q, Min(|p|, |q|))
  }

  /** `w` stands in `p` exactly once. */
  ghost predicate OccursOnce(p: seq<Digest>, w: seq<Digest>) {
    exists start :: OccursAt(p, w, start) && forall other :: OccursAt(p, w, other) ==> other == start
  }

  /** `equalSuffixPrefix` */
  method EqualSuffixPrefix(previous: seq<Digest>, incoming: seq<Digest>, length: nat) returns (equal: bool)
    ensures equal == Joins(previous, incoming, length)
  {
    if length > |previous| || length > |incoming| {
      return false;
    }
    for index := 0 to length
      invariant previous[|previous| - length..][..index] == incoming[..index]
    {
      if previous[|previous| - length + index] != incoming[index] {
        assert previous[|previous| - length..][index] != incoming[..length][index];
        return false;
      }
    }
    assert previous[|previous| - length..][..length] == previous[|previous| - length..];
    return true;
  }

  /** The first loop of `overlapLength`: the last of the candidate lengths it collects, or 0. */
  method LongestCandidate(previous: seq<Digest>, incoming: seq<Digest>) returns (longest: nat)
    ensures longest == LongestJoin(previous, incoming)
  {
    var maxLength := |previous|;
    if |incoming| < maxLength {
      maxLength := |incoming|;
    }
    longest := 0;
    assert previous[|previous|..] == incoming[..0];
    for candidate := 1 to maxLength + 1
      invariant Joins(previous, incoming, longest)
      invariant forall j: nat :: longest < j < candidate ==> !Joins(previous, incoming, j)
    {
      var equal := EqualSuffixPrefix(previous, incoming, candidate);
      if equal {
        longest := candidate;
      }
    }
  }

  /** How many starts below `limit` carry `w`. */
  function CountBelow(p: seq<Digest>, w: seq<Digest>, limit: nat): nat {
    if limit == 0 then 0
    else CountBelow(p, w, limit - 1) + if OccursAt(p, w, limit - 1) then 1 else 0
  }

  lemma {:induction false} CountBelowZero(p: seq<Digest>, w: seq<Digest>, limit: nat)
    ensures CountBelow(p, w, limit) == 0 <==> forall start | 0 <= start < limit :: !OccursAt(p, w, start)
  {
    if limit > 0 {
      CountBelowZero(p, w, limit - 1);
    }
  }

  lemma {:induction false} CountBelowOne(p: seq<Digest>, w: seq<Digest>, limit: nat, at: nat)
    requires at < limit && OccursAt(p, w, at)
    ensures CountBelow(p, w, limit) == 1 <==> forall other | 0 <= other < limit && OccursAt(p, w, other) :: other == at
  {
    if limit - 1 == at {
      CountBelowZero(p, w, at);
    } else {
      CountBelowOne(p, w, limit - 1, at);
      CountBelowZero(p, w, limit - 1);
    }
  }

  /** A window of `length` ticks compared one by one. */
  method WindowMatches(previous: seq<Digest>, start: nat, incoming: seq<Digest>, length: nat) returns (matches: bool)
    requires start + length <= |previous| && length <= |incoming|
    ensures matches == OccursAt(previous, incoming[..length], start)
  {
    for index := 0 to length
      invariant previous[start..start + index] == incoming[..index]
    {
      if previous[start + index] != incoming[index] {
        assert previous[start..start + length][index] != incoming[..length][index];
        return false;
      }
    }
    return true;
  }

  /**
   `overlapLength`: the longest suffix/prefix match, provided the matched ticks stand only
   once in the tail; otherwise no overlap, and the answer is ambiguous.
   */
  method OverlapLength(previous: seq<Digest>, incoming: seq<Digest>) returns (length: nat, ambiguous: bool)
    ensures var longest := LongestJoin(previous, incoming);
            && ambiguous == (longest > 0 && !OccursOnce(previous, incoming[..longest]))
            && length == (if ambiguous then 0 else longest)
  {
    hide LongestJoin, OccursOnce, OccursAt;
    var longest := LongestCandidate(previous, incoming);
    if longest == 0 {
      return 0, false;
    }
    ghost var w := incoming[..longest];
    var count := 0;
    var start := 0;
    while start + longest <= |previous|
      invariant 0 <= start <= |previous| - longest + 1
      invariant count == CountBelow(previous, w, start)
    {
      var matches := WindowMatches(previous, start, incoming, longest);
      if matches {
        count := count + 1;
      }
      start := start + 1;
    }
    OnceIffCounted(previous, w, |previous| - longest);
    if count != 1 {
      return 0, true;
    }
    return longest, false;
  }

  lemma OnceIffCounted(p: seq<Digest>, w: seq<Digest>, at: nat)
    requires OccursAt(p, w, at)
    ensures OccursOnce(p, w) <==> CountBelow(p, w, |p| - |w| + 1) == 1
  {
    CountBelowOne(p, w, |p| - |w| + 1, at);
  }

  /** `q[..length]` is the window of `p` at `start` with the one interior tick at `offset` changed. */
  predicate ChangedAt(p: seq<Digest>, start: int, q: seq<Digest>, length: int, offset: int) {
    && 0 <= start && start + length <= |p| && length <= |q|
    && 0 < offset < length - 1
    && forall i :: 0 <= i < length ==> (p[start + i] != q[i] <==> i == offset)
  }

  ghost predicate OneChange(p: seq<Digest>, start: int, q: seq<Digest>, length: int) {
    exists offset :: ChangedAt(p, start, q, length, offset)
  }

  /** The last `length` ticks of `p` and the first `length` of `q` differ in one interior tick. */
  ghost predicate SuffixChange(p: seq<Digest>, q: seq<Digest>, length: int) {
    OneChange(p, |p| - length, q, length)
  }

  /**
   One changed tick is proved at the batch boundary: the longest tail suffix that differs from the
   batch's prefix in a single interior tick, with no other window of the tail that does.
   */
  ghost predicate HistoryChange(p: seq<Digest>, q: seq<Digest>, length: int, offset: int) {
    && ChangedAt(p, |p| - length, q, length, offset)
    && (forall longer :: length < longer ==> !SuffixChange(p, q, longer))
    && (forall start :: start != |p| - length ==> !OneChange(p, start, q, length))
  }

  ghost function HistoryChangeAt(p: seq<Digest>, q: seq<Digest>): (at: Option<int>)
    ensures at.Some? ==> 0 <= at.value < |p|
  {
    if exists length, offset :: HistoryChange(p, q, length, offset) then
      var length, offset :| HistoryChange(p, q, length, offset);
      Some(|p| - length + offset)
    else None
  }

  lemma HistoryChangeUnique(p: seq<Digest>, q: seq<Digest>, length: int, offset: int)
    requires HistoryChange(p, q, length, offset)
    ensures HistoryChangeAt(p, q) == Some(|p| - length + offset)
  {
    forall l, o | HistoryChange(p, q, l, o) ensures l == length && o == offset {
      assert SuffixChange(p, q, l) && SuffixChange(p, q, length);
      assert p[|p| - l + o] != q[o];
    }
  }

  /** `oneSubstitutionAlignment`, with the incoming window at 0. */
  method OneSubstitution(previous: seq<Digest>, start: int, incoming: seq<Digest>, length: int)
    returns (changed: Option<int>)
    ensures changed.Some? ==> ChangedAt(previous, start, incoming, length, changed.value)
    ensures changed.None? ==> !OneChange(previous, start, incoming, length)
  {
    if length < 3 || start < 0 || start + length > |previous| || length > |incoming| {
      return None;
    }
    var changedOffset := -1;
    for offset := 0 to length
      invariant -1 <= changedOffset < offset
      invariant changedOffset >= 0 ==> 0 < changedOffset < length - 1
      invariant forall i :: 0 <= i < offset ==> (previous[start + i] != incoming[i] <==> i == changedOffset)
    {
      if previous[start + offset] != incoming[offset] {
        if offset == 0 || offset == length - 1 || changedOffset >= 0 {
          assert forall o :: ChangedAt(previous, start, incoming, length, o) ==> o == offset;
          assert changedOffset >= 0 ==> previous[start + changedOffset] != incoming[changedOffset];
          return None;
        }
        changedOffset := offset;
      }
    }
    if changedOffset < 0 {
      assert forall o :: ChangedAt(previous, start, incoming, length, o) ==> previous[start + o] != incoming[o];
      return None;
    }
    return Some(changedOffset);
  }

  /** The first loop of `uniqueHistoryChange`: the longest boundary alignment. */
  method LongestBoundaryChange(previous: seq<Digest>, incoming: seq<Digest>) returns (length: int, offset: int)
    ensures length != 0 ==> ChangedAt(previous, |previous| - length, incoming, length, offset)
    ensures forall longer :: length < longer ==> !SuffixChange(previous, incoming, longer)
  {
    var maxLength := |previous|;
    if |incoming| < maxLength {
      maxLength := |incoming|;
    }
    length := maxLength;
    while length >= 3
      invariant forall longer :: length < longer ==> !SuffixChange(previous, incoming, longer)
    {
      var candidate := OneSubstitution(previous, |previous| - length, incoming, length);
      if candidate.Some? {
        return length, candidate.value;
      }
      length := length - 1;
    }
    return 0, 0;
  }

  /** `uniqueHistoryChange`: the position in the tail whose tick the source has since changed. */
  method UniqueHistoryChange(previous: seq<Digest>, incoming: seq<Digest>) returns (reference: Option<int>)
    ensures reference == HistoryChangeAt(previous, incoming)
    ensures reference.Some? ==> 0 <= reference.value < |previous|
  {
    var length, offset := LongestBoundaryChange(previous, incoming);
    if length == 0 {
      NoBoundaryNoChange(previous, incoming);
      return None;
    }
    var compatible := 0;
    var start := 0;
    while start + length <= |previous|
      invariant 0 <= start <= |previous| - length + 1
      invariant compatible >= 0
      invariant compatible == 0 ==> forall s :: 0 <= s < start ==> !OneChange(previous, s, incoming, length)
      invariant compatible > 0 ==> exists s :: 0 <= s < start && OneChange(previous, s, incoming, length)
      invariant start == |previous| - length + 1 ==>
                  (compatible == 1 <==> forall s :: 0 <= s < |previous| - length ==> !OneChange(previous, s, incoming, length))
    {
      var here := OneSubstitution(previous, start, incoming, length);
      if here.Some? {
        assert OneChange(previous, start, incoming, length);
        compatible := compatible + 1;
      }
      assert start == |previous| - length ==> OneChange(previous, start, incoming, length);
      start := start + 1;
    }
    if compatible != 1 {
      SecondWindowNoChange(previous, incoming, length, offset);
      return None;
    }
    HistoryChangeUnique(previous, incoming, length, offset);
    return Some(|previous| - length + offset);
  }

  lemma NoBoundaryNoChange(p: seq<Digest>, q: seq<Digest>)
    requires forall longer :: 0 < longer ==> !SuffixChange(p, q, longer)
    ensures HistoryChangeAt(p, q) == None
  {
    forall length, offset ensures !HistoryChange(p, q, length, offset) {
      assert ChangedAt(p, |p| - length, q, length, offset) ==> SuffixChange(p, q, length);
    }
  }

  lemma SecondWindowNoChange(p: seq<Digest>, q: seq<Digest>, length: int, offset: int)
    requires ChangedAt(p, |p| - length, q, length, offset)
    requires forall longer :: length < longer ==> !SuffixChange(p, q, longer)
    requires exists s :: 0 <= s < |p| - length && OneChange(p, s, q, length)
    ensures HistoryChangeAt(p, q) == None
  {
    forall l, o ensures !HistoryChange(p, q, l, o) {
      assert SuffixChange(p, q, length);
      assert ChangedAt(p, |p| - l, q, l, o) ==> SuffixChange(p, q, l);
    }
  }
}
