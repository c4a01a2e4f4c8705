/** Runs of sealed WAL segments: their order, the part of them that a slice touches, and the walk along it. */
module Segments {
  import opened Protocol
  import opened Digests
  import opened DaySelection
  import opened DayCoordinates
  import W = Wal

  /** Entries in consecutive order, each naming the hash of the one before. */
  predicate Chained(items: seq<Item>) {
    items == [] ||
    var n := |items| - 1;
    && Chained(items[..n]) && 1 <= items[n].entry.sequence
    && (n > 0 ==> items[n].entry.sequence == items[n - 1].entry.sequence + 1 && items[n].entry.previous == items[n - 1].entry.entryHash)
  }

  lemma {:induction false} ChainedAt(items: seq<Item>, i: nat, j: nat)
    requires Chained(items) && i <= j < |items|
    ensures items[j].entry.sequence == items[i].entry.sequence + (j - i) && 1 <= items[i].entry.sequence
    ensures i > 0 ==> items[i].entry.previous == items[i - 1].entry.entryHash
    decreases |items|
  {
    var n := |items| - 1;
    if j < n {
      ChainedAt(items[..n], i, j);
    } else if i < n {
      ChainedAt(items[..n], i, n - 1);
    }
  }

  lemma {:induction false} ChainedNumbered(items: seq<Item>)
    requires Chained(items)
    ensures Numbered(items)
  {
    if items != [] {
      ChainedNumbered(items[..|items| - 1]);
    }
  }

  lemma {:induction false} ChainedConcat(a: seq<Item>, b: seq<Item>)
    requires Chained(a) && Chained(b)
    requires a != [] && b != [] ==>
               b[0].entry.sequence == a[|a| - 1].entry.sequence + 1 && b[0].entry.previous == a[|a| - 1].entry.entryHash
    ensures Chained(a + b)
  {
    if b == [] {
      assert a + b == a;
    } else {
      var n := |b| - 1;
      ChainedConcat(a, b[..n]);
      assert (a + b)[..|a| + n] == a + b[..n];
    }
  }

  /** What the verifier of a sealed segment guarantees (internal/wal/segment.go). */
  predicate SegmentVerified(o: RawObject) {
    var s := o.segment;
    && s.entries != [] && 0 < s.bytes && s.sha != Zero && Chained(ItemsOf(o))
    && s.start == s.entries[0].sequence && s.last == s.entries[|s.entries| - 1].sequence <= MAX_U64
    && s.chainStart == s.entries[0].previous && s.chainRoot == s.entries[|s.entries| - 1].entryHash
  }

  /** The segment is verified, and the metadata kept beside it is its own. */
  predicate Sealed(o: RawObject) {
    SegmentVerified(o) && o.key == WalKey(o.sha) && o.sha == o.segment.sha && o.bytes == o.segment.bytes
  }

  predicate Follows(a: RawObject, b: RawObject) {
    b.segment.start == a.segment.last + 1 && b.segment.chainStart == a.segment.chainRoot
  }

  /** Sealed segments that continue each other without a gap. */
  predicate Contiguous(objects: seq<RawObject>) {
    objects == [] ||
    var n := |objects| - 1;
    Contiguous(objects[..n]) && Sealed(objects[n]) && (n > 0 ==> Follows(objects[n - 1], objects[n]))
  }

  lemma {:induction false} ContiguousAt(objects: seq<RawObject>, i: nat)
    requires Contiguous(objects) && i < |objects|
    ensures Sealed(objects[i]) && (i > 0 ==> Follows(objects[i - 1], objects[i]))
  {
    hide Sealed, Follows;
    if i < |objects| - 1 {
      ContiguousAt(objects[..|objects| - 1], i);
    }
  }

  lemma {:induction false} ContiguousSlice(objects: seq<RawObject>, p: nat, q: nat)
    requires Contiguous(objects) && p <= q <= |objects|
    ensures Contiguous(objects[p..q])
    decreases q
  {
    hide Sealed, Follows;
    if p < q {
      ContiguousSlice(objects, p, q - 1);
      assert objects[p..q][..q - 1 - p] == objects[p..q - 1];
      ContiguousAt(objects, q - 1);
    }
  }

  lemma SealedSpan(o: RawObject)
    requires Sealed(o)
    ensures o.segment.start <= o.segment.last && |o.segment.entries| == o.segment.last - o.segment.start + 1
  {
    ChainedAt(ItemsOf(o), 0, |o.segment.entries| - 1);
  }

  /** The entries of contiguous segments form one chain, from the first segment's start to the last one's end. */
  lemma {:induction false} ContiguousItems(objects: seq<RawObject>)
    requires Contiguous(objects)
    ensures Chained(Items(objects))
    ensures objects != [] ==>
              var items := Items(objects);
              && items != [] && items[0].entry.sequence == objects[0].segment.start
              && items[|items| - 1].entry.sequence == objects[|objects| - 1].segment.last
              && items[|items| - 1].entry.entryHash == objects[|objects| - 1].segment.chainRoot
  {
    if objects != [] {
      var n := |objects| - 1;
      ContiguousItems(objects[..n]);
      ChainedConcat(Items(objects[..n]), ItemsOf(objects[n]));
    }
  }

  lemma {:induction false} ContiguousOrder(objects: seq<RawObject>, i: nat, j: nat)
    requires Contiguous(objects) && i < j < |objects|
    ensures objects[i].segment.last < objects[j].segment.start
    decreases j
  {
    hide Sealed;
    ContiguousAt(objects, j);
    if i < j - 1 {
      ContiguousOrder(objects, i, j - 1);
      ContiguousAt(objects, j - 1);
      SealedSpan(objects[j - 1]);
    }
  }

  // ---- Putting segments in order ----

  /** Insertion by start sequence. Equal starts fail the contiguity check in either order. */
  function Insert(sorted: seq<RawObject>, o: RawObject): seq<RawObject> {
    if sorted == [] || sorted[|sorted| - 1].segment.start <= o.segment.start then sorted + [o]
    else Insert(sorted[..|sorted| - 1], o) + [sorted[|sorted| - 1]]
  }

  function Sort(objects: seq<RawObject>): seq<RawObject> {
    if objects == [] then [] else Insert(Sort(objects[..|objects| - 1]), objects[|objects| - 1])
  }

  /** `orderedVerifiedObjects`, of segments that have been verified. */
  function InOrder(objects: seq<RawObject>): Option<seq<RawObject>> {
    if Contiguous(Sort(objects)) then Some(Sort(objects)) else None
  }

  predicate Rising(objects: seq<RawObject>) {
    objects == [] ||
    var n := |objects| - 1;
    Rising(objects[..n]) && (n > 0 ==> objects[n - 1].segment.start <= objects[n].segment.start)
  }

  lemma {:induction false} InsertMembers(sorted: seq<RawObject>, o: RawObject)
    ensures multiset(Insert(sorted, o)) == multiset(sorted) + multiset{o}
  {
    if !(sorted == [] || sorted[|sorted| - 1].segment.start <= o.segment.start) {
      var n := |sorted| - 1;
      InsertMembers(sorted[..n], o);
      assert sorted == sorted[..n] + [sorted[n]];
    }
  }

  lemma {:induction false} InsertRises(sorted: seq<RawObject>, o: RawObject)
    requires Rising(sorted)
    ensures Rising(Insert(sorted, o)) && |Insert(sorted, o)| == |sorted| + 1
    ensures var last := Insert(sorted, o)[|sorted|];
            last.segment.start == if sorted == [] || sorted[|sorted| - 1].segment.start <= o.segment.start
                                  then o.segment.start else sorted[|sorted| - 1].segment.start
  {
    if sorted == [] || sorted[|sorted| - 1].segment.start <= o.segment.start {
      assert (sorted + [o])[..|sorted|] == sorted;
    } else {
      var n := |sorted| - 1;
      InsertRises(sorted[..n], o);
      var r := Insert(sorted[..n], o);
      assert (r + [sorted[n]])[..n + 1] == r;
    }
  }

  lemma {:induction false} SortKeeps(objects: seq<RawObject>)
    ensures Rising(Sort(objects)) && multiset(Sort(objects)) == multiset(objects)
  {
    hide Rising, Insert;
    if objects == [] {
      EmptyRises();
    } else {
      var n := |objects| - 1;
      SortKeeps(objects[..n]);
      InsertRises(Sort(objects[..n]), objects[n]);
      InsertMembers(Sort(objects[..n]), objects[n]);
      assert objects == objects[..n] + [objects[n]];
    }
  }

  lemma EmptyRises()
    ensures Rising([])
  {
  }

  lemma {:induction false} RisingBelow(objects: seq<RawObject>, i: nat)
    requires Rising(objects) && i < |objects|
    ensures objects[i].segment.start <= objects[|objects| - 1].segment.start
  {
    var n := |objects| - 1;
    if i < n {
      RisingBelow(objects[..n], i);
    }
  }

  lemma LastIsLargest(a: seq<RawObject>, b: seq<RawObject>)
    requires Rising(a) && Contiguous(b) && multiset(a) == multiset(b) && |a| == |b| > 0
    ensures a[|a| - 1] == b[|b| - 1]
  {
    hide Sealed, Rising, Contiguous;
    var n := |b| - 1;
    assert b[n] in multiset(b) && a[n] in multiset(a);
    var i :| 0 <= i < |a| && a[i] == b[n];
    var j :| 0 <= j < |b| && b[j] == a[n];
    RisingBelow(a, i);
    if j < n {
      ContiguousOrder(b, j, n);
      ContiguousAt(b, j);
      SealedSpan(b[j]);
    }
  }

  lemma RestAgrees<T>(a: seq<T>, b: seq<T>, last: T)
    requires multiset(a + [last]) == multiset(b + [last])
    ensures multiset(a) == multiset(b)
  {
    assert multiset(a) == multiset(a + [last]) - multiset{last};
    assert multiset(b) == multiset(b + [last]) - multiset{last};
  }

  /** There is only one way to put contiguous segments in order. */
  lemma {:induction false} OrderIsUnique(a: seq<RawObject>, b: seq<RawObject>)
    requires Rising(a) && Contiguous(b) && multiset(a) == multiset(b)
    ensures a == b
    decreases |b|
  {
    hide Sealed;
    assert |a| == |multiset(a)| == |multiset(b)| == |b|;
    if b != [] {
      var n := |b| - 1;
      LastIsLargest(a, b);
      assert a == a[..n] + [a[n]] && b == b[..n] + [b[n]];
      RestAgrees(a[..n], b[..n], b[n]);
      OrderIsUnique(a[..n], b[..n]);
    }
  }

  /** Whatever order the segments are handed over in, the contiguous one is found. */
  lemma OrderIsFound(objects: seq<RawObject>, shuffled: seq<RawObject>)
    requires Contiguous(objects) && multiset(shuffled) == multiset(objects)
    ensures InOrder(shuffled) == Some(objects)
  {
    hide Contiguous, Rising, Sort;
    SortKeeps(shuffled);
    OrderIsUnique(Sort(shuffled), objects);
  }

  // ---- The objects that a slice touches ----

  datatype ChainObject = ChainObject(key: ObjectKey, sha: Digest, bytes: nat, start: nat, end: nat)

  function DescriptorOf(o: RawObject): ChainObject {
    ChainObject(o.key, o.sha, o.bytes, o.segment.start, o.segment.last)
  }

  function Descriptors(objects: seq<RawObject>): (cs: seq<ChainObject>)
    ensures |cs| == |objects| && forall i :: 0 <= i < |objects| ==> cs[i] == DescriptorOf(objects[i])
  {
    seq(|objects|, i requires 0 <= i < |objects| => DescriptorOf(objects[i]))
  }

  predicate Touches(o: RawObject, lo: nat, hi: nat) {
    !(o.segment.last < lo || o.segment.start > hi)
  }

  function Touching(objects: seq<RawObject>, lo: nat, hi: nat): seq<RawObject> {
    if objects == [] then [] else
    var n := |objects| - 1;
    Touching(objects[..n], lo, hi) + if Touches(objects[n], lo, hi) then [objects[n]] else []
  }

  function ChainFor(objects: seq<RawObject>, lo: nat, hi: nat): seq<ChainObject> {
    if lo == 0 || hi == 0 then [] else Descriptors(Touching(objects, lo, hi))
  }

  method ChainObjectsForSlice(objects: seq<RawObject>, lo: nat, hi: nat) returns (chain: seq<ChainObject>)
    ensures chain == ChainFor(objects, lo, hi)
  {
    if lo == 0 || hi == 0 {
      return [];
    }
    chain := [];
    for i := 0 to |objects|
      invariant chain == Descriptors(Touching(objects[..i], lo, hi))
    {
      assert objects[..i + 1][..i] == objects[..i];
      if objects[i].segment.last < lo || objects[i].segment.start > hi {
        continue;
      }
      chain := chain + [DescriptorOf(objects[i])];
    }
    assert objects[..|objects|] == objects;
  }

  predicate AllBelow(objects: seq<RawObject>, lo: nat) {
    forall i :: 0 <= i < |objects| ==> objects[i].segment.last < lo
  }

  predicate AllAbove(objects: seq<RawObject>, hi: nat) {
    forall i :: 0 <= i < |objects| ==> objects[i].segment.start > hi
  }

  lemma NothingAboveLast(objects: seq<RawObject>, q: nat, hi: nat)
    requires Contiguous(objects) && q < |objects| && AllAbove(objects[q..|objects| - 1], hi)
    requires objects[|objects| - 1].segment.start <= hi
    ensures q == |objects| - 1
  {
    hide Sealed, Contiguous;
    var n := |objects| - 1;
    if q < n {
      assert objects[q..n][0] == objects[q];
      ContiguousOrder(objects, q, n);
      ContiguousAt(objects, q);
      SealedSpan(objects[q]);
    }
  }

  /** The stretch objects[p..q] is what the slice touches; everything before ends too early, everything after starts too late. */
  predicate Stretch(objects: seq<RawObject>, lo: nat, hi: nat, p: nat, q: nat) {
    && p <= q <= |objects| && Touching(objects, lo, hi) == objects[p..q]
    && AllBelow(objects[..p], lo) && AllAbove(objects[q..], hi)
  }

  lemma StretchStep(objects: seq<RawObject>, o: RawObject, lo: nat, hi: nat, p: nat, q: nat)
    requires Stretch(objects, lo, hi, p, q)
    ensures Touches(o, lo, hi) && q == |objects| ==> Stretch(objects + [o], lo, hi, p, q + 1)
    ensures o.segment.start > hi ==> Stretch(objects + [o], lo, hi, p, q)
  {
    var more := objects + [o];
    assert more[..|objects|] == objects;
    assert more[..p] == objects[..p] && more[q..] == objects[q..] + [o];
    assert more[p..q] == objects[p..q];
    if q == |objects| {
      assert more[p..q + 1] == objects[p..q] + [o] && more[q + 1..] == [];
    }
  }

  /** A slice touches one stretch of a contiguous run of segments. */
  lemma {:induction false} TouchingIsSlice(objects: seq<RawObject>, lo: nat, hi: nat) returns (p: nat, q: nat)
    requires Contiguous(objects) && lo <= hi
    ensures Stretch(objects, lo, hi, p, q)
  {
    hide Sealed, Follows;
    if objects == [] {
      p, q := 0, 0;
    } else {
      var n := |objects| - 1;
      p, q := TouchingIsSlice(objects[..n], lo, hi);
      StretchStep(objects[..n], objects[n], lo, hi, p, q);
      assert objects[..n] + [objects[n]] == objects;
      if Touches(objects[n], lo, hi) {
        assert objects[..n][q..] == objects[q..n];
        NothingAboveLast(objects, q, hi);
        q := n + 1;
      } else if objects[n].segment.start <= hi {
        EverythingBelow(objects, lo);
        TouchingNone(objects, lo, hi);
        p, q := n + 1, n + 1;
        assert objects[..p] == objects;
      }
    }
  }

  lemma EverythingBelow(objects: seq<RawObject>, lo: nat)
    requires Contiguous(objects) && objects != [] && objects[|objects| - 1].segment.last < lo
    ensures AllBelow(objects, lo)
  {
    hide Sealed, Contiguous;
    var n := |objects| - 1;
    forall i | 0 <= i < |objects| ensures objects[i].segment.last < lo {
      if i < n {
        ContiguousOrder(objects, i, n);
        ContiguousAt(objects, n);
        SealedSpan(objects[n]);
      }
    }
  }

  lemma {:induction false} TouchingNone(objects: seq<RawObject>, lo: nat, hi: nat)
    requires AllBelow(objects, lo)
    ensures Touching(objects, lo, hi) == []
  {
    if objects != [] {
      TouchingNone(objects[..|objects| - 1], lo, hi);
    }
  }

  // ---- Walking along the slice ----

  datatype Walk = Walking(expected: nat, previous: Digest) | Reached(root: Digest) | Broken

  function Visit(w: Walk, e: W.Entry, lo: nat, hi: nat): Walk {
    if !w.Walking? || e.sequence < lo || e.sequence > hi then w
    else if e.sequence != w.expected || e.previous != w.previous then Broken
    else if e.sequence == hi then Reached(e.entryHash)
    else Walking(w.expected + 1, e.entryHash)
  }

  function WalkAlong(items: seq<Item>, lo: nat, hi: nat, root: Digest): Walk {
    if items == [] then Walking(lo, root)
    else Visit(WalkAlong(items[..|items| - 1], lo, hi, root), items[|items| - 1].entry, lo, hi)
  }

  lemma {:induction false} WalkStays(items: seq<Item>, more: seq<Item>, lo: nat, hi: nat, root: Digest)
    requires !WalkAlong(items, lo, hi, root).Walking?
    ensures WalkAlong(items + more, lo, hi, root) == WalkAlong(items, lo, hi, root)
  {
    if more == [] {
      assert items + more == items;
    } else {
      WalkStays(items, more[..|more| - 1], lo, hi, root);
      assert (items + more)[..|items + more| - 1] == items + more[..|more| - 1];
    }
  }

  lemma WalkStep(items: seq<Item>, it: Item, lo: nat, hi: nat, root: Digest)
    ensures WalkAlong(items + [it], lo, hi, root) == Visit(WalkAlong(items, lo, hi, root), it.entry, lo, hi)
  {
    assert (items + [it])[..|items|] == items;
  }

  /** Beyond the end of the slice nothing happens any more. */
  lemma {:induction false} WalkBeyond(items: seq<Item>, more: seq<Item>, lo: nat, hi: nat, root: Digest)
    requires forall i :: 0 <= i < |more| ==> more[i].entry.sequence > hi
    ensures WalkAlong(items + more, lo, hi, root) == WalkAlong(items, lo, hi, root)
  {
    if more == [] {
      assert items + more == items;
    } else {
      WalkBeyond(items, more[..|more| - 1], lo, hi, root);
      assert (items + more)[..|items + more| - 1] == items + more[..|more| - 1];
    }
  }

  /** The inner loop of the walk, over one segment; it leaves the segment at the first entry beyond the slice. */
  method WalkSegment(o: RawObject, w: Walk, lo: nat, hi: nat, ghost done: seq<Item>, ghost root: Digest) returns (r: Walk)
    requires Sealed(o) && w.Walking? && w == WalkAlong(done, lo, hi, root)
    ensures r == WalkAlong(done + ItemsOf(o), lo, hi, root)
  {
    hide WalkAlong, Chained;
    ghost var here := ItemsOf(o);
    var expected, previous := w.expected, w.previous;
    assert done + here[..0] == done;
    for j := 0 to |o.segment.entries|
      invariant WalkAlong(done + here[..j], lo, hi, root) == Walking(expected, previous)
    {
      var entry := o.segment.entries[j];
      WalkStep(done + here[..j], here[j], lo, hi, root);
      assert done + here[..j + 1] == (done + here[..j]) + [here[j]];
      assert done + here == (done + here[..j + 1]) + here[j + 1..];
      if entry.sequence < lo {
        continue;
      }
      if entry.sequence > hi {
        assert done + here == (done + here[..j]) + here[j..];
        forall i | 0 <= i < |here[j..]| ensures here[j..][i].entry.sequence > hi {
          ChainedAt(here, j, j + i);
        }
        WalkBeyond(done + here[..j], here[j..], lo, hi, root);
        return Walking(expected, previous);
      }
      if entry.sequence != expected || entry.previous != previous {
        WalkStays(done + here[..j + 1], here[j + 1..], lo, hi, root);
        return Broken;
      }
      if entry.sequence == hi {
        WalkStays(done + here[..j + 1], here[j + 1..], lo, hi, root);
        return Reached(entry.entryHash);
      }
      expected, previous := expected + 1, entry.entryHash;
    }
    assert here[..|here|] == here;
    return Walking(expected, previous);
  }

  method WalkSlice(objects: seq<RawObject>, lo: nat, hi: nat, root: Digest) returns (w: Walk)
    requires forall i :: 0 <= i < |objects| ==> Sealed(objects[i])
    ensures w == WalkAlong(Items(objects), lo, hi, root)
  {
    hide WalkAlong, Sealed, Items;
    w := Walking(lo, root);
    EmptyWalk(lo, hi, root);
    for i := 0 to |objects|
      invariant w.Walking? && w == WalkAlong(Items(objects[..i]), lo, hi, root)
    {
      w := WalkSegment(objects[i], w, lo, hi, Items(objects[..i]), root);
      ItemsStep(objects[..i], objects[i]);
      assert objects[..i + 1] == objects[..i] + [objects[i]];
      if !w.Walking? {
        ItemsConcat(objects[..i + 1], objects[i + 1..]);
        assert objects == objects[..i + 1] + objects[i + 1..];
        WalkStays(Items(objects[..i + 1]), Items(objects[i + 1..]), lo, hi, root);
        return;
      }
    }
    assert objects[..|objects|] == objects;
  }

  lemma EmptyWalk(lo: nat, hi: nat, root: Digest)
    ensures Items([]) == [] && WalkAlong([], lo, hi, root) == Walking(lo, root)
  {
  }

  /** What the walk establishes about a chain: it contains the slice, which begins after `root` and ends in `end`. */
  predicate SliceInside(items: seq<Item>, lo: nat, hi: nat, root: Digest, end: Digest) {
    && items != [] && items[0].entry.sequence <= lo <= hi <= items[|items| - 1].entry.sequence
    && hi - items[0].entry.sequence < |items|
    && items[lo - items[0].entry.sequence].entry.previous == root
    && items[hi - items[0].entry.sequence].entry.entryHash == end
  }

  /** The state of the walk after the first `k` entries of a chain. */
  lemma {:induction false} WalkState(items: seq<Item>, lo: nat, hi: nat, root: Digest, k: nat)
    requires Chained(items) && items != [] && lo <= hi && k <= |items|
    ensures var s, w := items[0].entry.sequence, WalkAlong(items[..k], lo, hi, root);
            if s + k <= lo || s > hi then w == Walking(lo, root)
            else if s > lo || items[lo - s].entry.previous != root then w == if k == 0 then Walking(lo, root) else Broken
            else if s + k <= hi then w == Walking(s + k, items[k - 1].entry.entryHash)
            else hi - s < |items| && w == Reached(items[hi - s].entry.entryHash)
  {
    hide Chained;
    if k > 0 {
      WalkState(items, lo, hi, root, k - 1);
      assert items[..k][..k - 1] == items[..k - 1];
      ChainedAt(items, 0, k - 1);
      ChainedAt(items, k - 1, k - 1);
    }
  }

  lemma WalkMeans(items: seq<Item>, lo: nat, hi: nat, root: Digest, end: Digest)
    requires Chained(items) && lo <= hi
    ensures WalkAlong(items, lo, hi, root) == Reached(end) <==> SliceInside(items, lo, hi, root, end)
  {
    hide Chained;
    if items != [] {
      WalkState(items, lo, hi, root, |items|);
      ChainedAt(items, 0, |items| - 1);
      assert items[..|items|] == items;
    }
  }
}
