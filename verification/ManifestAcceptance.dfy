/** What an accepted manifest says about its day. */
module ManifestAcceptance {
  import opened Protocol
  import opened Digests
  import opened Counting
  import opened DaySelection
  import opened DayCoordinates
  import opened DaySlices
  import opened Segments
  import opened Manifest
  import opened ManifestTheorems

  // ---- Acceptance ----

  /** Entries x..y of the first k. */
  function Cut(items: seq<Item>, x: nat, y: nat, k: nat): seq<Item>
    requires x <= y <= |items| && k <= |items|
  {
    if k <= x then [] else if k <= y then items[x..k] else items[x..y]
  }

  lemma {:induction false} BoundedPrefix(items: seq<Item>, day: int, x: nat, y: nat, maxRecords: nat, k: nat)
    requires Chained(items) && x < y <= |items| && k <= |items|
    ensures Derive(items[..k], day, items[x].entry.sequence, items[y - 1].entry.sequence, maxRecords)
            == Derive(Cut(items, x, y, k), day, 0, 0, maxRecords)
  {
    hide Chained, Absorb, Derive, Cut, Skipped;
    if k == 0 {
      CutNothing(items, x, y);
      EmptyDerive(day, items[x].entry.sequence, items[y - 1].entry.sequence, maxRecords);
      EmptyDerive(day, 0, 0, maxRecords);
    } else {
      BoundedPrefix(items, day, x, y, maxRecords, k - 1);
      DeriveStep(items[..k - 1], items[k - 1], day, items[x].entry.sequence, items[y - 1].entry.sequence, maxRecords);
      DeriveStep(Cut(items, x, y, k - 1), items[k - 1], day, 0, 0, maxRecords);
      CutStep(items, x, y, k - 1);
      CutExtends(items, x, y, k - 1);
    }
  }

  /** The next entry is skipped exactly when it is outside the cut. */
  lemma CutStep(items: seq<Item>, x: nat, y: nat, k: nat)
    requires Chained(items) && x < y <= |items| && k < |items|
    ensures !Skipped(items[k], 0, 0)
    ensures Skipped(items[k], items[x].entry.sequence, items[y - 1].entry.sequence) <==> !(x <= k < y)
  {
    hide Chained;
    ChainedAt(items, x, y - 1);
    if k < x {
      ChainedAt(items, k, x);
    } else {
      ChainedAt(items, x, k);
      if k < y {
        ChainedAt(items, k, y - 1);
      } else {
        ChainedAt(items, y - 1, k);
      }
    }
  }

  lemma CutExtends(items: seq<Item>, x: nat, y: nat, k: nat)
    requires x < y <= |items| && k < |items|
    ensures items[..k + 1] == items[..k] + [items[k]]
    ensures Cut(items, x, y, k + 1) == if x <= k < y then Cut(items, x, y, k) + [items[k]] else Cut(items, x, y, k)
  {
  }

  lemma CutNothing(items: seq<Item>, x: nat, y: nat)
    requires x <= y <= |items|
    ensures Cut(items, x, y, 0) == [] && items[..0] == []
  {
  }

  /** `slice` is the stretch of a chain from sequence `lo` to sequence `hi`. */
  predicate IsSlice(items: seq<Item>, lo: nat, hi: nat, slice: seq<Item>) {
    && items != [] && items[0].entry.sequence <= lo <= hi && hi - items[0].entry.sequence < |items|
    && slice == items[lo - items[0].entry.sequence..hi - items[0].entry.sequence + 1]
  }

  /**
   What acceptance establishes: the supplied objects form a chain, and the manifest's ranges are exactly the
   day's coordinates between the two ends of its slice, as maximal runs in ascending order.
   */
  lemma AcceptedMeans(m: Manifest, objects: seq<RawObject>, scope: Scope) returns (vs: seq<RawObject>, slice: seq<Item>)
    requires SnapshotAccepted(m, objects, scope)
    requires forall i :: 0 <= i < |objects| ==> SegmentVerified(objects[i])
    ensures Contiguous(vs) && Descriptors(vs) == m.chain && forall i :: 0 <= i < |vs| ==> vs[i] in objects
    ensures AllSingle(m.objects) && Denoted(m.objects) == Coordinates(slice, m.day) && MaximalRuns(m.objects)
    ensures m.chain == [] ==> vs == [] && slice == []
    ensures m.chain != [] ==>
              && IsSlice(Items(vs), m.startSequence, m.endSequence, slice)
              && m.startRoot == slice[0].entry.previous && m.endRoot == slice[|slice| - 1].entry.entryHash
              && !Quiet(slice[0], m.day) && !Quiet(slice[|slice| - 1], m.day)
  {
    if m.chain == [] {
      vs, slice := [], [];
      EmptyAccepted(m, scope);
    } else {
      hide Valid, AllLabelled, Arrange, Items, Rederived, Contiguous, AllSingle, MaximalRuns, Quiet, ManifestDigest, Denoted, Coordinates, IsSlice;
      vs := Arrange(m.chain, objects, |m.chain|).value;
      AcceptedChain(m, objects, scope);
      slice := SliceMeans(m, vs, scope.maxRecords);
    }
  }

  lemma EmptyAccepted(m: Manifest, scope: Scope)
    requires Trusted(m, scope) && m.chain == []
    ensures Contiguous([]) && Descriptors([]) == m.chain
    ensures AllSingle(m.objects) && Denoted(m.objects) == Coordinates([], m.day) && MaximalRuns(m.objects)
  {
    hide ManifestDigest, RawSetRoot;
    NothingDenotesNothing();
    NothingIsMaximal();
  }

  lemma SliceMeans(m: Manifest, vs: seq<RawObject>, maxRecords: nat) returns (slice: seq<Item>)
    requires Contiguous(vs) && Rederived(m, vs, maxRecords) && m.startSequence <= m.endSequence
    ensures IsSlice(Items(vs), m.startSequence, m.endSequence, slice)
    ensures AllSingle(m.objects) && Denoted(m.objects) == Coordinates(slice, m.day) && MaximalRuns(m.objects)
    ensures m.startRoot == slice[0].entry.previous && m.endRoot == slice[|slice| - 1].entry.entryHash
    ensures !Quiet(slice[0], m.day) && !Quiet(slice[|slice| - 1], m.day)
  {
    hide Items, Derive, WalkAlong, Contiguous, Chained, AllSingle, MaximalRuns, Quiet, ChainFor, Denoted, Coordinates, SelectionIs,
         Rederived, SliceInside;
    var items := Items(vs);
    ContiguousItems(vs);
    RederivedParts(m, vs, maxRecords);
    WalkMeans(items, m.startSequence, m.endSequence, m.startRoot, m.endRoot);
    slice := InsideIsSlice(items, m.startSequence, m.endSequence, m.startRoot, m.endRoot);
    SliceSelection(m, items, m.startSequence - items[0].entry.sequence, m.endSequence - items[0].entry.sequence + 1, maxRecords);
  }

  lemma RederivedParts(m: Manifest, vs: seq<RawObject>, maxRecords: nat)
    requires Rederived(m, vs, maxRecords)
    ensures WalkAlong(Items(vs), m.startSequence, m.endSequence, m.startRoot) == Reached(m.endRoot)
    ensures var s := Derive(Items(vs), m.day, m.startSequence, m.endSequence, maxRecords); s.Some? && SelectionIs(m, s.value)
  {
  }

  lemma InsideIsSlice(items: seq<Item>, lo: nat, hi: nat, root: Digest, end: Digest) returns (slice: seq<Item>)
    requires SliceInside(items, lo, hi, root, end)
    ensures IsSlice(items, lo, hi, slice) && slice[0].entry.previous == root && slice[|slice| - 1].entry.entryHash == end
  {
    slice := items[lo - items[0].entry.sequence..hi - items[0].entry.sequence + 1];
  }

  lemma AcceptedChain(m: Manifest, objects: seq<RawObject>, scope: Scope)
    requires SnapshotAccepted(m, objects, scope) && m.chain != []
    requires forall i :: 0 <= i < |objects| ==> SegmentVerified(objects[i])
    ensures var vs := Arrange(m.chain, objects, |m.chain|).value;
            Contiguous(vs) && Descriptors(vs) == m.chain && forall i :: 0 <= i < |vs| ==> vs[i] in objects
    ensures m.startSequence <= m.endSequence
  {
    hide SegmentVerified, Labelled, AllLabelled, Ordered, RawSetRoot, RangesHeld, Arrange, ChainInOrder, Contiguous, Rederived, ManifestDigest;
    forall i | 0 <= i < |objects| ensures Suppliable(objects[i]) {
      AllLabelledAt(objects, i);
    }
    ArrangedAreSealed(m, objects, |m.chain|);
    assert m.chain[..|m.chain|] == m.chain;
  }

  lemma SliceSelection(m: Manifest, items: seq<Item>, x: nat, y: nat, maxRecords: nat)
    requires Chained(items) && x < y <= |items| && m.startSequence == items[0].entry.sequence + x && m.endSequence == items[0].entry.sequence + y - 1
    requires var s := Derive(items, m.day, m.startSequence, m.endSequence, maxRecords); s.Some? && SelectionIs(m, s.value)
    ensures AllSingle(m.objects) && Denoted(m.objects) == Coordinates(items[x..y], m.day) && MaximalRuns(m.objects)
    ensures !Quiet(items[x], m.day) && !Quiet(items[y - 1], m.day)
  {
    hide Derive, Chained, AllSingle, MaximalRuns, Quiet, Coordinates, Denoted;
    ChainedAt(items, 0, x);
    ChainedAt(items, 0, y - 1);
    BoundedPrefix(items, m.day, x, y, maxRecords, |items|);
    assert items[..|items|] == items && Cut(items, x, y, |items|) == items[x..y];
    SelectionDenotesTheDay(items[x..y], m.day, maxRecords);
    ChainedStretch(items, x, y);
    ChainedNumbered(items[x..y]);
    SelectionIsMaximal(items[x..y], m.day, maxRecords);
    var a, b := SliceBounds(items[x..y], m.day, maxRecords);
    assert items[x..y][a] == items[x + a] && items[x..y][b] == items[x + b];
    ChainedAt(items, x, x + a);
    ChainedAt(items, x + b, y - 1);
  }

  lemma {:induction false} ChainedStretch(items: seq<Item>, x: nat, y: nat)
    requires Chained(items) && x <= y <= |items|
    ensures Chained(items[x..y])
    decreases y
  {
    hide Chained;
    if x < y {
      ChainedStretch(items, x, y - 1);
      ChainedAt(items, y - 1, y - 1);
      if x < y - 1 {
        ChainedAt(items, y - 2, y - 1);
      }
      ChainedAppend(items[x..y - 1], items[y - 1]);
      assert items[x..y] == items[x..y - 1] + [items[y - 1]];
    } else {
      ChainedNothing();
      assert items[x..y] == [];
    }
  }

  lemma ChainedAppend(items: seq<Item>, it: Item)
    requires Chained(items) && 1 <= it.entry.sequence
    requires items != [] ==> var l := items[|items| - 1].entry; it.entry.sequence == l.sequence + 1 && it.entry.previous == l.entryHash
    ensures Chained(items + [it])
  {
    assert (items + [it])[..|items|] == items;
  }

  lemma ChainedNothing()
    ensures Chained([])
  {
  }

  // ---- The whole day ----

  predicate Inside(m: Manifest, it: Item) {
    m.startSequence <= it.entry.sequence <= m.endSequence
  }

  /**
   Entries of the chain objects outside the slice are not looked at. So the ranges of an accepted manifest
   are the coordinates of the day in all its chain objects if and only if no entry outside the slice
   holds anything of the day.
   */
  lemma AcceptedIsTheDayIff(m: Manifest, objects: seq<RawObject>, scope: Scope) returns (vs: seq<RawObject>)
    requires SnapshotAccepted(m, objects, scope)
    requires forall i :: 0 <= i < |objects| ==> SegmentVerified(objects[i])
    ensures Contiguous(vs) && Descriptors(vs) == m.chain && forall i :: 0 <= i < |vs| ==> vs[i] in objects
    ensures AllSingle(m.objects)
    ensures Denoted(m.objects) == Coordinates(Items(vs), m.day) <==>
            forall k :: 0 <= k < |Items(vs)| && !Inside(m, Items(vs)[k]) ==> Quiet(Items(vs)[k], m.day)
  {
    hide SnapshotAccepted, SegmentVerified, Contiguous, Quiet, Coordinates, Denoted, AllSingle, MaximalRuns, Chained, Items, Inside, IsSlice;
    var slice;
    vs, slice := AcceptedMeans(m, objects, scope);
    if m.chain == [] {
      EmptyDerive(m.day, 0, 0, 0);
    } else {
      ContiguousItems(vs);
      SliceIsTheDayIff(m, Items(vs), slice);
    }
  }

  lemma SliceIsTheDayIff(m: Manifest, items: seq<Item>, slice: seq<Item>)
    requires Chained(items) && IsSlice(items, m.startSequence, m.endSequence, slice)
    ensures Coordinates(slice, m.day) == Coordinates(items, m.day) <==>
            forall k :: 0 <= k < |items| && !Inside(m, items[k]) ==> Quiet(items[k], m.day)
  {
    hide Coordinates, Chained, Quiet;
    var x, y := m.startSequence - items[0].entry.sequence, m.endSequence - items[0].entry.sequence + 1;
    CoordinatesBeside(items, x, y, m.day);
    forall k | 0 <= k < |items| ensures Inside(m, items[k]) <==> x <= k < y {
      ChainedAt(items, 0, k);
    }
    assert forall k :: 0 <= k < x ==> items[..x][k] == items[k];
    assert forall k :: y <= k < |items| ==> items[y..][k - y] == items[k];
  }

  /** A stretch has all the coordinates exactly if there are none before and behind it. */
  lemma CoordinatesBeside(items: seq<Item>, x: nat, y: nat, day: int)
    requires x <= y <= |items|
    ensures Coordinates(items[x..y], day) == Coordinates(items, day) <==> AllQuiet(items[..x], day) && AllQuiet(items[y..], day)
  {
    hide Coordinates, AllQuiet;
    assert items == items[..x] + (items[x..y] + items[y..]);
    CoordinatesConcat(items[..x], items[x..y] + items[y..], day);
    CoordinatesConcat(items[x..y], items[y..], day);
    NoCoordinatesIff(items[..x], day);
    NoCoordinatesIff(items[y..], day);
    var a, b, c := Coordinates(items[..x], day), Coordinates(items[x..y], day), Coordinates(items[y..], day);
    assert |a + (b + c)| == |a| + |b| + |c|;
    if a == [] && c == [] {
      assert a + (b + c) == b;
    }
  }
}
