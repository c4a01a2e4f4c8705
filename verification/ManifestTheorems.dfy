/** A manifest that was built is a manifest that verifies, and revisions only grow. */
module ManifestTheorems {
  import opened Protocol
  import opened Digests
  import opened Counting
  import opened DaySelection
  import opened DayCoordinates
  import opened DaySlices
  import opened Segments
  import opened Manifest

  // ---- From all segments to the ones that the slice touches ----

  /** The entries of objects[p..q], as a stretch of all entries. */
  lemma StretchItems(objects: seq<RawObject>, p: nat, q: nat) returns (x: nat, y: nat)
    requires p <= q <= |objects|
    ensures var items := Items(objects);
            && x <= y <= |items| && Items(objects[..p]) == items[..x] && Items(objects[p..q]) == items[x..y]
            && Items(objects[q..]) == items[y..]
  {
    hide Items;
    ItemsConcat(objects[..p], objects[p..q]);
    assert objects[..p] + objects[p..q] == objects[..q];
    ItemsConcat(objects[..q], objects[q..]);
    assert objects[..q] + objects[q..] == objects;
    x := |Items(objects[..p])|;
    y := x + |Items(objects[p..q])|;
  }

  /** Entries of objects that end before the slice come before its first entry. */
  lemma LeftOfSlice(objects: seq<RawObject>, lo: nat, a: nat, p: nat, x: nat)
    requires Contiguous(objects) && p <= |objects| && AllBelow(objects[..p], lo)
    requires x <= |Items(objects)| && Items(objects[..p]) == Items(objects)[..x]
    requires a < |Items(objects)| && Items(objects)[a].entry.sequence == lo
    ensures x <= a
  {
    hide Contiguous, Items, Chained;
    if x > a {
      var items := Items(objects);
      if p == 0 {
        EmptyWalk(0, 0, Zero);
      } else {
        ContiguousSlice(objects, 0, p);
        ContiguousItems(objects[..p]);
        ContiguousItems(objects);
        ChainedAt(items, a, x - 1);
      }
    }
  }

  lemma RightOfSlice(objects: seq<RawObject>, hi: nat, b: nat, q: nat, y: nat)
    requires Contiguous(objects) && q <= |objects| && AllAbove(objects[q..], hi)
    requires y <= |Items(objects)| && Items(objects[q..]) == Items(objects)[y..]
    requires b < |Items(objects)| && Items(objects)[b].entry.sequence == hi
    ensures b < y
  {
    hide Contiguous, Items, Chained;
    EmptyWalk(0, 0, Zero);
    assert q == |objects| ==> objects[q..] == [];
    if y <= b {
      var items := Items(objects);
      if q < |objects| {
        ContiguousSlice(objects, q, |objects|);
        assert objects[q..|objects|] == objects[q..];
        ContiguousItems(objects[q..]);
        ContiguousItems(objects);
        ChainedAt(items, y, b);
      }
    }
  }

  lemma QuietBefore(items: seq<Item>, day: int, a: nat, x: nat)
    requires x <= a <= |items| && AllQuiet(items[..a], day)
    ensures AllQuiet(items[..x], day) && forall i :: 0 <= i < a ==> Quiet(items[i], day)
  {
    hide Quiet;
    assert forall i :: 0 <= i < a ==> items[..a][i] == items[i];
  }

  lemma QuietAfter(items: seq<Item>, day: int, b: nat, y: nat)
    requires b <= y <= |items| && AllQuiet(items[b..], day)
    ensures AllQuiet(items[y..], day) && forall i :: b <= i < |items| ==> Quiet(items[i], day)
  {
    hide Quiet;
    forall i | b <= i < |items| ensures Quiet(items[i], day) {
      assert items[b..][i - b] == items[i];
    }
  }

  /** The slice lies within the touched objects, and what lies outside them is quiet. */
  lemma TouchedSlice(objects: seq<RawObject>, day: int, s: Selection, a: nat, b: nat, p: nat, q: nat) returns (x: nat, y: nat)
    requires Contiguous(objects) && SliceAt(Items(objects), day, s, a, b)
    requires Stretch(objects, s.startSequence, s.endSequence, p, q)
    ensures p <= q <= |objects|
    ensures var items := Items(objects);
            && Chained(items) && x <= a <= b < y <= |items| && Items(objects[p..q]) == items[x..y]
            && AllQuiet(items[..x], day) && AllQuiet(items[y..], day)
  {
    hide Contiguous, Items, Chained, Touching, AllQuiet, Quiet, AllBelow, AllAbove;
    x, y := StretchItems(objects, p, q);
    ContiguousItems(objects);
    LeftOfSlice(objects, s.startSequence, a, p, x);
    RightOfSlice(objects, s.endSequence, b, q, y);
    QuietBefore(Items(objects), day, a, x);
    QuietAfter(Items(objects), day, b + 1, y);
  }

  /** Rederiving from the touched objects alone, within the slice, gives the selection back. */
  lemma RederivedFromSlice(objects: seq<RawObject>, day: int, s: Selection, a: nat, b: nat, p: nat, q: nat, maxRecords: nat)
    requires Contiguous(objects) && Derive(Items(objects), day, 0, 0, maxRecords) == Some(s)
    requires SliceAt(Items(objects), day, s, a, b) && Stretch(objects, s.startSequence, s.endSequence, p, q)
    ensures var vs := Items(objects[p..q]);
            && Derive(vs, day, s.startSequence, s.endSequence, maxRecords) == Some(s)
            && WalkAlong(vs, s.startSequence, s.endSequence, s.startRoot) == Reached(s.endRoot)
  {
    hide Contiguous, Items, Chained, Quiet, Derive, Skipped, WalkAlong, Stretch;
    var items := Items(objects);
    var x, y := TouchedSlice(objects, day, s, a, b, p, q);
    var vs := items[x..y];
    DeriveSucceedsIff(items, day, maxRecords);
    assert items == items[..x] + (vs + items[y..]);
    QuietPrefix(items[..x], vs + items[y..], day, maxRecords);
    QuietSuffix(vs, items[y..], day, maxRecords);
    OutsideIsQuiet(items, day, s, a, b, x, y);
    BoundsDoNotMatter(vs, day, s.startSequence, s.endSequence, maxRecords);
    ContiguousSlice(objects, p, q);
    ContiguousItems(objects[p..q]);
    SliceIsInside(items, s, a, b, x, y);
    WalkMeans(vs, s.startSequence, s.endSequence, s.startRoot, s.endRoot);
  }

  lemma OutsideIsQuiet(items: seq<Item>, day: int, s: Selection, a: nat, b: nat, x: nat, y: nat)
    requires Chained(items) && SliceAt(items, day, s, a, b) && x <= a <= b < y <= |items|
    ensures forall i :: 0 <= i < y - x ==> Skipped(items[x..y][i], s.startSequence, s.endSequence) ==> Quiet(items[x..y][i], day)
  {
    hide Chained, Quiet;
    forall i | 0 <= i < y - x && Skipped(items[x..y][i], s.startSequence, s.endSequence)
      ensures Quiet(items[x..y][i], day)
    {
      var k := x + i;
      if k < a {
        QuietBefore(items, day, a, a);
      } else if k <= b {
        ChainedAt(items, a, k);
        ChainedAt(items, k, b);
      } else {
        QuietAfter(items, day, b + 1, b + 1);
      }
    }
  }

  lemma SliceIsInside(items: seq<Item>, s: Selection, a: nat, b: nat, x: nat, y: nat)
    requires Chained(items) && x <= a <= b < y <= |items|
    requires s.startSequence == items[a].entry.sequence && s.startRoot == items[a].entry.previous
    requires s.endSequence == items[b].entry.sequence && s.endRoot == items[b].entry.entryHash
    ensures SliceInside(items[x..y], s.startSequence, s.endSequence, s.startRoot, s.endRoot)
    ensures s.startSequence <= s.endSequence
  {
    hide Chained;
    ChainedAt(items, x, a);
    ChainedAt(items, a, b);
    ChainedAt(items, b, y - 1);
    var vs := items[x..y];
    assert vs[0] == items[x] && vs[a - x] == items[a] && vs[b - x] == items[b] && vs[|vs| - 1] == items[y - 1];
  }

  lemma {:induction false} TouchingTouches(objects: seq<RawObject>, lo: nat, hi: nat)
    ensures forall i :: 0 <= i < |Touching(objects, lo, hi)| ==> Touches(Touching(objects, lo, hi)[i], lo, hi)
    ensures forall i :: 0 <= i < |Touching(objects, lo, hi)| ==> Touching(objects, lo, hi)[i] in objects
  {
    hide Touches;
    if objects != [] {
      TouchingTouches(objects[..|objects| - 1], lo, hi);
    }
  }

  lemma {:induction false} TouchingAll(objects: seq<RawObject>, lo: nat, hi: nat)
    requires forall i :: 0 <= i < |objects| ==> Touches(objects[i], lo, hi)
    ensures Touching(objects, lo, hi) == objects
  {
    hide Touches;
    if objects != [] {
      var n := |objects| - 1;
      TouchingAll(objects[..n], lo, hi);
      assert objects == objects[..n] + [objects[n]];
    }
  }

  // ---- The ranges are well formed ----

  /** An entry of a well-labelled object. */
  predicate Good(it: Item) {
    it.key == WalKey(it.sha) && it.bytes != 0 && 1 <= it.entry.sequence
  }

  /** Object `j` holds entry `it`. */
  predicate OwnedBy(objects: seq<RawObject>, it: Item, j: int) {
    && 0 <= j < |objects| && it.key == objects[j].key && it.sha == objects[j].sha && it.bytes == objects[j].bytes
    && objects[j].segment.start <= it.entry.sequence <= objects[j].segment.last
  }

  lemma {:induction false} Owner(objects: seq<RawObject>, i: nat) returns (j: nat)
    requires Contiguous(objects) && i < |Items(objects)|
    ensures OwnedBy(objects, Items(objects)[i], j) && Good(Items(objects)[i])
  {
    hide Chained;
    var n := |objects| - 1;
    var before := Items(objects[..n]);
    if i < |before| {
      j := Owner(objects[..n], i);
      assert Items(objects)[i] == before[i];
    } else {
      j := n;
      var here, k := ItemsOf(objects[n]), i - |before|;
      ChainedAt(here, 0, k);
      ChainedAt(here, k, |here| - 1);
      assert Items(objects)[i] == here[k];
    }
  }

  /** A range cut from entry `i`. */
  predicate CutFrom(items: seq<Item>, day: int, r: Range, i: int) {
    && 0 <= i < |items| && !Quiet(items[i], day) && r.key == items[i].key && r.sha == items[i].sha && r.bytes == items[i].bytes
    && r.start == r.end == items[i].entry.sequence
  }

  lemma {:induction false} RangesAreCut(items: seq<Item>, day: int, maxRecords: nat, k: nat) returns (i: nat)
    requires Derive(items, day, 0, 0, maxRecords).Some? && k < |Derive(items, day, 0, 0, maxRecords).value.objects|
    ensures CutFrom(items, day, Derive(items, day, 0, 0, maxRecords).value.objects[k], i)
  {
    hide Quiet, Observe, Runs;
    var n := |items| - 1;
    var before := Derive(items[..n], day, 0, 0, maxRecords).value.objects;
    if k < |before| {
      i := RangesAreCut(items[..n], day, maxRecords, k);
    } else {
      i := n;
    }
  }

  lemma {:induction false} OrderedFromMaximal(rs: seq<Range>)
    requires MaximalRuns(rs) && forall k :: 0 <= k < |rs| ==> RangeValid(rs[k])
    ensures Ordered(rs)
  {
    hide RangeValid;
    if rs != [] {
      OrderedFromMaximal(rs[..|rs| - 1]);
    }
  }

  lemma MaximalAt(rs: seq<Range>, k: nat)
    requires MaximalRuns(rs) && k < |rs|
    ensures Single(rs[k])
    decreases |rs|
  {
    if k < |rs| - 1 {
      MaximalAt(rs[..|rs| - 1], k);
    }
  }

  /** What is selected from contiguous objects passes the range checks. */
  lemma SelectedRangesAreOrdered(objects: seq<RawObject>, day: int, maxRecords: nat)
    requires Contiguous(objects) && Derive(Items(objects), day, 0, 0, maxRecords).Some?
    ensures var rs := Derive(Items(objects), day, 0, 0, maxRecords).value.objects;
            Ordered(rs) && forall k :: 0 <= k < |rs| ==> RangeValid(rs[k])
  {
    hide Contiguous, Items, Derive, Chained, MaximalRuns, Ordered, Quiet;
    var items := Items(objects);
    var rs := Derive(items, day, 0, 0, maxRecords).value.objects;
    ContiguousItems(objects);
    ChainedNumbered(items);
    SelectionIsMaximal(items, day, maxRecords);
    forall k | 0 <= k < |rs| ensures RangeValid(rs[k]) {
      var i := RangesAreCut(items, day, maxRecords, k);
      var j := Owner(objects, i);
      MaximalAt(rs, k);
    }
    OrderedFromMaximal(rs);
  }

  // ---- The chain is well formed ----

  lemma DescriptorValid(m: Manifest, o: RawObject)
    requires Sealed(o) && Touches(o, m.startSequence, m.endSequence)
    ensures ChainObjectValid(m, DescriptorOf(o))
  {
    SealedSpan(o);
    ChainedAt(ItemsOf(o), 0, 0);
  }

  lemma {:induction false} ChainIsInOrder(m: Manifest, vs: seq<RawObject>, n: nat)
    requires Contiguous(vs) && m.chain == Descriptors(vs) && n <= |vs| && AllDistinct(Keys(vs))
    requires forall i :: 0 <= i < |vs| ==> Touches(vs[i], m.startSequence, m.endSequence)
    ensures ChainInOrder(m, n)
  {
    hide Contiguous, Touches, ChainObjectValid;
    if n > 0 {
      ChainIsInOrder(m, vs, n - 1);
      ContiguousAt(vs, n - 1);
      DescriptorValid(m, vs[n - 1]);
      var before := ChainKeys(m.chain[..n - 1]);
      forall k | 0 <= k < n - 1 ensures before[k] != m.chain[n - 1].key {
        assert Keys(vs)[k] != Keys(vs)[n - 1];
      }
    }
  }

  lemma {:induction false} RangesAreHeld(m: Manifest, n: nat)
    requires n <= |m.objects| && forall k :: 0 <= k < |m.objects| ==> HasObject(m, m.objects[k])
    ensures RangesHeld(m, n)
  {
    hide HasObject;
    if n > 0 {
      RangesAreHeld(m, n - 1);
    }
  }

  /** A manifest that carries the selection of contiguous objects, and the objects that its slice touches. */
  ghost predicate Carries(m: Manifest, objects: seq<RawObject>, s: Selection, maxRecords: nat) {
    && Contiguous(objects) && Derive(Items(objects), m.day, 0, 0, maxRecords) == Some(s)
    && SelectionIs(m, s) && m.chain == ChainFor(objects, s.startSequence, s.endSequence)
  }

  lemma SelectedIsHeld(m: Manifest, objects: seq<RawObject>, s: Selection, maxRecords: nat, a: nat, b: nat, p: nat, q: nat, k: nat)
    requires Carries(m, objects, s, maxRecords) && SliceAt(Items(objects), m.day, s, a, b) && k < |m.objects|
    requires Stretch(objects, s.startSequence, s.endSequence, p, q) && m.chain == Descriptors(objects[p..q])
    ensures HasObject(m, m.objects[k])
  {
    hide Contiguous, Items, Derive, Chained, Quiet, Touching, ChainFor, Stretch;
    var items := Items(objects);
    var x, y := TouchedSlice(objects, m.day, s, a, b, p, q);
    var i := RangesAreCut(items, m.day, maxRecords, k);
    InsideSlice(items, m.day, s, a, b, i);
    ContiguousSlice(objects, p, q);
    assert items[x..y][i - x] == items[i];
    var j := Owner(objects[p..q], i - x);
    assert RangeHasObject(m, m.objects[k], j);
  }

  /** An entry with something of the day lies within the slice. */
  lemma InsideSlice(items: seq<Item>, day: int, s: Selection, a: nat, b: nat, i: nat)
    requires Chained(items) && SliceAt(items, day, s, a, b) && i < |items| && !Quiet(items[i], day)
    ensures a <= i <= b && s.startSequence <= items[i].entry.sequence <= s.endSequence
  {
    hide Chained, Quiet;
    QuietBefore(items, day, a, a);
    QuietAfter(items, day, b + 1, b + 1);
    ChainedAt(items, a, i);
    ChainedAt(items, i, b);
  }

  lemma CarriedChainIsValid(m: Manifest, objects: seq<RawObject>, s: Selection, maxRecords: nat)
    requires Carries(m, objects, s, maxRecords) && AllDistinct(Keys(objects))
    ensures ChainValid(m) && (s.startSequence == 0 ==> NoSlice(m))
    ensures s.startSequence != 0 ==> m.objects != [] && s.startSequence <= s.endSequence
  {
    hide Contiguous, Items, Derive, Chained, Quiet, ChainInOrder, RangesHeld, HasObject;
    var items := Items(objects);
    ContiguousItems(objects);
    ChainedNumbered(items);
    var a, b := SliceBounds(items, m.day, maxRecords);
    if s.startSequence != 0 {
      ChainedAt(items, a, b);
      var p, q := TouchingIsSlice(objects, s.startSequence, s.endSequence);
      var vs := objects[p..q];
      var x, y := TouchedSlice(objects, m.day, s, a, b, p, q);
      ContiguousSlice(objects, p, q);
      TouchingTouches(objects, s.startSequence, s.endSequence);
      DistinctSlice(objects, p, q);
      ChainIsInOrder(m, vs, |vs|);
      forall k | 0 <= k < |m.objects| ensures HasObject(m, m.objects[k]) {
        SelectedIsHeld(m, objects, s, maxRecords, a, b, p, q, k);
      }
      RangesAreHeld(m, |m.objects|);
      EndsAreInside(vs, items, a, b, x, y);
    }
  }

  lemma DistinctSlice(objects: seq<RawObject>, p: nat, q: nat)
    requires p <= q <= |objects| && AllDistinct(Keys(objects))
    ensures AllDistinct(Keys(objects[p..q]))
  {
    assert Keys(objects[p..q]) == Keys(objects)[p..q];
  }

  /** The touched objects begin with the one that holds the slice's first entry, and end with the one that holds its last. */
  lemma EndsAreInside(vs: seq<RawObject>, items: seq<Item>, a: nat, b: nat, x: nat, y: nat)
    requires Contiguous(vs) && Chained(items) && x <= a <= b < y <= |items| && Items(vs) == items[x..y]
    requires forall i :: 0 <= i < |vs| ==> Touches(vs[i], items[a].entry.sequence, items[b].entry.sequence)
    ensures vs != [] && vs[0].segment.start <= items[a].entry.sequence <= vs[0].segment.last
    ensures vs[|vs| - 1].segment.start <= items[b].entry.sequence <= vs[|vs| - 1].segment.last
  {
    hide Contiguous, Items, Chained;
    if vs == [] {
      EmptyWalk(0, 0, Zero);
    }
    ContiguousItems(vs);
    ChainedAt(items, x, a);
    ChainedAt(items, b, y - 1);
    assert items[x..y][0] == items[x] && items[x..y][y - x - 1] == items[y - 1];
  }

  // ---- Build, then verify ----

  predicate Named(id: Identity) {
    id.dataset != [] && id.dayDefinition != [] && id.publisher != [] && id.settlePolicy != []
  }

  lemma CarriedIsValid(m: Manifest, objects: seq<RawObject>, s: Selection, maxRecords: nat)
    requires Carries(m, objects, s, maxRecords) && AllDistinct(Keys(objects))
    ensures Valid(m) <==> && 1 <= m.revision && Named(m.identity) && (m.revision == 1 <==> m.previous.None?)
                          && RawSetRoot(m.objects) == Some(m.rawSetRoot)
  {
    hide Contiguous, Items, Derive, Ordered, ChainValid, RawSetRoot, ChainFor;
    SelectedRangesAreOrdered(objects, m.day, maxRecords);
    CarriedChainIsValid(m, objects, s, maxRecords);
    EmptySelection(objects, m.day, maxRecords);
  }

  lemma EmptySelection(objects: seq<RawObject>, day: int, maxRecords: nat)
    requires Contiguous(objects) && Derive(Items(objects), day, 0, 0, maxRecords).Some?
    ensures var s := Derive(Items(objects), day, 0, 0, maxRecords).value;
            s.objects == [] <==> s.startSequence == 0
  {
    hide Contiguous, Items, Derive, Quiet;
    ContiguousItems(objects);
    ChainedNumbered(Items(objects));
    var a, b := SliceBounds(Items(objects), day, maxRecords);
  }

  /** The first manifest of a day can be built exactly when no entry and no range count is too large. */
  lemma GenesisBuildsIff(scope: Scope, day: int, objects: seq<RawObject>, shuffled: seq<RawObject>)
    requires Contiguous(objects) && multiset(shuffled) == multiset(objects) && AllDistinct(Keys(objects)) && Named(scope.identity)
    ensures var d := Derive(Items(objects), day, 0, 0, scope.maxRecords);
            && (d.Some? <==> WithinLimit(Items(objects), scope.maxRecords))
            && (Build(scope, day, shuffled, 1, None).Some? <==> d.Some? && |d.value.objects| <= MAX_U32)
  {
    hide Contiguous, Items, Derive, Ordered, ChainFor, InOrder, Valid, ManifestDigest, RangeValid;
    OrderIsFound(objects, shuffled);
    DeriveSucceedsIff(Items(objects), day, scope.maxRecords);
    var d := Derive(Items(objects), day, 0, 0, scope.maxRecords);
    if d.Some? {
      SelectedRangesAreOrdered(objects, day, scope.maxRecords);
      if RawSetRoot(d.value.objects).Some? {
        var draft := Drafted(scope, day, 1, objects, d.value, RawSetRoot(d.value.objects).value);
        CarriedIsValid(draft, objects, d.value, scope.maxRecords);
      }
    }
  }

  /** A built manifest carries the selection of its objects. */
  lemma BuiltCarries(scope: Scope, day: int, objects: seq<RawObject>, shuffled: seq<RawObject>, asked: nat, previous: Option<Manifest>)
    returns (s: Selection)
    requires Contiguous(objects) && multiset(shuffled) == multiset(objects) && AllDistinct(Keys(objects))
    requires Build(scope, day, shuffled, asked, previous).Some?
    ensures var m := Build(scope, day, shuffled, asked, previous).value;
            Carries(m, objects, s, scope.maxRecords) && Trusted(m, scope) && m.sha != Zero && m.day == day
  {
    hide Contiguous, Items, Derive, Ordered, ChainFor, InOrder, Valid, RawSetRoot, PreviousOk;
    OrderIsFound(objects, shuffled);
    s := Derive(Items(objects), day, 0, 0, scope.maxRecords).value;
    var m := Build(scope, day, shuffled, asked, previous).value;
    CarriedIsValid(m, objects, s, scope.maxRecords);
    CarriedIsValid(m.(sha := Zero), objects, s, scope.maxRecords);
    DigestIgnoresItself(m, Zero);
    DigestIsNotZero(m);
  }

  lemma DigestIgnoresItself(m: Manifest, d: Digest)
    ensures ManifestDigest(m.(sha := d)) == ManifestDigest(m)
  {
  }

  lemma DigestIsNotZero(m: Manifest)
    ensures ManifestDigest(m) != Zero
  {
  }

  lemma {:induction false} FindDistinct(objects: seq<RawObject>, i: nat)
    requires i < |objects| && AllDistinct(Keys(objects))
    ensures Find(objects, objects[i].key) == Some(objects[i])
  {
    var n := |objects| - 1;
    if i < n {
      assert Keys(objects)[i] != Keys(objects)[n];
      assert Keys(objects[..n]) == Keys(objects)[..n];
      FindDistinct(objects[..n], i);
    }
  }

  lemma {:induction false} ArrangeFinds(vs: seq<RawObject>, supplied: seq<RawObject>, n: nat)
    requires Contiguous(vs) && n <= |vs| && AllDistinct(Keys(supplied)) && forall i :: 0 <= i < |vs| ==> vs[i] in supplied
    ensures Arrange(Descriptors(vs), supplied, n) == Some(vs[..n])
  {
    hide Contiguous, Follows, DescriptorOf, Find, AllDistinct, Keys;
    if n > 0 {
      ArrangeFinds(vs, supplied, n - 1);
      SuppliedIsFound(supplied, vs[n - 1]);
      DescriptorKey(vs[n - 1]);
      ContiguousAt(vs, n - 1);
      assert vs[..n] == vs[..n - 1] + [vs[n - 1]];
      assert n > 1 ==> vs[..n - 1][n - 2] == vs[n - 2];
    }
  }

  lemma SuppliedIsFound(supplied: seq<RawObject>, o: RawObject)
    requires AllDistinct(Keys(supplied)) && o in supplied
    ensures Find(supplied, o.key) == Some(o)
  {
    hide Find, AllDistinct, Keys;
    var k :| 0 <= k < |supplied| && supplied[k] == o;
    FindDistinct(supplied, k);
  }

  lemma DescriptorKey(o: RawObject)
    ensures DescriptorOf(o).key == o.key
  {
  }

  lemma {:induction false} SealedAreLabelled(vs: seq<RawObject>, supplied: seq<RawObject>)
    requires Contiguous(vs) && forall i :: 0 <= i < |supplied| ==> supplied[i] in vs
    ensures AllLabelled(supplied)
  {
    hide Contiguous, SegmentVerified;
    if supplied != [] {
      var n := |supplied| - 1;
      SealedAreLabelled(vs, supplied[..n]);
      var k :| 0 <= k < |vs| && vs[k] == supplied[n];
      ContiguousAt(vs, k);
      BytesArePositive(vs[k]);
    }
  }

  lemma BytesArePositive(o: RawObject)
    requires Sealed(o)
    ensures 0 < o.bytes
  {
  }

  /** `a` holds the same distinct objects as `b`, in any order. */
  ghost predicate SameObjects(a: seq<RawObject>, b: seq<RawObject>) {
    && |a| == |b| && AllDistinct(Keys(a))
    && (forall i :: 0 <= i < |a| ==> a[i] in b) && (forall i :: 0 <= i < |b| ==> b[i] in a)
  }

  /**
   Build, then verify: a manifest built from all segments of a scope, in whatever order they were listed,
   is accepted by the verifier that is given only the manifest's chain objects, in whatever order.
   */
  lemma BuildThenVerify(scope: Scope, day: int, objects: seq<RawObject>, shuffled: seq<RawObject>, asked: nat,
                        previous: Option<Manifest>, supplied: seq<RawObject>)
    requires Contiguous(objects) && multiset(shuffled) == multiset(objects) && AllDistinct(Keys(objects))
    requires Build(scope, day, shuffled, asked, previous).Some?
    requires var m := Build(scope, day, shuffled, asked, previous).value;
             SameObjects(supplied, if m.chain == [] then [] else Touching(objects, m.startSequence, m.endSequence))
    ensures SnapshotAccepted(Build(scope, day, shuffled, asked, previous).value, supplied, scope)
  {
    hide Build, Contiguous, Items, Derive, Valid, Trusted, Touching, ChainFor;
    var m := Build(scope, day, shuffled, asked, previous).value;
    var s := BuiltCarries(scope, day, objects, shuffled, asked, previous);
    ChainMeans(objects, s);
    if m.chain != [] {
      SliceVerifies(m, objects, s, scope.maxRecords, supplied);
    }
  }

  lemma ChainMeans(objects: seq<RawObject>, s: Selection)
    ensures ChainFor(objects, s.startSequence, s.endSequence) != [] ==> s.startSequence != 0 && s.endSequence != 0
    ensures s.startSequence != 0 && s.endSequence != 0 ==>
              ChainFor(objects, s.startSequence, s.endSequence) == Descriptors(Touching(objects, s.startSequence, s.endSequence))
  {
  }

  lemma SliceVerifies(m: Manifest, objects: seq<RawObject>, s: Selection, maxRecords: nat, supplied: seq<RawObject>)
    requires Carries(m, objects, s, maxRecords) && s.startSequence != 0 && s.endSequence != 0
    requires SameObjects(supplied, Touching(objects, s.startSequence, s.endSequence))
    ensures AllLabelled(supplied) && AllDistinct(Keys(supplied)) && |supplied| == |m.chain|
    ensures var vs := Arrange(m.chain, supplied, |m.chain|);
            vs.Some? && Rederived(m, vs.value, maxRecords)
  {
    hide Contiguous, Items, Derive, Quiet, Arrange, Touching, Rederived, Chained, ChainFor, AllLabelled;
    ContiguousItems(objects);
    ChainedNumbered(Items(objects));
    var a, b := SliceBounds(Items(objects), m.day, maxRecords);
    ChainedAt(Items(objects), a, b);
    var p, q := TouchingIsSlice(objects, s.startSequence, s.endSequence);
    var vs := Touching(objects, s.startSequence, s.endSequence);
    ContiguousSlice(objects, p, q);
    SealedAreLabelled(vs, supplied);
    ArrangeFinds(vs, supplied, |vs|);
    ChainMeans(objects, s);
    assert vs[..|vs|] == vs;
    SliceRederives(m, objects, s, maxRecords, a, b, p, q);
  }

  lemma SliceRederives(m: Manifest, objects: seq<RawObject>, s: Selection, maxRecords: nat, a: nat, b: nat, p: nat, q: nat)
    requires Carries(m, objects, s, maxRecords) && SliceAt(Items(objects), m.day, s, a, b) && s.startSequence != 0
    requires s.endSequence != 0 && Stretch(objects, s.startSequence, s.endSequence, p, q)
    ensures Rederived(m, objects[p..q], maxRecords)
  {
    hide Contiguous, Items, Derive, Quiet, Touching, WalkAlong;
    RederivedFromSlice(objects, m.day, s, a, b, p, q, maxRecords);
    TouchingTouches(objects, s.startSequence, s.endSequence);
    TouchingAll(objects[p..q], s.startSequence, s.endSequence);
  }
}
