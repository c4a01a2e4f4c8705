/** Opening a replay source, and the independent selection made when a day is restored (internal/delivery/fetch.go). */
module ReplayOpen {
  import opened Protocol
  import opened Digests
  import opened Counting
  import opened DaySelection
  import opened DayCoordinates
  import opened DaySlices
  import opened Segments
  import opened Manifest
  import opened ManifestTheorems
  import opened ReplaySource
  import opened ReplayExpansion
  import opened ReplayTheorems
  import opened ReplayRecount
  import opened ManifestAcceptance

  // ---- Opening ----

  /** An object read from the path of a descriptor: its segment is verified and its metadata is the segment's. */
  predicate Loaded(o: RawObject, c: ChainObject) {
    SegmentVerified(o) && o.key == c.key && o.sha == o.segment.sha && o.bytes == o.segment.bytes
  }

  method CheckDescriptors(objects: seq<RawObject>, chain: seq<ChainObject>) returns (ok: bool)
    requires |objects| == |chain|
    ensures ok == (Descriptors(objects) == chain)
  {
    for i := 0 to |objects|
      invariant forall k :: 0 <= k < i ==> DescriptorOf(objects[k]) == chain[k]
    {
      if DescriptorOf(objects[i]) != chain[i] {
        assert Descriptors(objects)[i] != chain[i];
        return false;
      }
    }
    return true;
  }

  lemma LoadedIsSealed(m: Manifest, objects: seq<RawObject>, i: nat)
    requires Valid(m) && Descriptors(objects) == m.chain && i < |objects| && Loaded(objects[i], m.chain[i])
    ensures Sealed(objects[i]) && Labelled(objects[i])
  {
    hide SegmentVerified, ChainInOrder, RangesHeld, Ordered, RawSetRoot;
    ChainObjectAt(m, |m.chain|, i);
    BytesPositive(objects[i]);
  }

  lemma BytesPositive(o: RawObject)
    requires SegmentVerified(o)
    ensures 0 < o.segment.bytes && o.segment.entries != []
  {
  }

  lemma {:induction false} ChainObjectAt(m: Manifest, n: nat, i: nat)
    requires n <= |m.chain| && ChainInOrder(m, n) && i < n
    ensures ChainObjectValid(m, m.chain[i])
  {
    hide ChainObjectValid, Adjoins;
    if i < n - 1 {
      ChainObjectAt(m, n - 1, i);
    }
  }

  lemma {:induction false} AllAreLabelled(objects: seq<RawObject>)
    requires forall i :: 0 <= i < |objects| ==> Labelled(objects[i])
    ensures AllLabelled(objects)
  {
    hide Labelled;
    if objects != [] {
      AllAreLabelled(objects[..|objects| - 1]);
    }
  }

  /** The manifest with its ranges expanded; one without ranges is left as it is. */
  function ExpandedOf(m: Manifest, x: seq<Range>, root: Digest): Manifest {
    if m.objects == [] then m else m.(objects := x, rawSetRoot := root, sha := Zero)
  }

  /** The recount gives the summary of the full selection. */
  predicate SameSummary(s: Selection, t: Selection) {
    && s.accepted == t.accepted && s.errors == t.errors && s.throughMsc == t.throughMsc && s.throughCapture == t.throughCapture
    && s.startSequence == t.startSequence && s.startRoot == t.startRoot && s.endSequence == t.endSequence && s.endRoot == t.endRoot
  }

  /** Every check that `OpenVerifiedReplaySource` makes on objects read from the paths of the chain, in chain order. */
  ghost predicate Opens(m: Manifest, objects: seq<RawObject>, scope: Scope) {
    && Valid(m) && m.identity == scope.identity && Descriptors(objects) == m.chain
    && (var x, full := Expand(m.objects, objects, m.day), Derive(Items(objects), m.day, 0, 0, scope.maxRecords);
        && x.Some? && RawSetRoot(x.value).Some? && Valid(ExpandedOf(m, x.value, RawSetRoot(x.value).value))
        && full.Some? && RawSetRoot(full.value.objects).Some?
        && SnapshotAccepted(CanonicalOf(m, objects, full.value, RawSetRoot(full.value.objects).value), objects, scope)
        && x.value == full.value.objects && SelectionIs(m.(objects := x.value), full.value)
        && m.chain == ChainFor(objects, full.value.startSequence, full.value.endSequence)
        && (var c := Recount(x.value, objects, m.day, scope.maxRecords); c.Some? && SameSummary(c.value.summary, full.value)))
  }

  method VerifyReplay(m: Manifest, objects: seq<RawObject>, scope: Scope) returns (expanded: Option<seq<Range>>)
    requires |objects| == |m.chain| && forall i :: 0 <= i < |objects| ==> Loaded(objects[i], m.chain[i])
    ensures expanded.Some? <==> Opens(m, objects, scope)
    ensures expanded.Some? ==> expanded == Expand(m.objects, objects, m.day)
  {
    hide Valid, Loaded, Labelled, AllLabelled, Items, Derive, Expand, ChainFor, Find, SnapshotAccepted, RawSetRoot, Recount;
    var valid := ValidateRawDayManifest(m);
    if !valid || m.identity != scope.identity {
      return None;
    }
    var described := CheckDescriptors(objects, m.chain);
    if !described {
      return None;
    }
    LoadedObjects(m, objects);
    var byKey := ByKey(objects);
    forall key ensures Find(objects, key) == if key in byKey.value then Some(byKey.value[key]) else None {
      FindIn(objects, key);
    }
    var x := ExpandRanges(m.objects, objects, byKey.value, m.day);
    if x.None? || RawSetRoot(x.value).None? {
      return None;
    }
    valid := ValidateRawDayManifest(ExpandedOf(m, x.value, RawSetRoot(x.value).value));
    if !valid {
      return None;
    }
    var full := DeriveDaySelection(objects, m.day, 0, 0, scope.maxRecords);
    if full.None? || RawSetRoot(full.value.objects).None? {
      return None;
    }
    var chain := ChainObjectsForSlice(objects, full.value.startSequence, full.value.endSequence);
    var verified := VerifySnapshotSegments(CanonicalOf(m, objects, full.value, RawSetRoot(full.value.objects).value), objects, scope);
    if !verified || x.value != full.value.objects || !SelectionIs(m.(objects := x.value), full.value) || chain != m.chain {
      return None;
    }
    var count := RecountRanges(x.value, objects, byKey.value, m.day, scope.maxRecords);
    if count.None? || !SameSummary(count.value.summary, full.value) {
      return None;
    }
    return x;
  }

  lemma LoadedObjects(m: Manifest, objects: seq<RawObject>)
    requires Valid(m) && Descriptors(objects) == m.chain && forall i :: 0 <= i < |objects| ==> Loaded(objects[i], m.chain[i])
    ensures AllLabelled(objects) && AllDistinct(Keys(objects))
    ensures forall i :: 0 <= i < |m.objects| ==> m.objects[i].start <= m.objects[i].end
    ensures forall i :: 0 <= i < |objects| ==> Sealed(objects[i]) && SegmentVerified(objects[i])
  {
    hide Valid, Loaded, Labelled, AllLabelled, SegmentVerified, Descriptors;
    forall i | 0 <= i < |objects| ensures Sealed(objects[i]) && Labelled(objects[i]) {
      LoadedIsSealed(m, objects, i);
    }
    AllAreLabelled(objects);
    ValidRanges(m);
    KeysOfChain(m, objects);
  }

  lemma {:induction false} ArrangedInOrder(m: Manifest, objects: seq<RawObject>, n: nat)
    requires Descriptors(objects) == m.chain && AllDistinct(Keys(objects)) && n <= |m.chain| && Arrange(m.chain, objects, n).Some?
    ensures Arrange(m.chain, objects, n).value == objects[..n]
  {
    hide Follows, Find;
    if n > 0 {
      ArrangedInOrder(m, objects, n - 1);
      FindDistinct(objects, n - 1);
      assert m.chain[n - 1] == DescriptorOf(objects[n - 1]);
    }
  }

  /**
   Three of the checks can never fail once the others have passed: the form check of the expanded manifest, the
   full verification of the rebuilt one, except for its finding that the objects are contiguous, and the recount.
   */
  lemma OpensIff(m: Manifest, objects: seq<RawObject>, scope: Scope)
    requires |objects| == |m.chain| && forall i :: 0 <= i < |objects| ==> Loaded(objects[i], m.chain[i])
    ensures Opens(m, objects, scope) <==> ReplayAccepted(m, objects, scope)
  {
    hide Valid, Loaded, Sealed, Contiguous, Items, Derive, Expand, ChainFor, SnapshotAccepted, RawSetRoot, Recount;
    if Opens(m, objects, scope) {
      OpenedIsContiguous(m, objects, scope);
      CountableRoot(Expand(m.objects, objects, m.day).value);
    }
    if ReplayAccepted(m, objects, scope) {
      CanonicalVerifies(m, objects, scope);
      ExpandedIsValid(m, objects, scope);
      ValidRanges(m);
      KeysOfChain(m, objects);
      RecountIsTheSelection(objects, m.day, scope.maxRecords);
    }
  }

  lemma CountableRoot(rs: seq<Range>)
    requires RawSetRoot(rs).Some?
    ensures |rs| <= MAX_U32
  {
  }

  lemma OpenedIsContiguous(m: Manifest, objects: seq<RawObject>, scope: Scope)
    requires Opens(m, objects, scope) && |objects| == |m.chain| && forall i :: 0 <= i < |objects| ==> Loaded(objects[i], m.chain[i])
    ensures Contiguous(objects)
  {
    hide Valid, Loaded, Sealed, Contiguous, Items, Derive, Expand, ChainFor, RawSetRoot, Recount, Rederived, Arrange, ManifestDigest;
    LoadedObjects(m, objects);
    var full := Derive(Items(objects), m.day, 0, 0, scope.maxRecords).value;
    var c := CanonicalOf(m, objects, full, RawSetRoot(full.objects).value);
    if m.chain == [] {
      assert objects == [];
      NothingIsContiguous();
    } else {
      AcceptedChain(c, objects, scope);
      ArrangedInOrder(c, objects, |c.chain|);
      assert objects[..|objects|] == objects;
    }
  }

  lemma NothingIsContiguous()
    ensures Contiguous([])
  {
  }

  lemma ExpandedIsValid(m: Manifest, objects: seq<RawObject>, scope: Scope)
    requires ReplayAccepted(m, objects, scope)
    ensures var x := Expand(m.objects, objects, m.day).value;
            RawSetRoot(x).Some? && Valid(ExpandedOf(m, x, RawSetRoot(x).value))
  {
    hide Valid, Contiguous, Items, Derive, Expand, ChainFor, RangeValid;
    var x := Expand(m.objects, objects, m.day).value;
    SelectedRangesAreOrdered(objects, m.day, scope.maxRecords);
    ValidRanges(m);
    KeysOfChain(m, objects);
    ValidParts(m);
    CarriedIsValid(m.(objects := x, rawSetRoot := RawSetRoot(x).value, sha := Zero), objects,
                   Derive(Items(objects), m.day, 0, 0, scope.maxRecords).value, scope.maxRecords);
  }

  /** An accepted day as a reader over all its entries. */
  method OpenReplaySource(m: Manifest, objects: seq<RawObject>, scope: Scope) returns (source: Option<Source>)
    requires |objects| == |m.chain| && forall i :: 0 <= i < |objects| ==> Loaded(objects[i], m.chain[i])
    ensures source.Some? <==> ReplayAccepted(m, objects, scope)
    ensures source.Some? ==>
              && fresh(source.value) && source.value.Valid() && source.value.Rest() == Items(objects)
              && Deliveries(source.value.ranges, source.value.Rest()) == DayBatches(Items(objects), m.day)
              && Clean(source.value.ranges, source.value.Rest())
  {
    hide SegmentVerified, Items, Deliveries, DayBatches, Clean, SelectedFor, RestOf, Expand, ReplayAccepted, AllSingle, Opens;
    var x := VerifyReplay(m, objects, scope);
    OpensIff(m, objects, scope);
    if x.None? {
      return None;
    }
    AcceptedDrainIsTheDay(m, objects, scope);
    SinglesRise(x.value);
    forall i | 0 <= i < |objects| ensures objects[i].segment.entries != [] {
      BytesPositive(objects[i]);
    }
    var selected := IndexRanges(x.value);
    var s := new Source(objects, x.value, selected);
    return Some(s);
  }

  lemma SinglesRise(rs: seq<Range>)
    requires AllSingle(rs)
    ensures forall i :: 0 <= i < |rs| ==> rs[i].start <= rs[i].end
  {
  }

  // ---- Restoring ----

  /** `selectedOrdinals`: a set of ordinals, then sorted. */
  method SelectedOrdinals(rs: seq<Range>, sequence: nat, count: nat) returns (result: seq<nat>)
    ensures Ascending(result) && forall o :: o in result <==> o >= 0 && SomeoneCompact(rs, sequence, count, o)
  {
    hide Selects;
    var ordinals: set<nat> := {};
    for i := 0 to |rs|
      invariant forall o: nat :: o in ordinals <==> SomeoneCompact(rs[..i], sequence, count, o)
    {
      var more := OrdinalsIn(rs[i], sequence, count);
      forall o: nat ensures SomeoneCompact(rs[..i + 1], sequence, count, o) <==>
                            SomeoneCompact(rs[..i], sequence, count, o) || Selects(rs[i], sequence, count, o)
      {
        CompactStep(rs, i, sequence, count, o);
      }
      ordinals := ordinals + more;
    }
    assert rs[..|rs|] == rs;
    result := SortOrdinals(ordinals);
  }

  lemma CompactStep(rs: seq<Range>, i: nat, sequence: nat, count: nat, o: nat)
    requires i < |rs|
    ensures SomeoneCompact(rs[..i + 1], sequence, count, o) <==>
            SomeoneCompact(rs[..i], sequence, count, o) || Selects(rs[i], sequence, count, o)
  {
    hide Selects;
    var before, after := rs[..i], rs[..i + 1];
    if SomeoneCompact(before, sequence, count, o) {
      var k :| 0 <= k < |before| && Selects(before[k], sequence, count, o);
      assert after[k] == before[k];
    }
    if SomeoneCompact(after, sequence, count, o) {
      var k :| 0 <= k < |after| && Selects(after[k], sequence, count, o);
      assert k == i || before[k] == after[k];
    }
    assert after[i] == rs[i];
  }

  method OrdinalsIn(r: Range, sequence: nat, count: nat) returns (ordinals: set<nat>)
    ensures forall o: nat :: o in ordinals <==> Selects(r, sequence, count, o)
  {
    ordinals := {};
    if sequence < r.start || sequence > r.end {
      return;
    }
    var first, last := r.first, r.last;
    if sequence > r.start {
      first := 0;
    }
    if sequence < r.end {
      if count == 0 {
        last := 0;
      } else {
        last := count - 1;
      }
    }
    if count == 0 && first == 0 && last == 0 {
      ordinals := {0};
      return;
    }
    var ordinal := first;
    while ordinal <= last
      invariant first <= ordinal
      invariant forall o: nat :: o in ordinals <==> first <= o < ordinal && o <= last && o < count
      decreases last + 1 - ordinal
    {
      if ordinal >= count {
        break;
      }
      ordinals := ordinals + {ordinal};
      ordinal := ordinal + 1;
    }
  }

  /** Set iteration order is arbitrary; the result is not. */
  method SortOrdinals(ordinals: set<nat>) returns (result: seq<nat>)
    ensures Ascending(result) && forall o :: o in result <==> o in ordinals
  {
    result := [];
    var rest := ordinals;
    while rest != {}
      invariant rest <= ordinals && Ascending(result) && forall o :: o in result <==> o in ordinals - rest
      decreases rest
    {
      var o :| o in rest;
      result := InsertOrdinal(result, o);
      rest := rest - {o};
    }
  }

  method InsertOrdinal(sorted: seq<nat>, o: nat) returns (result: seq<nat>)
    requires Ascending(sorted) && o !in sorted
    ensures Ascending(result) && forall k :: k in result <==> k in sorted || k == o
  {
    var at := |sorted|;
    while at > 0 && o < sorted[at - 1]
      invariant 0 <= at <= |sorted| && forall k :: at <= k < |sorted| ==> o < sorted[k]
    {
      at := at - 1;
    }
    forall k | 0 <= k < at ensures sorted[k] < o {
      assert sorted[k] <= sorted[at - 1] && sorted[at - 1] in sorted;
    }
    result := sorted[..at] + [o] + sorted[at..];
    Inserted(sorted[..at], o, sorted[at..]);
    assert sorted == sorted[..at] + sorted[at..];
  }

  lemma Inserted(left: seq<nat>, o: nat, right: seq<nat>)
    requires Ascending(left) && Ascending(right)
    requires (forall k :: 0 <= k < |left| ==> left[k] < o) && (forall k :: 0 <= k < |right| ==> o < right[k])
    ensures Ascending(left + [o] + right)
    ensures forall k :: k in left + [o] + right <==> k in left + right || k == o
  {
    var all := left + [o] + right;
    forall i, j | 0 <= i < j < |all| ensures all[i] < all[j] {
      assert j > |left| ==> all[j] == right[j - |left| - 1];
      assert i < |left| ==> all[i] == left[i];
    }
  }

  lemma {:induction false} AscendingUnique(a: seq<nat>, b: seq<nat>)
    requires Ascending(a) && Ascending(b) && forall o :: o in a <==> o in b
    ensures a == b
  {
    assert b == [] || b[0] in b;
    if a != [] {
      assert a[|a| - 1] in a;
      var m, n := |a| - 1, |b| - 1;
      LastsAgree(a, b);
      forall o ensures o in a[..m] <==> o in b[..n] {
        WithoutLast(a, o);
        WithoutLast(b, o);
      }
      AscendingUnique(a[..m], b[..n]);
      assert a == a[..m] + [a[m]] && b == b[..n] + [b[n]];
    }
  }

  lemma LastsAgree(a: seq<nat>, b: seq<nat>)
    requires Ascending(a) && Ascending(b) && a != [] && b != [] && forall o :: o in a <==> o in b
    ensures a[|a| - 1] == b[|b| - 1]
  {
    assert a[|a| - 1] in a && b[|b| - 1] in b;
    var i :| 0 <= i < |b| && b[i] == a[|a| - 1];
    var j :| 0 <= j < |a| && a[j] == b[|b| - 1];
  }

  lemma WithoutLast(a: seq<nat>, o: nat)
    requires Ascending(a) && a != []
    ensures o in a[..|a| - 1] <==> o in a && o != a[|a| - 1]
  {
  }

  // ---- Both selections agree ----

  lemma {:induction false} DenotedIsSomeone(rs: seq<Range>, sequence: nat, o: nat)
    requires AllSingle(rs)
    ensures (sequence, o) in Denoted(rs) <==> Someone(rs, sequence, o)
  {
    if rs != [] {
      var n := |rs| - 1;
      DenotedIsSomeone(rs[..n], sequence, o);
      SomeoneConcat(rs[..n], [rs[n]], sequence, o);
      OneIsSomeone(rs[n], sequence, o);
      assert rs == rs[..n] + [rs[n]];
      InAt(rs[n].start, Interval(rs[n].first, rs[n].last), (sequence, o));
      InInterval(rs[n].first, rs[n].last, o);
    }
  }

  lemma InInterval(first: nat, last: nat, o: nat)
    requires first <= last
    ensures o in Interval(first, last) <==> first <= o <= last
  {
    if first <= o <= last {
      assert Interval(first, last)[o - first] == o;
    }
  }

  /** In the day's selection, entry `i` has exactly its ordinals on the day. */
  lemma SelectionAtEntry(items: seq<Item>, day: int, maxRecords: nat, i: nat, o: nat)
    requires Numbered(items) && Derive(items, day, 0, 0, maxRecords).Some? && i < |items|
    ensures Someone(Derive(items, day, 0, 0, maxRecords).value.objects, items[i].entry.sequence, o)
            <==> OnDay(items[i].entry.frame, day, o)
  {
    hide Derive, Numbered, AllSingle, Denoted, Coordinates, OnDay;
    var c := (items[i].entry.sequence, o);
    SelectionDenotesTheDay(items, day, maxRecords);
    DenotedIsSomeone(Derive(items, day, 0, 0, maxRecords).value.objects, c.0, o);
    CoordinatesAre(items, day, c);
    forall k | CoordinateAt(items, day, c, k) ensures k == i {
      if k < i {
        NumberedAt(items, k, i);
      } else if i < k {
        NumberedAt(items, i, k);
      }
    }
    assert CoordinateAt(items, day, c, i) <==> OnDay(items[i].entry.frame, day, o);
  }

  /** The entry that an object holds under a sequence number is the one at that place of the chain. */
  lemma {:induction false} EntryInChain(objects: seq<RawObject>, key: ObjectKey, i: nat)
    requires Contiguous(objects) && i < |Items(objects)| && Find(objects, key).Some?
    requires EntryAt(Find(objects, key).value, Items(objects)[i].entry.sequence).Some?
    ensures EntryAt(Find(objects, key).value, Items(objects)[i].entry.sequence) == Some(Items(objects)[i].entry)
  {
    hide Contiguous, Find, Items, Chained, Sealed;
    FindIn(objects, key);
    var items, o := Items(objects), Find(objects, key).value;
    var j :| 0 <= j < |objects| && objects[j] == o;
    ContiguousAt(objects, j);
    ContiguousItems(objects);
    var x := ObjectItems(objects, j);
    var k := items[i].entry.sequence - o.segment.start;
    IndexShift(items, x, ItemsOf(o), k);
    SameSequence(items, x, k, i, o);
  }

  lemma IndexShift(items: seq<Item>, x: nat, here: seq<Item>, k: nat)
    requires x + |here| <= |items| && items[x..x + |here|] == here && k < |here|
    ensures items[x + k] == here[k]
  {
    assert items[x..x + |here|][k] == items[x + k];
  }

  lemma ObjectItems(objects: seq<RawObject>, j: nat) returns (x: nat)
    requires j < |objects|
    ensures var here := ItemsOf(objects[j]);
            x + |here| <= |Items(objects)| && Items(objects)[x..x + |here|] == here
  {
    hide Items, ItemsOf;
    var o := objects[j];
    var from, to := StretchItems(objects, j, j + 1);
    assert objects[j..j + 1] == [] + [o];
    ItemsStep([], o);
    EmptyWalk(0, 0, Zero);
    assert [] + ItemsOf(o) == ItemsOf(o);
    x := from;
  }

  lemma SameSequence(items: seq<Item>, x: nat, k: nat, i: nat, o: RawObject)
    requires Chained(items) && Sealed(o) && k < |ItemsOf(o)| && x + k < |items| && i < |items|
    requires items[x + k] == ItemsOf(o)[k] && items[i].entry.sequence == o.segment.start + k
    ensures i == x + k
  {
    ChainedAt(ItemsOf(o), 0, k);
    if i < x + k {
      ChainedAt(items, i, x + k);
    } else {
      ChainedAt(items, x + k, i);
    }
  }

  lemma FitsIfOnDay(r: Range, b: BatchFrame, day: int)
    requires Single(r) && OnDay(b, day, r.last)
    ensures Fits(r, |b.records|)
  {
  }

  /** Entry by entry, compact ranges select what their expansion does. */
  lemma {:induction false} ExpansionSelects(rs: seq<Range>, objects: seq<RawObject>, day: int, i: nat, o: nat)
    requires Contiguous(objects) && i < |Items(objects)| && Expand(rs, objects, day).Some?
    requires var x, it := Expand(rs, objects, day).value, Items(objects)[i];
             forall k :: 0 <= k < |x| && x[k].start == it.entry.sequence ==> Fits(x[k], |it.entry.frame.records|)
    ensures var it := Items(objects)[i];
            Someone(Expand(rs, objects, day).value, it.entry.sequence, o)
            <==> SomeoneCompact(rs, it.entry.sequence, |it.entry.frame.records|, o)
  {
    hide Contiguous, Items, Find, Fits, Selects, SingleSelects, Pieces, EntryAt;
    if rs != [] {
      var n := |rs| - 1;
      var r, it := rs[n], Items(objects)[i];
      var sequence, count := it.entry.sequence, |it.entry.frame.records|;
      var before, here := Expand(rs[..n], objects, day).value, Pieces(r, Find(objects, r.key).value, day, r.end - r.start + 1).value;
      var x := Expand(rs, objects, day).value;
      assert x == before + here;
      assert forall k :: 0 <= k < |before| ==> before[k] == x[k];
      assert forall k :: 0 <= k < |here| ==> here[k] == x[|before| + k];
      ExpansionSelects(rs[..n], objects, day, i, o);
      SomeoneConcat(before, here, sequence, o);
      RangeSelects(r, objects, day, i, o);
      CompactStep(rs, n, sequence, count, o);
      assert rs[..n + 1] == rs;
    }
  }

  lemma RangeSelects(r: Range, objects: seq<RawObject>, day: int, i: nat, o: nat)
    requires Contiguous(objects) && i < |Items(objects)| && Find(objects, r.key).Some? && r.start <= r.end
    requires Pieces(r, Find(objects, r.key).value, day, r.end - r.start + 1).Some?
    requires var ps, it := Pieces(r, Find(objects, r.key).value, day, r.end - r.start + 1).value, Items(objects)[i];
             forall k :: 0 <= k < |ps| && ps[k].start == it.entry.sequence ==> Fits(ps[k], |it.entry.frame.records|)
    ensures var it := Items(objects)[i];
            Someone(Pieces(r, Find(objects, r.key).value, day, r.end - r.start + 1).value, it.entry.sequence, o)
            <==> Selects(r, it.entry.sequence, |it.entry.frame.records|, o)
  {
    hide Contiguous, Items, Find, Fits, Pieces, EntryAt;
    var object_, it := Find(objects, r.key).value, Items(objects)[i];
    var sequence := it.entry.sequence;
    PiecesHaveEntries(r, object_, day, r.end - r.start + 1, sequence);
    if r.start <= sequence <= r.end {
      EntryInChain(objects, r.key, i);
      PiecesSelect(r, object_, day, r.end - r.start + 1, sequence, o);
    }
  }

  lemma {:induction false} PiecesHaveEntries(r: Range, obj: RawObject, day: int, n: nat, sequence: nat)
    requires Pieces(r, obj, day, n).Some? && n <= r.end - r.start + 1 && r.start <= r.end
    ensures r.start <= sequence < r.start + n ==> EntryAt(obj, sequence).Some?
    ensures var ps := Pieces(r, obj, day, n).value;
            forall k :: 0 <= k < |ps| ==> r.start <= ps[k].start < r.start + n
  {
    hide EntryAt;
    if n > 0 {
      PiecesHaveEntries(r, obj, day, n - 1, sequence);
    }
  }

  /**
   The selection made on restoring, from the manifest's compact ranges and by sequence number alone, gives every
   entry of the chain the same ordinals as the replay source: its ordinals on the day, and none if it has none.
   */
  lemma RestoreAgrees(m: Manifest, objects: seq<RawObject>, scope: Scope, i: nat, restored: seq<nat>)
    requires ReplayAccepted(m, objects, scope) && i < |Items(objects)|
    requires var it := Items(objects)[i];
             Ascending(restored) && forall o :: o in restored <==> o >= 0 && SomeoneCompact(m.objects, it.entry.sequence, |it.entry.frame.records|, o)
    ensures restored == DayOrdinals(Items(objects)[i].entry.frame, m.day)
  {
    hide Valid, Contiguous, Items, Derive, Expand, ChainFor, DayOrdinals, OnDay, SomeoneCompact, Numbered, SelectionIs;
    var items, it := Items(objects), Items(objects)[i];
    ContiguousItems(objects);
    ChainedNumbered(items);
    var x := Expand(m.objects, objects, m.day).value;
    SelectionFits(items, m.day, scope.maxRecords, i);
    forall o: nat ensures SomeoneCompact(m.objects, it.entry.sequence, |it.entry.frame.records|, o) <==> OnDay(it.entry.frame, m.day, o) {
      ExpansionSelects(m.objects, objects, m.day, i, o);
      SelectionAtEntry(items, m.day, scope.maxRecords, i, o);
    }
    DayOrdinalsAre(it.entry.frame, m.day);
    AscendingUnique(restored, DayOrdinals(it.entry.frame, m.day));
  }

  lemma SelectionFits(items: seq<Item>, day: int, maxRecords: nat, i: nat)
    requires Numbered(items) && Derive(items, day, 0, 0, maxRecords).Some? && i < |items|
    ensures var x := Derive(items, day, 0, 0, maxRecords).value.objects;
            forall k :: 0 <= k < |x| && x[k].start == items[i].entry.sequence ==> Fits(x[k], |items[i].entry.frame.records|)
  {
    hide Derive, Numbered, Denoted, Coordinates, OnDay, Fits;
    SelectionDenotesTheDay(items, day, maxRecords);
    var x := Derive(items, day, 0, 0, maxRecords).value.objects;
    forall k | 0 <= k < |x| && x[k].start == items[i].entry.sequence ensures Fits(x[k], |items[i].entry.frame.records|) {
      assert Single(x[k]) && SingleSelects(x[k], items[i].entry.sequence, x[k].last);
      SelectionAtEntry(items, day, maxRecords, i, x[k].last);
      FitsIfOnDay(x[k], items[i].entry.frame, day);
    }
  }
}
