/** Draining an accepted source gives the day: every code path selects the same records. */
module ReplayTheorems {
  import opened Protocol
  import opened Digests
  import opened Counting
  import opened DaySelection
  import opened DayCoordinates
  import opened DaySlices
  import opened Segments
  import opened Manifest
  import opened ManifestTheorems
  import opened ReplaySource
  import opened ReplayExpansion

  // ---- The table gives an entry its own runs ----

  function PartsOf(runs: seq<(nat, nat)>): (ps: seq<OrdinalRange>)
    ensures |ps| == |runs| && forall i :: 0 <= i < |runs| ==> ps[i] == OrdinalRange(runs[i].0, runs[i].1, false)
  {
    seq(|runs|, i requires 0 <= i < |runs| => OrdinalRange(runs[i].0, runs[i].1, false))
  }

  lemma {:induction false} SelectedConcat(a: seq<Range>, b: seq<Range>, key: ObjectKey, sequence: nat)
    ensures SelectedFor(a + b, key, sequence) == SelectedFor(a, key, sequence) + SelectedFor(b, key, sequence)
  {
    hide Covers, PartAt;
    if b == [] {
      assert a + b == a;
    } else {
      var n := |b| - 1;
      SelectedConcat(a, b[..n], key, sequence);
      assert (a + b)[..|a| + n] == a + b[..n];
    }
  }

  lemma {:induction false} SelectedOfItem(it: Item, day: int, key: ObjectKey, sequence: nat, k: nat)
    requires k <= |RangesOf(it, day)|
    ensures SelectedFor(RangesOf(it, day)[..k], key, sequence) ==
            if it.key == key && it.entry.sequence == sequence then PartsOf(Runs(DayOrdinals(it.entry.frame, day)))[..k] else []
  {
    hide Runs, DayOrdinals;
    if k > 0 {
      SelectedOfItem(it, day, key, sequence, k - 1);
      SelectedStep(RangesOf(it, day), k - 1, key, sequence);
    }
  }

  /** What the selection of `items` holds for the last entry, or for an entry that is not among them. */
  lemma {:induction false} SelectedIn(items: seq<Item>, day: int, maxRecords: nat, key: ObjectKey, sequence: nat)
    requires Numbered(items) && Derive(items, day, 0, 0, maxRecords).Some?
    requires items != [] ==> items[|items| - 1].entry.sequence <= sequence
    ensures var rs := Derive(items, day, 0, 0, maxRecords).value.objects;
            SelectedFor(rs, key, sequence) ==
            if items != [] && items[|items| - 1].key == key && items[|items| - 1].entry.sequence == sequence
            then PartsOf(Runs(DayOrdinals(items[|items| - 1].entry.frame, day))) else []
  {
    hide Runs, DayOrdinals, Absorb, RangesOf, SelectedFor;
    if items == [] {
      NothingSelectedFor(key, sequence);
    } else {
      var n := |items| - 1;
      var before := Derive(items[..n], day, 0, 0, maxRecords).value;
      SelectedIn(items[..n], day, maxRecords, key, sequence);
      AbsorbObjects(before, items[n], day);
      SelectedConcat(before.objects, RangesOf(items[n], day), key, sequence);
      SelectedOfEntry(items[n], day, key, sequence);
    }
  }

  lemma NothingSelectedFor(key: ObjectKey, sequence: nat)
    ensures SelectedFor([], key, sequence) == []
  {
  }

  lemma SelectedOfEntry(it: Item, day: int, key: ObjectKey, sequence: nat)
    ensures SelectedFor(RangesOf(it, day), key, sequence) ==
            if it.key == key && it.entry.sequence == sequence then PartsOf(Runs(DayOrdinals(it.entry.frame, day))) else []
  {
    hide Runs, DayOrdinals, SelectedFor;
    var here, parts := RangesOf(it, day), PartsOf(Runs(DayOrdinals(it.entry.frame, day)));
    SelectedOfItem(it, day, key, sequence, |here|);
    assert here[..|here|] == here && parts[..|parts|] == parts;
  }

  /** Later entries add nothing to an earlier one. */
  lemma {:induction false} SelectedAt(items: seq<Item>, day: int, maxRecords: nat, i: nat)
    requires Numbered(items) && Derive(items, day, 0, 0, maxRecords).Some? && i < |items|
    ensures SelectedFor(Derive(items, day, 0, 0, maxRecords).value.objects, items[i].key, items[i].entry.sequence)
            == PartsOf(Runs(DayOrdinals(items[i].entry.frame, day)))
  {
    hide Runs, DayOrdinals, Observe, RangesOf;
    var n := |items| - 1;
    var key, sequence := items[i].key, items[i].entry.sequence;
    if i == n {
      SelectedIn(items, day, maxRecords, key, sequence);
    } else {
      SelectedAt(items[..n], day, maxRecords, i);
      NumberedAt(items, i, n);
      var here := RangesOf(items[n], day);
      SelectedConcat(Derive(items[..n], day, 0, 0, maxRecords).value.objects, here, key, sequence);
      SelectedOfItem(items[n], day, key, sequence, |here|);
      assert here[..|here|] == here;
    }
  }

  // ---- Choosing by runs gives the ordinals back ----

  lemma {:induction false} AppendAllNew(os: seq<nat>, first: nat, last: nat)
    requires first <= last && forall o :: o in os ==> o < first
    ensures AppendAll(os, first, last) == os + Interval(first, last)
    decreases last
  {
    if first < last {
      AppendAllNew(os, first, last - 1);
      assert Interval(first, last) == Interval(first, last - 1) + [last];
    } else {
      assert Interval(first, last) == [last];
    }
  }

  lemma {:induction false} FlattenBelow(runs: seq<(nat, nat)>, bound: nat)
    requires Proper(runs) && (forall i :: 0 <= i < |runs| ==> runs[i].1 < bound)
    ensures forall o :: o in Flatten(runs) ==> o < bound
  {
    if runs != [] {
      FlattenBelow(runs[..|runs| - 1], bound);
    }
  }

  predicate RunsApart(runs: seq<(nat, nat)>) {
    forall i, j :: 0 <= i < j < |runs| ==> runs[i].1 < runs[j].0
  }

  lemma {:induction false} ChosenRuns(b: BatchFrame, runs: seq<(nat, nat)>, n: nat)
    requires b.records != [] && Proper(runs) && RunsApart(runs) && n <= |runs|
    requires forall i :: 0 <= i < |runs| ==> runs[i].1 < |b.records|
    ensures Proper(runs[..n]) && Chosen(b, PartsOf(runs), n) == Some(Flatten(runs[..n]))
  {
    hide AppendAll;
    if n > 0 {
      ChosenRuns(b, runs, n - 1);
      var before, run := runs[..n - 1], runs[n - 1];
      FlattenBelow(before, run.0);
      AppendAllNew(Flatten(before), run.0, run.1);
      FlattenStep(before, run);
      assert runs[..n] == before + [run];
    }
  }

  lemma {:induction false} RunsAreApart(os: seq<nat>, i: nat, j: nat)
    requires Ascending(os) && i < j < |Runs(os)|
    ensures Runs(os)[i].1 < Runs(os)[j].0
    decreases j
  {
    hide Runs;
    RunsRise(os, j - 1);
    if i < j - 1 {
      RunsAreApart(os, i, j - 1);
      RunsFlatten(os);
      assert Runs(os)[j - 1].0 <= Runs(os)[j - 1].1;
    }
  }

  lemma RunsWithin(os: seq<nat>, bound: nat)
    requires forall i :: 0 <= i < |os| ==> os[i] < bound
    ensures forall i :: 0 <= i < |Runs(os)| ==> Runs(os)[i].1 < bound
  {
    if os != [] {
      RunsWithin(os[..|os| - 1], bound);
    }
  }

  /** From the runs of its ordinals on the day, a batch gives those ordinals. */
  lemma ChosenIsTheDay(b: BatchFrame, day: int)
    ensures var os := DayOrdinals(b, day);
            Chosen(b, PartsOf(Runs(os)), |Runs(os)|) == Some(os)
  {
    var os := DayOrdinals(b, day);
    if b.records == [] {
      EmptyBatchChosen(b, os);
    } else {
      hide DayOrdinals, Runs, Flatten, Chosen;
      var runs := Runs(os);
      DayOrdinalsAre(b, day);
      RunsFlatten(os);
      forall i, j | 0 <= i < j < |runs| ensures runs[i].1 < runs[j].0 {
        RunsAreApart(os, i, j);
      }
      forall i | 0 <= i < |os| ensures os[i] < |b.records| {
        assert os[i] in os;
      }
      RunsWithin(os, |b.records|);
      ChosenRuns(b, runs, |runs|);
      assert runs[..|runs|] == runs;
    }
  }

  lemma EmptyBatchChosen(b: BatchFrame, os: seq<nat>)
    requires b.records == [] && (os == [] || os == [0])
    ensures Chosen(b, PartsOf(Runs(os)), |Runs(os)|) == Some(os)
  {
    assert Runs([]) == [] && [0][..0] == [];
    assert Runs([0]) == [(0, 0)];
    var parts := PartsOf(Runs(os));
    assert Chosen(b, parts, 0) == Some([]);
    if os == [0] {
      assert parts[0] == OrdinalRange(0, 0, false);
      assert Chosen(b, parts, 1) == Some(AppendUnique([], 0));
    }
  }

  // ---- Draining ----

  /** The day's batches in WAL order, each with its ordinals on the day. */
  function DayBatches(items: seq<Item>, day: int): seq<Delivery> {
    if items == [] then [] else
    var it := items[0];
    (if Quiet(it, day) then [] else [Delivery(it.key, it.sha, it.entry.sequence, it.entry.frame, DayOrdinals(it.entry.frame, day))])
    + DayBatches(items[1..], day)
  }

  lemma OfferAt(items: seq<Item>, day: int, maxRecords: nat, i: nat)
    requires Numbered(items) && Derive(items, day, 0, 0, maxRecords).Some? && i < |items|
    ensures var it := items[i];
            Offer(Derive(items, day, 0, 0, maxRecords).value.objects, it) ==
            if Quiet(it, day) then Skip
            else Give(Delivery(it.key, it.sha, it.entry.sequence, it.entry.frame, DayOrdinals(it.entry.frame, day)))
  {
    hide Numbered, Derive, SelectedFor, Chosen, DayOrdinals, Runs;
    SelectedAt(items, day, maxRecords, i);
    ChosenIsTheDay(items[i].entry.frame, day);
    RunsEmptyIff(DayOrdinals(items[i].entry.frame, day));
  }

  lemma RunsEmptyIff(os: seq<nat>)
    ensures Runs(os) == [] <==> os == []
  {
  }

  /** From any entry on, the reader gives the day's batches and never fails. */
  lemma {:induction false} DrainsTheDay(items: seq<Item>, day: int, maxRecords: nat, k: nat)
    requires Numbered(items) && Derive(items, day, 0, 0, maxRecords).Some? && k <= |items|
    ensures var rs := Derive(items, day, 0, 0, maxRecords).value.objects;
            Deliveries(rs, items[k..]) == DayBatches(items[k..], day) && Clean(rs, items[k..])
    decreases |items| - k
  {
    hide Numbered, Derive, Offer, Quiet, DayOrdinals;
    if k < |items| {
      DrainsTheDay(items, day, maxRecords, k + 1);
      OfferAt(items, day, maxRecords, k);
      var rs := Derive(items, day, 0, 0, maxRecords).value.objects;
      assert items[k..] == [items[k]] + items[k + 1..];
      Unfold(rs, items[k], items[k + 1..]);
      assert items[k..][1..] == items[k + 1..];
    }
  }

  // ---- Acceptance of a manifest with compact ranges ----

  /**
   What an accepted day comes down to: the compact ranges expand to exactly the selection rederived from
   all entries of the chain objects, and the manifest's counts, watermarks and slice are those of the selection.
   */
  ghost predicate ReplayAccepted(m: Manifest, objects: seq<RawObject>, scope: Scope) {
    && Valid(m) && m.identity == scope.identity
    && Descriptors(objects) == m.chain && Contiguous(objects)
    && (var x, full := Expand(m.objects, objects, m.day), Derive(Items(objects), m.day, 0, 0, scope.maxRecords);
        && x.Some? && full.Some? && x.value == full.value.objects && |x.value| <= MAX_U32
        && SelectionIs(m.(objects := x.value), full.value)
        && m.chain == ChainFor(objects, full.value.startSequence, full.value.endSequence))
  }

  lemma ValidRanges(m: Manifest)
    requires Valid(m)
    ensures forall i :: 0 <= i < |m.objects| ==> m.objects[i].start <= m.objects[i].end
    ensures AllDistinct(ChainKeys(m.chain))
  {
    hide RawSetRoot, RangesHeld, ChainInOrder;
    forall i | 0 <= i < |m.objects| ensures m.objects[i].start <= m.objects[i].end {
      OrderedAt(m.objects, i, i);
    }
    if m.chain != [] {
      ChainDistinct(m, |m.chain|);
      assert m.chain[..|m.chain|] == m.chain;
    }
  }

  lemma ValidIsCountable(m: Manifest)
    requires Valid(m)
    ensures |m.objects| <= MAX_U32
  {
  }

  lemma KeysOfChain(m: Manifest, objects: seq<RawObject>)
    requires Descriptors(objects) == m.chain && AllDistinct(ChainKeys(m.chain))
    ensures AllDistinct(Keys(objects))
  {
    forall i | 0 <= i < |objects| ensures Keys(objects)[i] == ChainKeys(m.chain)[i] {
      assert Descriptors(objects)[i] == m.chain[i];
    }
    assert Keys(objects) == ChainKeys(m.chain);
  }

  /** The manifest that the source rebuilds from the rederived selection, to put it through the full verifier. */
  function CanonicalOf(m: Manifest, objects: seq<RawObject>, s: Selection, root: Digest): Manifest {
    m.(objects := s.objects, chain := ChainFor(objects, s.startSequence, s.endSequence),
       accepted := s.accepted, errors := s.errors, throughMsc := s.throughMsc, throughCapture := s.throughCapture,
       startSequence := s.startSequence, startRoot := s.startRoot, endSequence := s.endSequence, endRoot := s.endRoot,
       rawSetRoot := root, sha := Zero)
  }

  /** That verifier has nothing left to object to. */
  lemma CanonicalVerifies(m: Manifest, objects: seq<RawObject>, scope: Scope)
    requires ReplayAccepted(m, objects, scope)
    ensures var s := Derive(Items(objects), m.day, 0, 0, scope.maxRecords).value;
            && RawSetRoot(s.objects).Some?
            && SnapshotAccepted(CanonicalOf(m, objects, s, RawSetRoot(s.objects).value), objects, scope)
  {
    hide Valid, Contiguous, Derive, Items, Expand, ChainFor, Rederived, Arrange, AllLabelled, Descriptors, RangeValid, Touching;
    var s := Derive(Items(objects), m.day, 0, 0, scope.maxRecords).value;
    ValidRanges(m);
    KeysOfChain(m, objects);
    SelectedRangesAreOrdered(objects, m.day, scope.maxRecords);
    var c := CanonicalOf(m, objects, s, RawSetRoot(s.objects).value);
    CarriedIsValid(c, objects, s, scope.maxRecords);
    ValidParts(m);
    EmptySelection(objects, m.day, scope.maxRecords);
    ChainMeans(objects, s);
    if c.chain != [] {
      AllTouch(objects, s);
      SliceVerifies(c, objects, s, scope.maxRecords, objects);
    } else {
      assert |Descriptors(objects)| == |objects|;
    }
  }

  lemma ValidParts(m: Manifest)
    requires Valid(m)
    ensures 1 <= m.revision && Named(m.identity) && (m.revision == 1 <==> m.previous.None?)
  {
  }

  /** If the chain of all objects is the chain of the slice, every object is touched. */
  lemma AllTouch(objects: seq<RawObject>, s: Selection)
    requires Contiguous(objects) && AllDistinct(Keys(objects)) && s.startSequence != 0 && s.endSequence != 0
    requires Descriptors(objects) == ChainFor(objects, s.startSequence, s.endSequence)
    ensures SameObjects(objects, Touching(objects, s.startSequence, s.endSequence))
  {
    hide Contiguous;
    var lo, hi := s.startSequence, s.endSequence;
    assert |Touching(objects, lo, hi)| == |objects|;
    TouchingWhole(objects, lo, hi);
  }

  lemma {:induction false} TouchingShorter(objects: seq<RawObject>, lo: nat, hi: nat)
    ensures |Touching(objects, lo, hi)| <= |objects|
  {
    if objects != [] {
      TouchingShorter(objects[..|objects| - 1], lo, hi);
    }
  }

  lemma {:induction false} TouchingWhole(objects: seq<RawObject>, lo: nat, hi: nat)
    requires |Touching(objects, lo, hi)| == |objects|
    ensures Touching(objects, lo, hi) == objects
  {
    if objects != [] {
      var n := |objects| - 1;
      TouchingShorter(objects[..n], lo, hi);
      TouchingWhole(objects[..n], lo, hi);
    }
  }

  /**
   An accepted source, drained, yields exactly the day's batches in WAL order with exactly their records of the
   day, however the manifest's ranges were compacted; and the reader cannot fail on the way.
   */
  lemma AcceptedDrainIsTheDay(m: Manifest, objects: seq<RawObject>, scope: Scope)
    requires ReplayAccepted(m, objects, scope)
    ensures var rs := Expand(m.objects, objects, m.day).value;
            && Deliveries(rs, Items(objects)) == DayBatches(Items(objects), m.day) && Clean(rs, Items(objects))
            && AllSingle(rs) && Denoted(rs) == Coordinates(Items(objects), m.day)
  {
    hide Valid, Contiguous, Items, Derive, Deliveries, DayBatches, Clean, Numbered, Expand, AllSingle, Denoted, Coordinates;
    var items := Items(objects);
    ContiguousItems(objects);
    ChainedNumbered(items);
    DrainsTheDay(items, m.day, scope.maxRecords, 0);
    assert items[0..] == items;
    SelectionDenotesTheDay(items, m.day, scope.maxRecords);
  }
}
