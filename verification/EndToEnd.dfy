/** From WAL segments to replay rows: the manifest, the replay source and the reducer put together. */
module EndToEnd {
  import opened Protocol
  import opened Digests
  import opened Counting
  import opened DaySelection
  import opened DayCoordinates
  import opened DaySlices
  import Segments
  import Manifest
  import ManifestTheorems
  import RS = ReplaySource
  import ReplayExpansion
  import ReplayTheorems
  import C = Continuity
  import CT = ContinuityTheorems
  import CR = ContinuityRuns
  import CF = ContinuityFinish

  // ---- A built manifest can be replayed ----

  /** Ranges within single entries expand to themselves. */
  lemma {:induction false} SinglesExpand(rs: seq<Range>, objects: seq<RawObject>, day: int)
    requires forall k :: 0 <= k < |rs| ==> Locatable(rs[k], objects)
    ensures ReplayExpansion.Expand(rs, objects, day) == Some(rs)
  {
    if rs != [] {
      var n := |rs| - 1;
      SinglesExpand(rs[..n], objects, day);
      assert Locatable(rs[n], objects);
      SingleExpands(rs[n], Manifest.Find(objects, rs[n].key).value, day);
      assert rs == rs[..n] + [rs[n]];
    }
  }

  predicate Locatable(r: Range, objects: seq<RawObject>) {
    && Single(r) && Manifest.Find(objects, r.key).Some?
    && ReplayExpansion.EntryAt(Manifest.Find(objects, r.key).value, r.start).Some?
  }

  lemma SingleExpands(r: Range, o: RawObject, day: int)
    requires Single(r) && ReplayExpansion.EntryAt(o, r.start).Some?
    ensures ReplayExpansion.Pieces(r, o, day, 1) == Some([r])
  {
    assert ReplayExpansion.Pieces(r, o, day, 0) == Some([]);
    assert r.start + 1 - 1 == r.start;
    assert [] + [r] == [r];
  }

  lemma SelectedIsLocatable(vs: seq<RawObject>, day: int, maxRecords: nat, k: nat)
    requires Segments.Contiguous(vs) && AllDistinct(Manifest.Keys(vs)) && Derive(Items(vs), day, 0, 0, maxRecords).Some?
    requires k < |Derive(Items(vs), day, 0, 0, maxRecords).value.objects|
    ensures Locatable(Derive(Items(vs), day, 0, 0, maxRecords).value.objects[k], vs)
  {
    hide Segments.Contiguous, Segments.Chained, Items, Derive, MaximalRuns, Quiet, Manifest.Find;
    var r := Derive(Items(vs), day, 0, 0, maxRecords).value.objects[k];
    Segments.ContiguousItems(vs);
    Segments.ChainedNumbered(Items(vs));
    SelectionIsMaximal(Items(vs), day, maxRecords);
    ManifestTheorems.MaximalAt(Derive(Items(vs), day, 0, 0, maxRecords).value.objects, k);
    var i := ManifestTheorems.RangesAreCut(Items(vs), day, maxRecords, k);
    var j := ManifestTheorems.Owner(vs, i);
    ManifestTheorems.FindDistinct(vs, j);
    Segments.ContiguousAt(vs, j);
    Segments.SealedSpan(vs[j]);
  }

  /** The touched objects alone give the day's selection, without any bounds. */
  lemma SliceDerives(objects: seq<RawObject>, day: int, s: Selection, a: nat, b: nat, p: nat, q: nat, maxRecords: nat)
    requires Segments.Contiguous(objects) && Derive(Items(objects), day, 0, 0, maxRecords) == Some(s)
    requires SliceAt(Items(objects), day, s, a, b) && Segments.Stretch(objects, s.startSequence, s.endSequence, p, q)
    ensures p <= q <= |objects| && Derive(Items(objects[p..q]), day, 0, 0, maxRecords) == Some(s)
  {
    hide Segments.Contiguous, Segments.Chained, Segments.Stretch, Items, Quiet, Derive;
    var items := Items(objects);
    var x, y := ManifestTheorems.TouchedSlice(objects, day, s, a, b, p, q);
    DeriveSucceedsIff(items, day, maxRecords);
    assert items == items[..x] + (items[x..y] + items[y..]);
    QuietPrefix(items[..x], items[x..y] + items[y..], day, maxRecords);
    QuietSuffix(items[x..y], items[y..], day, maxRecords);
  }

  /** A manifest that was built is accepted for replay from its chain objects. */
  lemma BuiltIsReplayable(scope: Manifest.Scope, day: int, objects: seq<RawObject>, shuffled: seq<RawObject>, asked: nat,
                          previous: Option<Manifest.Manifest>)
    requires Segments.Contiguous(objects) && multiset(shuffled) == multiset(objects) && AllDistinct(Manifest.Keys(objects))
    requires Manifest.Build(scope, day, shuffled, asked, previous).Some?
    requires Manifest.Build(scope, day, shuffled, asked, previous).value.chain != []
    ensures var m := Manifest.Build(scope, day, shuffled, asked, previous).value;
            ReplayTheorems.ReplayAccepted(m, Segments.Touching(objects, m.startSequence, m.endSequence), scope)
  {
    hide Manifest.Build, Segments.Contiguous, Segments.Chained, Segments.Touching, Items, Derive, Manifest.Valid, Quiet,
         ReplayExpansion.Expand, Segments.ChainFor, ReplayTheorems.ReplayAccepted;
    var m := Manifest.Build(scope, day, shuffled, asked, previous).value;
    var s := ManifestTheorems.BuiltCarries(scope, day, objects, shuffled, asked, previous);
    ManifestTheorems.ChainMeans(objects, s);
    Segments.ContiguousItems(objects);
    Segments.ChainedNumbered(Items(objects));
    var a, b := SliceBounds(Items(objects), day, scope.maxRecords);
    Segments.ChainedAt(Items(objects), a, b);
    var p, q := Segments.TouchingIsSlice(objects, s.startSequence, s.endSequence);
    SliceDerives(objects, day, s, a, b, p, q, scope.maxRecords);
    Segments.ContiguousSlice(objects, p, q);
    ManifestTheorems.DistinctSlice(objects, p, q);
    TouchedIsReplayable(m, objects[p..q], s, scope) by {
      ManifestTheorems.TouchingTouches(objects, s.startSequence, s.endSequence);
    }
  }

  lemma TouchedIsReplayable(m: Manifest.Manifest, vs: seq<RawObject>, s: Selection, scope: Manifest.Scope)
    requires Manifest.Valid(m) && m.identity == scope.identity && m.chain == Segments.Descriptors(vs)
    requires Segments.Contiguous(vs) && AllDistinct(Manifest.Keys(vs)) && s.startSequence != 0 && s.endSequence != 0
    requires Derive(Items(vs), m.day, 0, 0, scope.maxRecords) == Some(s) && Manifest.SelectionIs(m, s)
    requires forall i :: 0 <= i < |vs| ==> Segments.Touches(vs[i], s.startSequence, s.endSequence)
    ensures ReplayTheorems.ReplayAccepted(m, vs, scope)
  {
    hide Segments.Contiguous, Segments.Touching, Segments.Touches, Items, Derive, Manifest.Valid, ReplayExpansion.Expand, Locatable;
    forall k | 0 <= k < |s.objects| ensures Locatable(s.objects[k], vs) {
      SelectedIsLocatable(vs, m.day, scope.maxRecords, k);
    }
    SinglesExpand(s.objects, vs, m.day);
    ReplayTheorems.ValidIsCountable(m);
    ManifestTheorems.TouchingAll(vs, s.startSequence, s.endSequence);
    ManifestTheorems.ChainMeans(vs, s);
  }

  // ---- From the source into the reducer ----

  function ToBatch(d: RS.Delivery): (b: C.VerifiedBatch)
    ensures b.frame == d.frame && |b.selected| == |d.selected|
    ensures forall i :: 0 <= i < |d.selected| ==> b.selected[i] == if d.selected[i] <= MAX_U32 then d.selected[i] else 0
  {
    C.VerifiedBatch(d.key, d.sha, if d.sequence <= MAX_U64 then d.sequence else 0, d.frame,
                    seq(|d.selected|, i requires 0 <= i < |d.selected| => if d.selected[i] <= MAX_U32 then d.selected[i] else 0))
  }

  /** What the reducer is given for a day. */
  function DayInput(items: seq<Item>, day: int): (bs: seq<C.VerifiedBatch>)
    ensures |bs| == |ReplayTheorems.DayBatches(items, day)|
    ensures forall i :: 0 <= i < |bs| ==> bs[i] == ToBatch(ReplayTheorems.DayBatches(items, day)[i])
  {
    var ds := ReplayTheorems.DayBatches(items, day);
    seq(|ds|, i requires 0 <= i < |ds| => ToBatch(ds[i]))
  }

  /** Where entry `i` comes among the day's batches. */
  lemma {:induction false} BatchOfEntry(items: seq<Item>, day: int, i: nat) returns (n: nat)
    requires i < |items| && !Quiet(items[i], day)
    ensures var ds, it := ReplayTheorems.DayBatches(items, day), items[i];
            n < |ds| && ds[n] == RS.Delivery(it.key, it.sha, it.entry.sequence, it.entry.frame, DayOrdinals(it.entry.frame, day))
  {
    hide DayOrdinals;
    if i == 0 {
      n := 0;
    } else {
      var m := BatchOfEntry(items[1..], day, i - 1);
      n := if Quiet(items[0], day) then m else m + 1;
    }
  }

  /** Every batch of the day comes from an entry. */
  lemma {:induction false} EntryOfBatch(items: seq<Item>, day: int, n: nat) returns (i: nat)
    requires n < |ReplayTheorems.DayBatches(items, day)|
    ensures i < |items| && !Quiet(items[i], day)
    ensures var it := items[i];
            ReplayTheorems.DayBatches(items, day)[n] ==
            RS.Delivery(it.key, it.sha, it.entry.sequence, it.entry.frame, DayOrdinals(it.entry.frame, day))
  {
    hide DayOrdinals;
    if Quiet(items[0], day) {
      var j := EntryOfBatch(items[1..], day, n);
      i := j + 1;
    } else if n == 0 {
      i := 0;
    } else {
      var j := EntryOfBatch(items[1..], day, n - 1);
      i := j + 1;
    }
  }

  lemma {:induction false} OccurrenceAt(c: C.Config, b: C.VerifiedBatch, upTo: nat, k: nat)
    requires upTo <= |b.selected| && k < upTo && forall i :: 0 <= i < |b.selected| ==> b.selected[i] < |b.frame.records|
    ensures var os := C.Occurrences(c, b, upTo);
            os.Some? && |os.value| == upTo && os.value[k].fingerprint == Fingerprint(b.frame.records[b.selected[k]])
  {
    hide Fingerprint;
    if k < upTo - 1 {
      OccurrenceAt(c, b, upTo - 1, k);
    } else if k > 0 {
      OccurrenceAt(c, b, upTo - 1, k - 1);
    } else {
      assert C.Occurrences(c, b, 0) == Some([]);
    }
  }

  // ---- When the reducer finishes ----

  /** The source's own conditions on a batch: the schema, a session, and the lease of that session. */
  predicate Leased(c: C.Config, b: BatchFrame) {
    b.schemaId == SOURCE_SCHEMA_MT5 && b.sessionId != [] && b.leaseId == c.lease(c.producer, b.sessionId)
  }

  /** A zero-record batch contributes nothing, any other its records of the day. */
  lemma {:induction false} OccurrencesExist(c: C.Config, b: C.VerifiedBatch, upTo: nat)
    requires upTo <= |b.selected|
    requires forall i :: 0 <= i < |b.selected| ==> b.selected[i] < |b.frame.records| || (|b.frame.records| == 0 && b.selected[i] == 0)
    ensures C.Occurrences(c, b, upTo).Some?
  {
    if upTo > 0 {
      OccurrencesExist(c, b, upTo - 1);
    }
  }

  lemma EntryIsDelivered(c: C.Config, it: Item, day: int, batch: C.VerifiedBatch)
    requires it.sha != Zero && it.key == WalKey(it.sha) && |it.entry.frame.sessionId| <= MAX_STRING_BYTES
    requires |it.entry.frame.records| <= MAX_RECORDS && !Quiet(it, day)
    requires batch == ToBatch(RS.Delivery(it.key, it.sha, it.entry.sequence, it.entry.frame, DayOrdinals(it.entry.frame, day)))
    ensures CF.Delivered(c, batch) && batch.selected != []
  {
    hide DayOrdinals, C.Occurrences;
    var b := it.entry.frame;
    DayOrdinalsAre(b, day);
    forall i | 0 <= i < |batch.selected|
      ensures batch.selected[i] < |b.records| || (|b.records| == 0 && batch.selected[i] == 0)
    {
      assert DayOrdinals(b, day)[i] in DayOrdinals(b, day);
      assert OnDay(b, day, DayOrdinals(b, day)[i]);
    }
    OccurrencesExist(c, batch, |batch.selected|);
  }

  lemma ItemIsSealed(objects: seq<RawObject>, i: nat)
    requires Segments.Contiguous(objects) && i < |Items(objects)|
    ensures Items(objects)[i].sha != Zero && Items(objects)[i].key == WalKey(Items(objects)[i].sha)
  {
    hide Items, Segments.Contiguous, Segments.Chained;
    var j := ManifestTheorems.Owner(objects, i);
    Segments.ContiguousAt(objects, j);
  }

  /**
   On an accepted day, with a valid replay scope and producer and a sink that takes every row, the reducer finishes
   if and only if every batch of the day names a session and carries its lease.
   */
  lemma DayFinishesIff(m: Manifest.Manifest, objects: seq<RawObject>, scope: Manifest.Scope, c: C.Config)
    requires ReplayTheorems.ReplayAccepted(m, objects, scope) && 1 <= scope.maxRecords <= MAX_RECORDS && c.maxRecords == scope.maxRecords
    requires CF.Willing(c) && forall i :: 0 <= i < |Items(objects)| ==> |Items(objects)[i].entry.frame.sessionId| <= MAX_STRING_BYTES
    ensures C.Run(c, DayInput(Items(objects), m.day)).Done? <==>
            forall i :: 0 <= i < |Items(objects)| && !Quiet(Items(objects)[i], m.day) ==> Leased(c, Items(objects)[i].entry.frame)
  {
    hide Items, Manifest.Valid, Segments.Contiguous, ReplayExpansion.Expand, Segments.ChainFor, C.Run, ReplayTheorems.DayBatches,
         Quiet, Derive, CF.Willing, CF.Delivered, Leased, DayOrdinals;
    var items := Items(objects);
    var batches := DayInput(items, m.day);
    DeriveSucceedsIff(items, m.day, scope.maxRecords);
    forall n | 0 <= n < |batches|
      ensures CF.Delivered(c, batches[n])
      ensures exists i :: 0 <= i < |items| && !Quiet(items[i], m.day) && (C.Admissible(c, batches[n]) <==> Leased(c, items[i].entry.frame))
    {
      var i := EntryOfBatch(items, m.day, n);
      ItemIsSealed(objects, i);
      EntryIsDelivered(c, items[i], m.day, batches[n]);
      LeasedIsAdmissible(c, batches[n]);
    }
    CF.RunFinishesIff(c, batches);
    forall i | 0 <= i < |items| && !Quiet(items[i], m.day)
      ensures exists n :: 0 <= n < |batches| && (C.Admissible(c, batches[n]) <==> Leased(c, items[i].entry.frame))
    {
      var n := BatchOfEntry(items, m.day, i);
      ItemIsSealed(objects, i);
      EntryIsDelivered(c, items[i], m.day, batches[n]);
      LeasedIsAdmissible(c, batches[n]);
    }
  }

  lemma LeasedIsAdmissible(c: C.Config, b: C.VerifiedBatch)
    requires |b.frame.records| <= c.maxRecords && b.selected != []
    ensures C.Admissible(c, b) <==> Leased(c, b.frame)
  {
  }

  /** A data row of the stream carries this fingerprint. */
  ghost predicate Emitted(rows: seq<ReplayRow>, fp: Digest) {
    exists j :: 0 <= j < |rows| && rows[j].Data? && rows[j].fingerprint == fp
  }

  /**
   No tick of the day is lost. Whenever the reducer finishes on an accepted day, every record of the day that lies in
   an error-free batch of the WAL has its payload in the replay stream.
   */
  lemma EveryTickIsReplayed(m: Manifest.Manifest, objects: seq<RawObject>, scope: Manifest.Scope, c: C.Config, i: nat, o: nat)
    requires ReplayTheorems.ReplayAccepted(m, objects, scope) && scope.maxRecords <= MAX_RECORDS && 1 <= c.maxRecords
    requires C.Run(c, DayInput(Items(objects), m.day)).Done?
    requires RecordAt(Items(objects), m.day, i, o) && Items(objects)[i].entry.frame.copyTicksError == 0
    ensures Emitted(C.Run(c, DayInput(Items(objects), m.day)).state.rows, Fingerprint(RecordOf(Items(objects), i, o)))
  {
    hide Items, Manifest.Valid, Segments.Contiguous, ReplayExpansion.Expand, Segments.ChainFor, C.Run, ReplayTheorems.DayBatches,
         DayOrdinals, Fingerprint, Derive, C.Occurrences;
    var items, b := Items(objects), Items(objects)[i].entry.frame;
    DayOrdinalsAre(b, m.day);
    assert o in DayOrdinals(b, m.day) by { assert OnDay(b, m.day, o); }
    var k :| 0 <= k < |DayOrdinals(b, m.day)| && DayOrdinals(b, m.day)[k] == o;
    var n := BatchOfEntry(items, m.day, i);
    var batch := DayInput(items, m.day)[n];
    DeriveSucceedsIff(items, m.day, scope.maxRecords);
    SelectedAreRecords(b, m.day, batch);
    OccurrenceAt(c, batch, |batch.selected|, k);
    CR.NoTickIsLost(c, DayInput(items, m.day), n, k);
  }

  lemma SelectedAreRecords(b: BatchFrame, day: int, batch: C.VerifiedBatch)
    requires b.records != [] && |b.records| <= MAX_RECORDS && batch.frame == b && |batch.selected| == |DayOrdinals(b, day)|
    requires forall i :: 0 <= i < |batch.selected| ==>
               batch.selected[i] == if DayOrdinals(b, day)[i] <= MAX_U32 then DayOrdinals(b, day)[i] else 0
    ensures batch.selected == DayOrdinals(b, day)
    ensures forall i :: 0 <= i < |batch.selected| ==> batch.selected[i] < |b.records|
  {
    hide DayOrdinals;
    DayOrdinalsAre(b, day);
    forall i | 0 <= i < |batch.selected| ensures batch.selected[i] == DayOrdinals(b, day)[i] < |b.records| {
      assert DayOrdinals(b, day)[i] in DayOrdinals(b, day);
      assert OnDay(b, day, DayOrdinals(b, day)[i]);
    }
  }

  // ---- And nothing else is replayed ----

  lemma {:induction false} NewTicksAreTicks(c: C.Config, batches: seq<C.VerifiedBatch>, fp: Digest) returns (n: nat, k: nat)
    requires fp in CR.AllNewTicks(c, batches)
    ensures n < |batches| && C.OccurrencesOf(c, batches[n]).Some? && k < |C.OccurrencesOf(c, batches[n]).value|
    ensures C.OccurrencesOf(c, batches[n]).value[k].fingerprint == fp
  {
    hide C.Run, C.Occurrences, CT.Continues, CT.Met;
    var before, last := batches[..|batches| - 1], |batches| - 1;
    if fp in CR.AllNewTicks(c, before) {
      n, k := NewTicksAreTicks(c, before, fp);
    } else {
      n := last;
      assert fp in CR.NewTicks(c, C.Run(c, before).state, batches[last]);
      var fps := C.Fps(C.OccurrencesOf(c, batches[last]).value);
      assert fp in fps;
      k :| 0 <= k < |fps| && fps[k] == fp;
    }
  }

  lemma {:induction false} OccurrenceIsSelected(c: C.Config, b: C.VerifiedBatch, upTo: nat, k: nat) returns (j: nat)
    requires upTo <= |b.selected| && C.Occurrences(c, b, upTo).Some? && k < |C.Occurrences(c, b, upTo).value|
    ensures j < upTo && b.selected[j] < |b.frame.records|
    ensures C.Occurrences(c, b, upTo).value[k].fingerprint == Fingerprint(b.frame.records[b.selected[j]])
  {
    hide Fingerprint;
    var before := C.Occurrences(c, b, upTo - 1).value;
    if k < |before| {
      j := OccurrenceIsSelected(c, b, upTo - 1, k);
    } else {
      j := upTo - 1;
    }
  }

  lemma {:induction false} EmittedIsData(rows: seq<ReplayRow>, fp: Digest)
    requires Emitted(rows, fp)
    ensures fp in CT.DataFps(rows)
  {
    var j :| 0 <= j < |rows| && rows[j].Data? && rows[j].fingerprint == fp;
    if j < |rows| - 1 {
      assert rows[..|rows| - 1][j] == rows[j];
      EmittedIsData(rows[..|rows| - 1], fp);
    }
  }

  /** Every payload in the replay stream of an accepted day is that of a record of the day. */
  lemma OnlyTheDayIsReplayed(m: Manifest.Manifest, objects: seq<RawObject>, scope: Manifest.Scope, c: C.Config, fp: Digest)
    returns (i: nat, o: nat)
    requires ReplayTheorems.ReplayAccepted(m, objects, scope) && scope.maxRecords <= MAX_RECORDS && 1 <= c.maxRecords
    requires C.Run(c, DayInput(Items(objects), m.day)).Done?
    requires Emitted(C.Run(c, DayInput(Items(objects), m.day)).state.rows, fp)
    ensures RecordAt(Items(objects), m.day, i, o) && Fingerprint(RecordOf(Items(objects), i, o)) == fp
  {
    hide Items, Manifest.Valid, Segments.Contiguous, ReplayExpansion.Expand, Segments.ChainFor, C.Run, ReplayTheorems.DayBatches,
         DayOrdinals, Fingerprint, Derive, C.Occurrences, CR.AllNewTicks, CT.DataFps;
    var items := Items(objects);
    var batches := DayInput(items, m.day);
    EmittedIsData(C.Run(c, batches).state.rows, fp);
    CR.OutputIsTheNewTicks(c, batches);
    var n, k := NewTicksAreTicks(c, batches, fp);
    var j := OccurrenceIsSelected(c, batches[n], |batches[n].selected|, k);
    i := EntryOfBatch(items, m.day, n);
    var b := items[i].entry.frame;
    DeriveSucceedsIff(items, m.day, scope.maxRecords);
    SelectedAreRecords(b, m.day, batches[n]);
    o := batches[n].selected[j];
    DayOrdinalsAre(b, m.day);
    assert DayOrdinals(b, m.day)[j] in DayOrdinals(b, m.day);
    assert OnDay(b, m.day, o);
  }
}
