/** `Reduce` in its own form: a loop whose closures update captured variables, here the fields of an object. */
module Reducers {
  import opened Protocol
  import opened Digests
  import opened Replay
  import opened Overlap
  import C = Continuity
  import opened ContinuityTheorems
  import opened ContinuityRuns

  datatype Result = Result(
    rowCount: nat, markerCount: nat, segmentCount: nat, lastSegmentId: Digest, rowChainRoot: Digest, tailSize: nat)

  function Outcome(ok: bool, s: C.State): C.Outcome {
    if ok then C.Done(s) else C.Failed(s)
  }

  predicate IdentityComplete(p: C.Producer) {
    p.instance != [] && p.provider != [] && p.feed != [] && p.broker != [] && p.symbol != []
  }

  predicate Startable(c: C.Config) {
    ScopeValid(c.scope) && IdentityComplete(c.producer) && 0 < c.maxRecords <= MAX_RECORDS
  }

  class Reducer {
    const config: C.Config
    var emitted: seq<ReplayRow> // what the sink has accepted
    var rowCount: nat
    var markerCount: nat
    var segmentCount: nat
    var previousRowHash: Digest
    var currentSegmentId: Digest
    var tail: seq<C.Occurrence>
    var previousOccurrence: Option<C.Occurrence>
    var previousSession: Text
    var previousBatchSequence: U64
    var haveBatchSequence: bool

    ghost predicate Valid()
      reads this
    {
      rowCount == |emitted|
    }

    ghost function View(): C.State
      reads this
    {
      C.State(emitted, previousRowHash, currentSegmentId, tail, previousOccurrence,
              haveBatchSequence, previousSession, previousBatchSequence, markerCount, segmentCount)
    }

    constructor (config: C.Config)
      ensures this.config == config && Valid() && View() == C.START
    {
      this.config := config;
      emitted, rowCount, markerCount, segmentCount := [], 0, 0, 0;
      previousRowHash, currentSegmentId, tail, previousOccurrence := Zero, Zero, [], None;
      previousSession, previousBatchSequence, haveBatchSequence := [], 0, false;
    }

    method Emit(row: ReplayRow) returns (ok: bool)
      requires Valid()
      modifies this`emitted, this`rowCount, this`markerCount, this`previousRowHash
      ensures Valid() && Outcome(ok, View()) == C.Emit(config, old(View()), row)
    {
      if !RowValid(row) {
        return false;
      }
      if row.streamSequence != rowCount {
        return false;
      }
      var nextRowHash := RowChainStep(row.streamSequence, previousRowHash, row);
      if !config.sink(row) {
        return false;
      }
      emitted := emitted + [row];
      rowCount := rowCount + 1;
      if row.Marker? {
        markerCount := markerCount + 1;
      }
      previousRowHash := nextRowHash;
      return true;
    }

    method MakeMarker(code: MarkerCode, detail: MarkerDetail, batch: C.VerifiedBatch, reference: Option<C.Occurrence>)
      returns (marker: ReplayRow)
      requires Valid()
      ensures marker == C.MarkerFor(config, View(), code, detail, batch, reference) && marker.Marker?
    {
      hide SegmentId, ReasonFor;
      var gatewaySequence, recordOrdinal := batch.gatewaySequence, 0;
      if reference.Some? {
        gatewaySequence := reference.value.gatewaySequence;
        recordOrdinal := reference.value.recordOrdinal;
      }
      var segmentId := SegmentId(config.scope, gatewaySequence, recordOrdinal, code, previousRowHash);
      marker := Marker(config.scope, rowCount, segmentId, batch.objectKey, batch.objectSha, code, ReasonFor(code), detail,
                           gatewaySequence, recordOrdinal, previousRowHash, previousRowHash);
    }

    method StartSegment(code: MarkerCode, detail: MarkerDetail, batch: C.VerifiedBatch, reference: Option<C.Occurrence>)
      returns (ok: bool)
      requires Valid()
      modifies this
      ensures Valid() && Outcome(ok, View()) == C.StartSegment(config, old(View()), code, detail, batch, reference)
    {
      hide RowValid, RowChainStep, C.MarkerFor, C.Emit;
      var marker := MakeMarker(code, detail, batch, reference);
      ok := Emit(marker);
      if !ok {
        return;
      }
      segmentCount := segmentCount + 1;
      currentSegmentId := marker.segmentId;
      tail := [];
      previousOccurrence := None;
    }

    /** The loop that turns selected ordinals into occurrences. */
    method Collect(batch: C.VerifiedBatch) returns (occurrences: Option<seq<C.Occurrence>>)
      ensures occurrences == C.OccurrencesOf(config, batch)
    {
      var found: seq<C.Occurrence> := [];
      for k := 0 to |batch.selected|
        invariant C.Occurrences(config, batch, k) == Some(found)
      {
        var ordinal := batch.selected[k];
        if ordinal >= |batch.frame.records| {
          if |batch.frame.records| == 0 && ordinal == 0 {
            continue;
          }
          NoneStays(config, batch, k + 1, |batch.selected|);
          return None;
        }
        found := found + [C.OccurrenceOf(config, batch, ordinal)];
      }
      return Some(found);
    }

    /** The body of the emission loop: one row, and one more occurrence at the end of the bounded tail. */
    method EmitOne(occurrence: C.Occurrence) returns (ok: bool)
      requires Valid()
      modifies this
      ensures Valid() && Outcome(ok, View()) == C.EmitOccurrence(config, old(View()), occurrence)
    {
      hide RowValid, RowChainStep, C.MakeDataRow;
      var row := C.MakeDataRow(config.scope, currentSegmentId, occurrence, rowCount);
      ok := Emit(row);
      if !ok {
        return false;
      }
      tail := tail + [occurrence];
      if |tail| > config.maxRecords {
        tail := tail[|tail| - config.maxRecords..];
      }
      previousOccurrence := Some(occurrence);
    }

    /** The emission loop over the occurrences beyond the overlap. */
    method EmitOccurrences(occurrences: seq<C.Occurrence>) returns (ok: bool)
      requires Valid()
      modifies this
      ensures Valid() && Outcome(ok, View()) == C.EmitAll(config, old(View()), occurrences)
    {
      hide C.EmitOccurrence;
      for k := 0 to |occurrences|
        invariant Valid() && C.EmitAll(config, old(View()), occurrences[..k]) == C.Done(View())
      {
        assert occurrences[..k + 1][..k] == occurrences[..k];
        ok := EmitOne(occurrences[k]);
        if !ok {
          FailureStays(config, old(View()), occurrences, k + 1);
          return false;
        }
      }
      assert occurrences[..|occurrences|] == occurrences;
      return true;
    }

    /** Where the batch joins the tail: a history change, an overlap, or a new segment. */
    method AlignWith(batch: C.VerifiedBatch, occurrences: seq<C.Occurrence>) returns (ok: bool, overlap: nat)
      requires Valid()
      modifies this
      ensures Valid() && overlap <= |occurrences|
      ensures (Outcome(ok, View()), overlap) == C.Align(config, old(View()), batch, occurrences)
    {
      hide C.StartSegment, HistoryChangeAt, LongestJoin, OccursOnce;
      var change := UniqueHistoryChange(C.Fps(tail), C.Fps(occurrences));
      if change.Some? && previousOccurrence.Some? && previousOccurrence.value.producerInstanceId == config.producer.instance {
        ok := StartSegment(SOURCE_HISTORY_CHANGED, OnePayloadChanged, batch, Some(tail[change.value]));
        return ok, 0;
      }
      var ambiguous;
      overlap, ambiguous := OverlapLength(C.Fps(tail), C.Fps(occurrences));
      ok := true;
      if ambiguous || (overlap == 0 && |tail| > 0) {
        var detail := NoProvableOverlap;
        if ambiguous {
          detail := ManyPositions;
        }
        ok := StartSegment(AMBIGUOUS_OVERLAP, detail, batch, previousOccurrence);
        overlap := 0;
      }
    }

    /** The body of the loop of `Reduce`. */
    method Process(batch: C.VerifiedBatch) returns (ok: bool)
      requires Valid()
      modifies this
      ensures Valid() && Outcome(ok, View()) == C.Step(config, old(View()), batch)
    {
      hide C.StartSegment, C.Align, C.EmitAll, C.Occurrences;
      if !C.Admissible(config, batch) {
        return false;
      }
      if !haveBatchSequence {
        ok := StartSegment(SEGMENT_START, FirstOccurrence, batch, None);
        if !ok { return; }
      } else if batch.frame.sessionId == previousSession
                && batch.frame.batchSequence != (previousBatchSequence + 1) % 0x1_0000_0000_0000_0000 {
        ok := StartSegment(GAP, BatchSequenceGap, batch, previousOccurrence);
        if !ok { return; }
      }
      previousSession := batch.frame.sessionId;
      previousBatchSequence := batch.frame.batchSequence;
      haveBatchSequence := true;
      var collected := Collect(batch);
      if collected.None? {
        return false;
      }
      var occurrences := collected.value;
      if batch.frame.copyTicksError != 0 {
        ok := StartSegment(SOURCE_ERROR, CopyTicksError(batch.frame.copyTicksError), batch, previousOccurrence);
        return;
      }
      if |occurrences| == 0 {
        return true;
      }
      if previousOccurrence.Some? && occurrences[0].timeMsc < previousOccurrence.value.timeMsc {
        ok := StartSegment(TIMESTAMP_REGRESSION, TimeMovedBackwards, batch, previousOccurrence);
        if !ok { return; }
      }
      var overlap;
      ok, overlap := AlignWith(batch, occurrences);
      if !ok { return; }
      ok := EmitOccurrences(occurrences[overlap..]);
    }

    /**
     `Reduce` over the batches of a reader that may end in an error. The summary it returns is that of
     the emitted rows: their count, their markers and the root of their hash chain.
     */
    method Reduce(batches: seq<C.VerifiedBatch>, readerFails: bool) returns (result: Option<Result>)
      requires Valid() && View() == C.START
      modifies this
      ensures result.Some? <==> Startable(config) && C.Run(config, batches).Done? && !readerFails
      ensures Startable(config) ==> emitted == C.Run(config, batches).state.rows
      ensures result.Some? ==>
                && result.value.rowCount == |emitted|
                && result.value.markerCount == result.value.segmentCount == Markers(emitted)
                && StreamFrom(0, emitted) && result.value.rowChainRoot == ChainFrom(Zero, emitted)
                && result.value.tailSize == Min(|Segment(emitted)|, config.maxRecords)
                && (emitted != [] ==> && NearestMarker(emitted).Some?
                                      && result.value.lastSegmentId == NearestMarker(emitted).value.segmentId)
    {
      hide C.Step, LoopInv;
      if !Startable(config) {
        return None;
      }
      for k := 0 to |batches|
        invariant Valid() && C.Run(config, batches[..k]) == C.Done(View())
      {
        assert batches[..k + 1][..k] == batches[..k];
        var ok := Process(batches[k]);
        if !ok {
          RunFailureStays(config, batches, k + 1);
          return None;
        }
      }
      assert batches[..|batches|] == batches;
      if readerFails {
        return None;
      }
      assert RowsInv(emitted, previousRowHash) && Summary(View()) && TailMatches(config, View()) by {
        RunLoopInv(config, batches);
        LoopFacts(config, View());
      }
      return Some(Result(rowCount, markerCount, segmentCount, currentSegmentId, previousRowHash, |tail|));
    }
  }

  lemma LoopFacts(c: C.Config, s: C.State)
    requires LoopInv(c, s)
    ensures RowsInv(s.rows, s.rowHash) && Summary(s) && TailMatches(c, s)
  {
  }

  lemma {:induction false} NoneStays(c: C.Config, b: C.VerifiedBatch, k: nat, n: nat)
    requires k <= n <= |b.selected| && C.Occurrences(c, b, k).None?
    ensures C.Occurrences(c, b, n).None?
  {
    if k < n {
      NoneStays(c, b, k, n - 1);
    }
  }

  lemma {:induction false} FailureStays(c: C.Config, s: C.State, os: seq<C.Occurrence>, k: nat)
    requires k <= |os| && C.EmitAll(c, s, os[..k]).Failed?
    ensures C.EmitAll(c, s, os) == C.EmitAll(c, s, os[..k])
    decreases |os|
  {
    hide C.EmitOccurrence;
    if k == |os| {
      assert os[..k] == os;
    } else {
      var before := os[..|os| - 1];
      assert before[..k] == os[..k];
      FailureStays(c, s, before, k);
    }
  }

  lemma {:induction false} RunFailureStays(c: C.Config, batches: seq<C.VerifiedBatch>, k: nat)
    requires k <= |batches| && C.Run(c, batches[..k]).Failed?
    ensures C.Run(c, batches) == C.Run(c, batches[..k])
    decreases |batches|
  {
    hide C.Step;
    if k == |batches| {
      assert batches[..k] == batches;
    } else {
      var before := batches[..|batches| - 1];
      assert before[..k] == batches[..k];
      RunFailureStays(c, before, k);
    }
  }
}
