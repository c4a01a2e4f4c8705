/**
 What `Reduce` does with one verified batch (internal/continuity/reducer.go), as a function from
 reducer state to reducer state. `rows` is everything handed to the row sink so far.
 */
module Continuity {
  import opened Protocol
  import opened Digests
  import opened Replay
  import opened Overlap

  datatype Producer = Producer(instance: Text, provider: Text, feed: Text, broker: Text, symbol: Text)

  datatype VerifiedBatch = VerifiedBatch(
    objectKey: ObjectKey, objectSha: Digest, gatewaySequence: U64, frame: BatchFrame, selected: seq<U32>)

  /** The reader's scope, identity and record limit, the lease derivation, and whether the sink accepts a row. */
  datatype Config = Config(
    scope: ReplayScope, producer: Producer, maxRecords: nat,
    lease: (Producer, Text) -> Text, sink: ReplayRow -> bool)

  datatype Occurrence = Occurrence(
    fingerprint: Digest, timeMsc: I64, gatewaySequence: U64, recordOrdinal: U32, record: Tick, batch: BatchFrame,
    rawKey: ObjectKey, rawSha: Digest, producerInstanceId: Text)

  datatype State = State(
    rows: seq<ReplayRow>, rowHash: Digest, segmentId: Digest,
    tail: seq<Occurrence>, last: Option<Occurrence>,
    haveBatch: bool, session: Text, batchSequence: U64,
    markerCount: nat, segmentCount: nat)

  /** A failed step keeps the state it reached: its rows have already been given to the sink. */
  datatype Outcome = Done(state: State) | Failed(state: State)

  const START: State := State([], Zero, Zero, [], None, false, [], 0, 0, 0)

  function Fps(os: seq<Occurrence>): (fs: seq<Digest>)
    ensures |fs| == |os| && forall i :: 0 <= i < |os| ==> fs[i] == os[i].fingerprint
  {
    seq(|os|, i requires 0 <= i < |os| => os[i].fingerprint)
  }

  function MakeDataRow(scope: ReplayScope, segmentId: Digest, o: Occurrence, streamSequence: nat): ReplayRow {
    Data(scope, streamSequence, segmentId, o.rawKey, o.rawSha, o.gatewaySequence, o.producerInstanceId,
         o.batch.sessionId, o.batch.batchSequence, o.recordOrdinal, o.record.captureSequence, o.record, o.fingerprint,
         ObservationHash(o.producerInstanceId, o.batch.sessionId, o.batch.batchSequence, o.recordOrdinal,
                         o.record.captureSequence, o.fingerprint),
         o.batch.fetchWallStartS, o.batch.fetchWallEndS, o.batch.fetchMonotonicStartUs, o.batch.fetchMonotonicEndUs,
         o.batch.copyTicksError, o.batch.sourceStatusFlags)
  }

  /** `emit` */
  function Emit(c: Config, s: State, row: ReplayRow): Outcome {
    if !RowValid(row) || row.streamSequence != |s.rows| || !c.sink(row) then Failed(s)
    else Done(s.(rows := s.rows + [row], rowHash := RowChainStep(row.streamSequence, s.rowHash, row),
                 markerCount := s.markerCount + if row.Marker? then 1 else 0))
  }

  function MarkerFor(c: Config, s: State, code: MarkerCode, detail: MarkerDetail, b: VerifiedBatch,
                     reference: Option<Occurrence>): ReplayRow
  {
    var gatewaySequence := if reference.Some? then reference.value.gatewaySequence else b.gatewaySequence;
    var ordinal := if reference.Some? then reference.value.recordOrdinal else 0;
    Marker(c.scope, |s.rows|, SegmentId(c.scope, gatewaySequence, ordinal, code, s.rowHash),
           b.objectKey, b.objectSha, code, ReasonFor(code), detail, gatewaySequence, ordinal,
           s.rowHash, s.rowHash)
  }

  /** `startSegment`: a marker, then an empty tail. */
  function StartSegment(c: Config, s: State, code: MarkerCode, detail: MarkerDetail, b: VerifiedBatch,
                        reference: Option<Occurrence>): Outcome
  {
    var marker := MarkerFor(c, s, code, detail, b, reference);
    var o := Emit(c, s, marker);
    if o.Failed? then o
    else Done(o.state.(segmentCount := s.segmentCount + 1, segmentId := marker.segmentId, tail := [], last := None))
  }

  /** The checks made on a batch before any row is emitted for it. */
  predicate Admissible(c: Config, b: VerifiedBatch) {
    && |b.frame.records| <= c.maxRecords
    && b.frame.schemaId == SOURCE_SCHEMA_MT5
    && b.frame.sessionId != []
    && b.frame.leaseId == c.lease(c.producer, b.frame.sessionId)
    && b.selected != []
  }

  function OccurrenceOf(c: Config, b: VerifiedBatch, ordinal: U32): (o: Occurrence)
    requires ordinal < |b.frame.records|
  {
    var record := b.frame.records[ordinal];
    Occurrence(Fingerprint(record), record.timeMsc, b.gatewaySequence, ordinal, record, b.frame,
               b.objectKey, b.objectSha, c.producer.instance)
  }

  /** The selected records; the zero-record sentinel contributes none, any other missing ordinal is an error. */
  function Occurrences(c: Config, b: VerifiedBatch, upTo: nat): Option<seq<Occurrence>>
    requires upTo <= |b.selected|
  {
    if upTo == 0 then Some([]) else
    var before := Occurrences(c, b, upTo - 1);
    var ordinal := b.selected[upTo - 1];
    if before.None? then None
    else if ordinal < |b.frame.records| then Some(before.value + [OccurrenceOf(c, b, ordinal)])
    else if |b.frame.records| == 0 && ordinal == 0 then before
    else None
  }

  function OccurrencesOf(c: Config, b: VerifiedBatch): Option<seq<Occurrence>> {
    Occurrences(c, b, |b.selected|)
  }

  /** The first batch opens the stream; a skipped batch sequence within one session is a gap. */
  function OpenOrGap(c: Config, s: State, b: VerifiedBatch): Outcome {
    if !s.haveBatch then StartSegment(c, s, SEGMENT_START, FirstOccurrence, b, None)
    else if b.frame.sessionId == s.session && b.frame.batchSequence != (s.batchSequence + 1) % 0x1_0000_0000_0000_0000
    then StartSegment(c, s, GAP, BatchSequenceGap, b, s.last)
    else Done(s)
  }

  function RegressionCheck(c: Config, s: State, b: VerifiedBatch, os: seq<Occurrence>): Outcome
    requires os != []
  {
    if s.last.Some? && os[0].timeMsc < s.last.value.timeMsc
    then StartSegment(c, s, TIMESTAMP_REGRESSION, TimeMovedBackwards, b, s.last)
    else Done(s)
  }

  ghost predicate Ambiguous(s: State, os: seq<Occurrence>) {
    var longest := LongestJoin(Fps(s.tail), Fps(os));
    longest > 0 && !OccursOnce(Fps(s.tail), Fps(os)[..longest])
  }

  /** The number of leading occurrences already at the end of the segment, or a new segment and 0. */
  ghost function Align(c: Config, s: State, b: VerifiedBatch, os: seq<Occurrence>): (r: (Outcome, nat))
    ensures r.1 <= |os|
  {
    var change := HistoryChangeAt(Fps(s.tail), Fps(os));
    if change.Some? && s.last.Some? && s.last.value.producerInstanceId == c.producer.instance then
      (StartSegment(c, s, SOURCE_HISTORY_CHANGED, OnePayloadChanged, b,
                    Some(s.tail[change.value])), 0)
    else if Ambiguous(s, os) then
      (StartSegment(c, s, AMBIGUOUS_OVERLAP, ManyPositions, b, s.last), 0)
    else
      var longest := LongestJoin(Fps(s.tail), Fps(os));
      if longest == 0 && |s.tail| > 0 then
        (StartSegment(c, s, AMBIGUOUS_OVERLAP, NoProvableOverlap, b, s.last), 0)
      else (Done(s), longest)
  }

  function Bounded(tail: seq<Occurrence>, limit: nat): seq<Occurrence> {
    if |tail| > limit then tail[|tail| - limit..] else tail
  }

  /** One turn of the emission loop. */
  function EmitOccurrence(c: Config, s: State, o: Occurrence): Outcome {
    var e := Emit(c, s, MakeDataRow(c.scope, s.segmentId, o, |s.rows|));
    if e.Failed? then e
    else Done(e.state.(tail := Bounded(s.tail + [o], c.maxRecords), last := Some(o)))
  }

  function EmitAll(c: Config, s: State, os: seq<Occurrence>): Outcome
    decreases |os|
  {
    if os == [] then Done(s) else
    var e := EmitAll(c, s, os[..|os| - 1]);
    if e.Failed? then e else EmitOccurrence(c, e.state, os[|os| - 1])
  }

  ghost function Absorb(c: Config, s: State, b: VerifiedBatch, os: seq<Occurrence>): Outcome
    requires os != []
  {
    var checked := RegressionCheck(c, s, b, os);
    if checked.Failed? then checked else
    var (aligned, overlap) := Align(c, checked.state, b, os);
    if aligned.Failed? then aligned else EmitAll(c, aligned.state, os[overlap..])
  }

  function Enter(s: State, b: VerifiedBatch): State {
    s.(session := b.frame.sessionId, batchSequence := b.frame.batchSequence, haveBatch := true)
  }

  /** One turn of the loop of `Reduce`. */
  ghost function Step(c: Config, s: State, b: VerifiedBatch): Outcome {
    if !Admissible(c, b) then Failed(s) else
    var entered := OpenOrGap(c, s, b);
    if entered.Failed? then entered else
    var s1 := Enter(entered.state, b);
    var os := OccurrencesOf(c, b);
    if os.None? then Failed(s1)
    else if b.frame.copyTicksError != 0 then
      StartSegment(c, s1, SOURCE_ERROR, CopyTicksError(b.frame.copyTicksError), b, s1.last)
    else if os.value == [] then Done(s1)
    else Absorb(c, s1, b, os.value)
  }

  /** The whole loop over the batches of a reader. */
  ghost function Run(c: Config, batches: seq<VerifiedBatch>): Outcome {
    if batches == [] then Done(START) else
    var before := Run(c, batches[..|batches| - 1]);
    if before.Failed? then before else Step(c, before.state, batches[|batches| - 1])
  }
}
