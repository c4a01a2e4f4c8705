/** The cursor answer to a batch (internal/ingest/cursor.go, internal/ingest/config.go). */
module Cursor {
  import opened Protocol
  import opened Digests

  datatype IngestConfig = IngestConfig(
    gatewayId: Text, maxRecords: U32, initialFromMsc: I64, initialBatchCount: U32, maximumBatchCount: U32,
    denseCap: U32, leaseTimeout: nat)

  function WithDefaults(c: IngestConfig): IngestConfig {
    var maxRecords := if c.maxRecords == 0 then MAX_RECORDS else c.maxRecords;
    var initial := if c.initialBatchCount == 0 then 128 else c.initialBatchCount;
    var maximum := if c.maximumBatchCount == 0 then maxRecords else c.maximumBatchCount;
    var cap := if c.denseCap == 0 then maximum else c.denseCap;
    c.(maxRecords := maxRecords, initialBatchCount := initial, maximumBatchCount := maximum, denseCap := cap)
  }

  /** The bounds that `Config.Validate` puts on the batch sizes, on a config with its defaults filled in. */
  predicate ConfigValid(c: IngestConfig) {
    0 < c.initialBatchCount <= c.denseCap <= c.maximumBatchCount <= c.maxRecords <= MAX_RECORDS
  }

  lemma ValidConfigIsNormal(c: IngestConfig)
    requires ConfigValid(c)
    ensures WithDefaults(c) == c
  {
  }

  datatype AckStatus =
    | AcceptedAdvanced | AcceptedNoAdvance | Duplicate | DenseBoundary | DenseUnresolved
    | RetryableError | FatalProtocolError | SourceStateConflict | SessionLeaseConflict

  /** The committed state of the journal, without its update time. */
  datatype CursorState = CursorState(
    gatewayId: Text, cursorMsc: I64, boundary: Digest, nextFromMsc: I64, nextCount: U32,
    lastSequence: nat, lastEntryHash: Digest)

  datatype Outcome = Outcome(status: AckStatus, cursorMsc: I64, boundary: Digest, nextFromMsc: I64, nextCount: U32)

  function MaxTime(records: seq<Tick>): (m: I64)
    requires records != []
    ensures forall i :: 0 <= i < |records| ==> records[i].timeMsc <= m
    ensures exists i :: 0 <= i < |records| && records[i].timeMsc == m
  {
    if |records| == 1 then records[0].timeMsc
    else
      var before := MaxTime(records[..|records| - 1]);
      var last := records[|records| - 1].timeMsc;
      if last > before then last else before
  }

  function AtTime(records: seq<Tick>, msc: I64): seq<Tick> {
    if records == [] then [] else
    var before, last := AtTime(records[..|records| - 1], msc), records[|records| - 1];
    if last.timeMsc == msc then before + [last] else before
  }

  /** Go's conversion of a uint32 to an int32. */
  function AsInt32(x: U32): I32 {
    if x < 0x8000_0000 then x else x - 0x1_0000_0000
  }

  predicate Effective(b: BatchFrame) {
    b.copyTicksError == 0 && b.returnedCount >= 0 && b.records != []
  }

  predicate FullAnswer(b: BatchFrame) {
    b.requestedCount > 0 && b.returnedCount == AsInt32(b.requestedCount)
  }

  /** Doubling in 32-bit arithmetic, held at the cap. */
  function NextDense(current: U32, cap: U32): U32 {
    var next := current * 2 % 0x1_0000_0000;
    if next < current || next > cap then cap else next
  }

  /** `outcomeForBatch` */
  function OutcomeFor(s: CursorState, b: BatchFrame, config: IngestConfig): Outcome {
    var c := WithDefaults(config);
    var count := if s.nextCount == 0 then c.initialBatchCount else s.nextCount;
    var from := if s.nextFromMsc == 0 && s.cursorMsc != 0 then s.cursorMsc else s.nextFromMsc;
    var same := Outcome(AcceptedNoAdvance, s.cursorMsc, s.boundary, from, count);
    if !Effective(b) then same else
    var max := MaxTime(b.records);
    if max > s.cursorMsc then
      Outcome(AcceptedAdvanced, max, BoundaryDigest(max, Zero, AtTime(b.records, max)), max, c.initialBatchCount)
    else if max < s.cursorMsc then same
    else if FullAnswer(b) then
      var current := if b.requestedCount > count then b.requestedCount else count;
      if current >= c.denseCap then same.(status := DenseUnresolved, nextCount := c.denseCap, nextFromMsc := s.cursorMsc)
      else same.(status := DenseBoundary, nextCount := NextDense(current, c.denseCap), nextFromMsc := s.cursorMsc)
    else
      same.(boundary := BoundaryDigest(s.cursorMsc, s.boundary, AtTime(b.records, max)),
            nextCount := c.initialBatchCount, nextFromMsc := s.cursorMsc)
  }

  method MaxTimeOf(records: seq<Tick>) returns (max: I64)
    requires records != []
    ensures max == MaxTime(records)
  {
    max := records[0].timeMsc;
    for k := 1 to |records|
      invariant max == MaxTime(records[..k])
    {
      assert records[..k + 1][..k] == records[..k];
      if records[k].timeMsc > max {
        max := records[k].timeMsc;
      }
    }
    assert records[..|records|] == records;
  }

  /** `boundaryRecords` */
  method BoundaryRecords(records: seq<Tick>, cursorMsc: I64) returns (result: seq<Tick>)
    ensures result == AtTime(records, cursorMsc)
  {
    result := [];
    for k := 0 to |records|
      invariant result == AtTime(records[..k], cursorMsc)
    {
      assert records[..k + 1][..k] == records[..k];
      if records[k].timeMsc == cursorMsc {
        result := result + [records[k]];
      }
    }
    assert records[..|records|] == records;
  }

  method OutcomeForBatch(state: CursorState, batch: BatchFrame, config: IngestConfig) returns (outcome: Outcome)
    ensures outcome == OutcomeFor(state, batch, config)
  {
    var c := WithDefaults(config);
    outcome := Outcome(AcceptedNoAdvance, state.cursorMsc, state.boundary, state.nextFromMsc, state.nextCount);
    if outcome.nextCount == 0 {
      outcome := outcome.(nextCount := c.initialBatchCount);
    }
    if outcome.nextFromMsc == 0 && state.cursorMsc != 0 {
      outcome := outcome.(nextFromMsc := state.cursorMsc);
    }
    if batch.copyTicksError != 0 || batch.returnedCount < 0 || |batch.records| == 0 {
      return;
    }
    var max := MaxTimeOf(batch.records);
    if max > state.cursorMsc {
      var records := BoundaryRecords(batch.records, max);
      return Outcome(AcceptedAdvanced, max, BoundaryDigest(max, Zero, records), max, c.initialBatchCount);
    }
    if max < state.cursorMsc {
      return;
    }
    var records := BoundaryRecords(batch.records, max);
    if batch.requestedCount > 0 && batch.returnedCount == AsInt32(batch.requestedCount) {
      var current := outcome.nextCount;
      if batch.requestedCount > current {
        current := batch.requestedCount;
      }
      if current >= c.denseCap {
        return outcome.(status := DenseUnresolved, nextCount := c.denseCap, nextFromMsc := state.cursorMsc);
      }
      var next := current * 2 % 0x1_0000_0000;
      if next < current || next > c.denseCap {
        next := c.denseCap;
      }
      return outcome.(status := DenseBoundary, nextCount := next, nextFromMsc := state.cursorMsc);
    }
    return outcome.(boundary := BoundaryDigest(state.cursorMsc, state.boundary, records),
                    nextCount := c.initialBatchCount, nextFromMsc := state.cursorMsc);
  }

  /** The state a batch leaves, apart from the WAL position that goes with it. */
  function Commit(s: CursorState, o: Outcome): CursorState {
    s.(cursorMsc := o.cursorMsc, boundary := o.boundary, nextFromMsc := o.nextFromMsc, nextCount := o.nextCount)
  }

  function InitialState(c: IngestConfig): CursorState {
    CursorState(c.gatewayId, c.initialFromMsc, Zero, c.initialFromMsc, c.initialBatchCount, 0, Zero)
  }

  function CursorAfter(c: IngestConfig, batches: seq<BatchFrame>): CursorState {
    if batches == [] then InitialState(c) else
    var before := CursorAfter(c, batches[..|batches| - 1]);
    Commit(before, OutcomeFor(before, batches[|batches| - 1], c))
  }

  /** A state the gateway can be in: it asks for more from its cursor on, within the configured sizes. */
  predicate Settled(c: IngestConfig, s: CursorState) {
    s.nextFromMsc == s.cursorMsc && c.initialBatchCount <= s.nextCount <= c.denseCap
  }

  lemma OutcomeSettles(c: IngestConfig, s: CursorState, b: BatchFrame)
    requires ConfigValid(c) && Settled(c, s)
    ensures Settled(c, Commit(s, OutcomeFor(s, b, c)))
    ensures s.cursorMsc <= OutcomeFor(s, b, c).cursorMsc
  {
    ValidConfigIsNormal(c);
  }

  /** Over any batches the next request starts at the cursor, for a count between the initial one and the hard cap. */
  lemma {:induction false} AlwaysSettled(c: IngestConfig, batches: seq<BatchFrame>)
    requires ConfigValid(c)
    ensures Settled(c, CursorAfter(c, batches))
  {
    if batches != [] {
      AlwaysSettled(c, batches[..|batches| - 1]);
      OutcomeSettles(c, CursorAfter(c, batches[..|batches| - 1]), batches[|batches| - 1]);
    }
  }

  /** `time` is the configured start or a record time in an error-free batch. */
  ghost predicate Reported(c: IngestConfig, batches: seq<BatchFrame>, time: int) {
    || time == c.initialFromMsc
    || exists i, k :: && 0 <= i < |batches| && Effective(batches[i])
                      && 0 <= k < |batches[i].records| && batches[i].records[k].timeMsc == time
  }

  /** The committed cursor is the maximum of the start value and every record time in an error-free batch. */
  lemma {:induction false} CursorIsTheMaximum(c: IngestConfig, batches: seq<BatchFrame>)
    requires ConfigValid(c)
    ensures Reported(c, batches, CursorAfter(c, batches).cursorMsc)
    ensures forall time :: Reported(c, batches, time) ==> time <= CursorAfter(c, batches).cursorMsc
  {
    if batches != [] {
      var before, b := batches[..|batches| - 1], batches[|batches| - 1];
      CursorIsTheMaximum(c, before);
      var s := CursorAfter(c, before);
      AlwaysSettled(c, before);
      OutcomeSettles(c, s, b);
      NewCursor(c, s, b);
      var cursor := CursorAfter(c, batches).cursorMsc;
      forall time | Reported(c, batches, time) ensures time <= cursor {
        if !Reported(c, before, time) {
          var i, k :| 0 <= i < |batches| && Effective(batches[i]) && 0 <= k < |batches[i].records|
                      && batches[i].records[k].timeMsc == time;
          assert i < |before| ==> batches[i] == before[i];
        }
      }
      if cursor == s.cursorMsc {
        ReportedGrows(c, before, b, cursor);
      } else {
        var k :| 0 <= k < |b.records| && b.records[k].timeMsc == cursor;
        assert batches[|batches| - 1].records[k].timeMsc == cursor;
      }
    }
  }

  lemma ReportedGrows(c: IngestConfig, before: seq<BatchFrame>, b: BatchFrame, time: int)
    requires Reported(c, before, time)
    ensures Reported(c, before + [b], time)
  {
    if time != c.initialFromMsc {
      var i, k :| 0 <= i < |before| && Effective(before[i]) && 0 <= k < |before[i].records|
                  && before[i].records[k].timeMsc == time;
      assert (before + [b])[i].records[k].timeMsc == time;
    }
  }

  lemma NewCursor(c: IngestConfig, s: CursorState, b: BatchFrame)
    ensures var o := OutcomeFor(s, b, c);
            && (o.cursorMsc != s.cursorMsc ==> Effective(b) && o.cursorMsc == MaxTime(b.records))
            && (Effective(b) ==> forall k :: 0 <= k < |b.records| ==> b.records[k].timeMsc <= o.cursorMsc)
  {
  }

  // ---- Two states that give one answer ----

  predicate SameCursor(s: CursorState, t: CursorState) {
    s.cursorMsc == t.cursorMsc && s.boundary == t.boundary && s.nextFromMsc == t.nextFromMsc && s.nextCount == t.nextCount
  }

  /** The count that a full answer at the cursor is measured by. */
  function DenseCount(s: CursorState, b: BatchFrame): U32 {
    if b.requestedCount > s.nextCount then b.requestedCount else s.nextCount
  }

  /** Counts that are doubled to the same count, or are both beyond the cap. */
  predicate SameDenseStep(cap: nat, x: nat, y: nat) {
    x == y || (cap <= x && cap <= y) || (x < cap <= 2 * x && y < cap <= 2 * y)
  }

  /**
   When two states answer one batch alike. A batch with records later than both cursors always gets the same
   answer. Otherwise cursor and boundary must agree, and beyond that as much as the answer repeats.
   */
  predicate AnswersAgree(c: IngestConfig, s: CursorState, t: CursorState, b: BatchFrame) {
    if !Effective(b) then SameCursor(s, t) else
    var max := MaxTime(b.records);
    (max > s.cursorMsc && max > t.cursorMsc) ||
    (&& s.cursorMsc == t.cursorMsc && s.boundary == t.boundary
     && (max < s.cursorMsc ==> s.nextCount == t.nextCount)
     && (max == s.cursorMsc && FullAnswer(b) ==> SameDenseStep(c.denseCap, DenseCount(s, b), DenseCount(t, b))))
  }

  lemma SameOutcomeIff(c: IngestConfig, s: CursorState, t: CursorState, b: BatchFrame)
    requires ConfigValid(c) && Settled(c, s) && Settled(c, t)
    ensures OutcomeFor(s, b, c) == OutcomeFor(t, b, c) <==> AnswersAgree(c, s, t, b)
  {
    ValidConfigIsNormal(c);
    hide WithDefaults, NextDense, SameDenseStep, BoundaryDigest, AtTime, MaxTime, FullAnswer;
    if Effective(b) && s.cursorMsc == t.cursorMsc == MaxTime(b.records) {
      BoundaryKeepsPrevious(s.cursorMsc, s.boundary, t.boundary, AtTime(b.records, s.cursorMsc));
      SameDenseStepIff(c.denseCap, DenseCount(s, b), DenseCount(t, b));
    }
  }

  lemma SameDenseStepIff(cap: U32, x: U32, y: U32)
    requires 0 < cap <= MAX_RECORDS
    ensures SameDenseStep(cap, x, y) <==> if x < cap && y < cap then NextDense(x, cap) == NextDense(y, cap) else cap <= x && cap <= y
  {
    DoublingIsCapped(cap, x);
    DoublingIsCapped(cap, y);
  }

  lemma DoublingIsCapped(cap: U32, x: U32)
    requires 0 < cap <= MAX_RECORDS
    ensures x < cap ==> NextDense(x, cap) == if 2 * x > cap then cap else 2 * x
  {
  }

  lemma BoundaryKeepsPrevious(msc: int, p: Digest, q: Digest, records: seq<Tick>)
    ensures BoundaryDigest(msc, p, records) == BoundaryDigest(msc, q, records) <==> p == q
  {
    var d, e := BoundaryDigest(msc, p, records), BoundaryDigest(msc, q, records);
    assert d.preimage[2] == Hash(p) && e.preimage[2] == Hash(q);
  }

  function Pow2(n: nat): nat {
    if n == 0 then 1 else 2 * Pow2(n - 1)
  }

  /** Every one of the batches is answered with a dense boundary. */
  ghost predicate AllDense(c: IngestConfig, s: CursorState, batches: seq<BatchFrame>)
    decreases |batches|
  {
    batches == [] ||
    var o := OutcomeFor(s, batches[0], c);
    o.status == DenseBoundary && AllDense(c, Commit(s, o), batches[1..])
  }

  lemma DenseDoubles(c: IngestConfig, s: CursorState, b: BatchFrame)
    requires ConfigValid(c) && Settled(c, s) && OutcomeFor(s, b, c).status == DenseBoundary
    ensures s.nextCount < c.denseCap
    ensures var o := OutcomeFor(s, b, c);
            o.nextCount > s.nextCount && (o.nextCount >= 2 * s.nextCount || o.nextCount == c.denseCap)
  {
    ValidConfigIsNormal(c);
  }

  /** A run of dense answers is logarithmically short: each one doubles the count or reaches the cap. */
  lemma {:induction false} DenseRunsAreShort(c: IngestConfig, s: CursorState, batches: seq<BatchFrame>)
    requires ConfigValid(c) && Settled(c, s) && batches != [] && AllDense(c, s, batches)
    ensures s.nextCount * Pow2(|batches| - 1) < c.denseCap
    ensures c.initialBatchCount * Pow2(|batches| - 1) < c.denseCap
    decreases |batches|
  {
    hide OutcomeFor;
    var b := batches[0];
    var t := Commit(s, OutcomeFor(s, b, c));
    DenseDoubles(c, s, b);
    OutcomeSettles(c, s, b);
    if |batches| > 1 {
      DenseRunsAreShort(c, t, batches[1..]);
      DoublesOnceMore(s.nextCount, t.nextCount, c.denseCap, |batches| - 1);
    }
    PowPositive(|batches| - 1);
    MulMono(c.initialBatchCount, s.nextCount, Pow2(|batches| - 1));
  }

  /**
   A millisecond whose ticks have all been seen leaves the cursor where it is, and the next request begins there again
   with the initial count, however many ticks the millisecond has.
   */
  lemma ResolvedAsksAfresh(c: IngestConfig, s: CursorState, b: BatchFrame)
    requires ConfigValid(c) && Settled(c, s) && Effective(b) && MaxTime(b.records) == s.cursorMsc && !FullAnswer(b)
    ensures var o := OutcomeFor(s, b, c);
            o.status == AcceptedNoAdvance && o.cursorMsc == o.nextFromMsc == s.cursorMsc && o.nextCount == c.initialBatchCount
  {
    ValidConfigIsNormal(c);
  }

  lemma DoublesOnceMore(count: nat, next: nat, cap: nat, n: nat)
    requires n > 0 && next * Pow2(n - 1) < cap && (next >= 2 * count || next == cap)
    ensures count * Pow2(n) < cap
  {
    var p := Pow2(n - 1);
    PowPositive(n - 1);
    MulMono(1, p, next);
    assert next != cap;
    MulMono(2 * count, next, p);
    assert count * (2 * p) == 2 * count * p;
  }

  lemma PowPositive(n: nat)
    ensures Pow2(n) >= 1
  {
  }

  lemma MulMono(a: nat, b: nat, p: nat)
    requires a <= b
    ensures a * p <= b * p && p * a <= p * b
  {
  }
}
