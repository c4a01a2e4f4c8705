/** When the reducer gets through its input. */
module ContinuityFinish {
  import opened Protocol
  import opened Decimal
  import opened Digests
  import opened Replay
  import opened Overlap
  import opened Continuity
  import opened ContinuityTheorems
  import opened ContinuityRuns

  /** A reader with a valid scope and producer, and a sink that takes every row. */
  ghost predicate Willing(c: Config) {
    ScopeValid(c.scope) && IsName(c.producer.instance) && forall row :: c.sink(row)
  }

  /** A batch as the source delivers it: from a content-addressed object, with a session name that fits the wire, and with ordinals that exist. */
  predicate Delivered(c: Config, b: VerifiedBatch) {
    && b.objectSha != Zero && b.objectKey == WalKey(b.objectSha)
    && |b.frame.sessionId| <= MAX_STRING_BYTES && OccurrencesOf(c, b).Some?
  }

  /** An occurrence that makes a valid row. */
  predicate Presentable(o: Occurrence) {
    && o.rawSha != Zero && o.rawKey == WalKey(o.rawSha) && IsName(o.producerInstanceId) && IsName(o.batch.sessionId)
    && o.fingerprint == Fingerprint(o.record)
  }

  lemma {:induction false} OccurrencesPresentable(c: Config, b: VerifiedBatch, upTo: nat, k: nat)
    requires Willing(c) && Delivered(c, b) && b.frame.sessionId != []
    requires upTo <= |b.selected| && Occurrences(c, b, upTo).Some? && k < |Occurrences(c, b, upTo).value|
    ensures Presentable(Occurrences(c, b, upTo).value[k])
  {
    hide Fingerprint;
    var before := Occurrences(c, b, upTo - 1).value;
    if k < |before| {
      OccurrencesPresentable(c, b, upTo - 1, k);
    }
  }

  /** Once there is a batch there is a segment. */
  predicate InSegment(s: State) {
    s.haveBatch ==> s.segmentId != Zero
  }

  lemma DetailIsShort(code: I32)
    ensures DetailLength(CopyTicksError(code)) <= MAX_STRING_BYTES
  {
    hide FormatNat;
    assert Pow10(10) == 10_000_000_000;
    var n: int := code;
    FormatLength(if n < 0 then -n else n, 10);
  }

  lemma StartFinishes(c: Config, s: State, code: MarkerCode, detail: MarkerDetail, b: VerifiedBatch, reference: Option<Occurrence>)
    requires Willing(c) && Delivered(c, b) && DetailLength(detail) <= MAX_STRING_BYTES
    ensures var o := StartSegment(c, s, code, detail, b, reference);
            o.Done? && o.state.segmentId != Zero && o.state.haveBatch == s.haveBatch
  {
    hide DetailLength, Occurrences, Canonical, CanonicalLength;
    var marker := MarkerFor(c, s, code, detail, b, reference);
    assert RowValid(marker);
  }

  lemma {:induction false} EmitAllFinishes(c: Config, s: State, os: seq<Occurrence>)
    requires Willing(c) && s.segmentId != Zero && forall k :: 0 <= k < |os| ==> Presentable(os[k])
    ensures var o := EmitAll(c, s, os); o.Done? && o.state.segmentId == s.segmentId && o.state.haveBatch == s.haveBatch
    decreases |os|
  {
    hide Fingerprint, Bounded, ObservationHash, Canonical, CanonicalLength;
    if os != [] {
      EmitAllFinishes(c, s, os[..|os| - 1]);
      var t, o := EmitAll(c, s, os[..|os| - 1]).state, os[|os| - 1];
      assert RowValid(MakeDataRow(c.scope, t.segmentId, o, |t.rows|));
    }
  }

  lemma AlignFinishes(c: Config, s: State, b: VerifiedBatch, os: seq<Occurrence>)
    requires Willing(c) && Delivered(c, b) && s.segmentId != Zero
    ensures var o := Align(c, s, b, os).0; o.Done? && o.state.segmentId != Zero && o.state.haveBatch == s.haveBatch
  {
    hide StartSegment, Willing, Delivered, HistoryChangeAt, LongestJoin, OccursOnce;
    var change := HistoryChangeAt(Fps(s.tail), Fps(os));
    if change.Some? && s.last.Some? {
      StartFinishes(c, s, SOURCE_HISTORY_CHANGED, OnePayloadChanged, b, Some(s.tail[change.value]));
    }
    StartFinishes(c, s, AMBIGUOUS_OVERLAP, ManyPositions, b, s.last);
    StartFinishes(c, s, AMBIGUOUS_OVERLAP, NoProvableOverlap, b, s.last);
  }

  lemma AbsorbFinishes(c: Config, s: State, b: VerifiedBatch, os: seq<Occurrence>)
    requires Willing(c) && Delivered(c, b) && s.segmentId != Zero && os != [] && forall k :: 0 <= k < |os| ==> Presentable(os[k])
    ensures var o := Absorb(c, s, b, os); o.Done? && o.state.segmentId != Zero && o.state.haveBatch == s.haveBatch
  {
    hide StartSegment, Willing, Delivered, Align, EmitAll, Presentable;
    StartFinishes(c, s, TIMESTAMP_REGRESSION, TimeMovedBackwards, b, s.last);
    var r := RegressionCheck(c, s, b, os);
    AlignFinishes(c, r.state, b, os);
    var (a, k) := Align(c, r.state, b, os);
    EmitAllFinishes(c, a.state, os[k..]);
  }

  lemma StepFinishes(c: Config, s: State, b: VerifiedBatch)
    requires Willing(c) && Delivered(c, b) && Admissible(c, b) && InSegment(s)
    ensures Step(c, s, b).Done? && InSegment(Step(c, s, b).state)
  {
    hide StartSegment, Absorb, Presentable, Willing, FormatInt;
    StartFinishes(c, s, SEGMENT_START, FirstOccurrence, b, None);
    StartFinishes(c, s, GAP, BatchSequenceGap, b, s.last);
    var s1 := Enter(OpenOrGap(c, s, b).state, b);
    DetailIsShort(b.frame.copyTicksError);
    StartFinishes(c, s1, SOURCE_ERROR, CopyTicksError(b.frame.copyTicksError), b, s1.last);
    var os := OccurrencesOf(c, b).value;
    forall k | 0 <= k < |os| ensures Presentable(os[k]) {
      OccurrencesPresentable(c, b, |b.selected|, k);
    }
    if os != [] {
      AbsorbFinishes(c, s1, b, os);
    }
  }

  lemma {:induction false} RunFinishes(c: Config, batches: seq<VerifiedBatch>)
    requires Willing(c) && forall i :: 0 <= i < |batches| ==> Delivered(c, batches[i]) && Admissible(c, batches[i])
    ensures Run(c, batches).Done? && InSegment(Run(c, batches).state)
  {
    hide Willing, Delivered, Admissible, Step;
    if batches != [] {
      var before := batches[..|batches| - 1];
      RunFinishes(c, before);
      StepFinishes(c, Run(c, before).state, batches[|batches| - 1]);
    }
  }

  /** With a willing reader and sink, the reducer gets through delivered batches if and only if it admits every one of them. */
  lemma RunFinishesIff(c: Config, batches: seq<VerifiedBatch>)
    requires 1 <= c.maxRecords && Willing(c) && forall i :: 0 <= i < |batches| ==> Delivered(c, batches[i])
    ensures Run(c, batches).Done? <==> forall i :: 0 <= i < |batches| ==> Admissible(c, batches[i])
  {
    hide Willing, Delivered, Run, Admissible;
    if forall i :: 0 <= i < |batches| ==> Admissible(c, batches[i]) {
      RunFinishes(c, batches);
    } else if Run(c, batches).Done? {
      var i :| 0 <= i < |batches| && !Admissible(c, batches[i]);
      RunPrefix(c, batches, i + 1);
      NotAdmitted(c, batches[..i + 1]);
    }
  }

  lemma NotAdmitted(c: Config, batches: seq<VerifiedBatch>)
    requires batches != [] && !Admissible(c, batches[|batches| - 1])
    ensures !Run(c, batches).Done?
  {
    hide Admissible;
  }
}
