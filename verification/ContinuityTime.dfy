/** Time order inside continuity segments. */
module ContinuityTime {
  import opened Protocol
  import opened Digests
  import opened Replay
  import opened Overlap
  import opened Continuity
  import opened ContinuityTheorems
  import opened ContinuityRuns

  /** Neighbouring data rows never go back in time; a marker ends the comparison. */
  predicate TimeOrdered(rows: seq<ReplayRow>) {
    |rows| < 2 ||
    var last := |rows| - 1;
    && TimeOrdered(rows[..last])
    && (rows[last - 1].Data? && rows[last].Data? ==> rows[last - 1].record.timeMsc <= rows[last].record.timeMsc)
  }

  /** Rows `i` and `j` of one segment are in time order. */
  lemma {:induction false} SegmentTimes(rows: seq<ReplayRow>, i: nat, j: nat)
    requires TimeOrdered(rows) && i <= j < |rows|
    requires forall m :: i <= m <= j ==> rows[m].Data?
    ensures rows[i].record.timeMsc <= rows[j].record.timeMsc
  {
    if i < j {
      if j < |rows| - 1 {
        SegmentTimes(rows[..|rows| - 1], i, j);
      } else {
        SegmentTimes(rows[..|rows| - 1], i, j - 1);
      }
    }
  }

  predicate Sorted(os: seq<Occurrence>) {
    forall i, j :: 0 <= i < j < |os| ==> os[i].timeMsc <= os[j].timeMsc
  }

  /** The source reports records in time order, and they are selected in their order. */
  predicate InTimeOrder(b: VerifiedBatch) {
    && (forall i, j :: 0 <= i < j < |b.frame.records| ==> b.frame.records[i].timeMsc <= b.frame.records[j].timeMsc)
    && (forall i, j :: 0 <= i < j < |b.selected| ==> b.selected[i] < b.selected[j])
  }

  lemma {:induction false} OccurrencesInOrder(c: Config, b: VerifiedBatch, upTo: nat)
    requires InTimeOrder(b) && upTo <= |b.selected| && Occurrences(c, b, upTo).Some?
    ensures var os := Occurrences(c, b, upTo).value;
            && Sorted(os)
            && forall i :: 0 <= i < |os| ==> && 0 < upTo && os[i].recordOrdinal <= b.selected[upTo - 1]
                                             && os[i].recordOrdinal < |b.frame.records|
                                             && os[i].timeMsc == b.frame.records[os[i].recordOrdinal].timeMsc
  {
    if upTo > 0 {
      OccurrencesInOrder(c, b, upTo - 1);
    }
  }

  lemma LastRow(c: Config, s: State)
    requires TailMatches(c, s) && s.rows != [] && 1 <= c.maxRecords
    ensures var row := s.rows[|s.rows| - 1];
            if s.last.None? then row.Marker? else row.Data? && row.record.timeMsc == s.last.value.timeMsc
  {
    var seg := Segment(s.rows);
    if s.last.Some? {
      assert Carries(c, s.segmentId, seg[|seg| - 1], s.tail[|s.tail| - 1]);
    }
  }

  lemma StartKeepsTime(c: Config, s: State, code: MarkerCode, detail: MarkerDetail, b: VerifiedBatch,
                       reference: Option<Occurrence>)
    requires TimeOrdered(s.rows)
    ensures TimeOrdered(StartSegment(c, s, code, detail, b, reference).state.rows)
  {
    hide RowValid, RowChainStep, SegmentId;
    var row := MarkerFor(c, s, code, detail, b, reference);
    assert (s.rows + [row])[..|s.rows|] == s.rows;
  }

  lemma EmitKeepsTime(c: Config, s: State, o: Occurrence)
    requires Inv(c, s) && s.rows != [] && TimeOrdered(s.rows) && WellMade(c, o)
    requires s.last.Some? ==> s.last.value.timeMsc <= o.timeMsc
    ensures TimeOrdered(EmitOccurrence(c, s, o).state.rows)
  {
    hide RowValid, RowChainStep, ObservationHash, Summary;
    LastRow(c, s);
    var row := MakeDataRow(c.scope, s.segmentId, o, |s.rows|);
    assert (s.rows + [row])[..|s.rows|] == s.rows;
  }

  lemma {:induction false} EmitAllKeepsTime(c: Config, s: State, os: seq<Occurrence>)
    requires Inv(c, s) && s.rows != [] && TimeOrdered(s.rows) && AllWellMade(c, os) && Sorted(os)
    requires s.last.Some? && os != [] ==> s.last.value.timeMsc <= os[0].timeMsc
    ensures TimeOrdered(EmitAll(c, s, os).state.rows)
    decreases |os|
  {
    hide Inv, TimeOrdered, EmitOccurrence;
    if os != [] {
      var before := os[..|os| - 1];
      EmitAllKeepsTime(c, s, before);
      EmitAllKeeps(c, s, before);
      if EmitAll(c, s, before).Done? {
        EmitKeepsTime(c, EmitAll(c, s, before).state, os[|os| - 1]);
      }
    }
  }

  lemma AlignKeepsTime(c: Config, s: State, b: VerifiedBatch, os: seq<Occurrence>)
    requires Inv(c, s) && TailMatches(c, s) && s.rows != [] && os != [] && TimeOrdered(s.rows)
    requires s.last.Some? ==> s.last.value.timeMsc <= os[0].timeMsc
    ensures var (a, k) := Align(c, s, b, os);
            && TimeOrdered(a.state.rows)
            && (a.Done? && a.state.last.Some? ==> a.state.last.value.timeMsc <= os[0].timeMsc)
  {
    hide Inv, StartSegment, TimeOrdered;
    TailProducer(c, s);
    var change := HistoryChangeAt(Fps(s.tail), Fps(os));
    if change.Some? {
      StartKeepsTime(c, s, SOURCE_HISTORY_CHANGED, OnePayloadChanged, b, Some(s.tail[change.value]));
      StartSegmentEffect(c, s, SOURCE_HISTORY_CHANGED, OnePayloadChanged, b, Some(s.tail[change.value]));
    } else if Ambiguous(s, os) {
      StartKeepsTime(c, s, AMBIGUOUS_OVERLAP, ManyPositions, b, s.last);
      StartSegmentEffect(c, s, AMBIGUOUS_OVERLAP, ManyPositions, b, s.last);
    } else if LongestJoin(Fps(s.tail), Fps(os)) == 0 && |s.tail| > 0 {
      StartKeepsTime(c, s, AMBIGUOUS_OVERLAP, NoProvableOverlap, b, s.last);
      StartSegmentEffect(c, s, AMBIGUOUS_OVERLAP, NoProvableOverlap, b, s.last);
    }
  }

  lemma AbsorbKeepsTime(c: Config, s: State, b: VerifiedBatch, os: seq<Occurrence>)
    requires Inv(c, s) && s.rows != [] && os != [] && TimeOrdered(s.rows) && AllWellMade(c, os) && Sorted(os)
    ensures TimeOrdered(Absorb(c, s, b, os).state.rows)
  {
    hide Inv, StartSegment, TimeOrdered, Align, EmitAll, TailMatches;
    RegressionEffect(c, s, b, os);
    StartKeepsTime(c, s, TIMESTAMP_REGRESSION, TimeMovedBackwards, b, s.last);
    var r := RegressionCheck(c, s, b, os);
    if r.Done? {
      InvTail(c, r.state);
      assert r.state.last.Some? ==> r.state.last.value.timeMsc <= os[0].timeMsc by {
        StartSegmentEffect(c, s, TIMESTAMP_REGRESSION, TimeMovedBackwards, b, s.last);
      }
      AlignEffect(c, r.state, b, os);
      AlignKeepsTime(c, r.state, b, os);
      var (a, k) := Align(c, r.state, b, os);
      if a.Done? {
        EmitAllKeepsTime(c, a.state, os[k..]);
      }
    }
  }

  lemma StepKeepsTime(c: Config, s: State, b: VerifiedBatch)
    requires LoopInv(c, s) && TimeOrdered(s.rows) && InTimeOrder(b)
    ensures TimeOrdered(Step(c, s, b).state.rows)
  {
    hide Inv, StartSegment, TimeOrdered, Absorb, Occurrences, Sorted, AllWellMade, InTimeOrder;
    if Admissible(c, b) {
      StartKeepsTime(c, s, SEGMENT_START, FirstOccurrence, b, None);
      StartKeepsTime(c, s, GAP, BatchSequenceGap, b, s.last);
      OpenOrGapKeeps(c, s, b);
      var o := OpenOrGap(c, s, b);
      if o.Done? {
        EnterKeeps(c, o.state, b);
        var s1 := Enter(o.state, b);
        StartKeepsTime(c, s1, SOURCE_ERROR, CopyTicksError(b.frame.copyTicksError), b, s1.last);
        var os := OccurrencesOf(c, b);
        if os.Some? && os.value != [] {
          OccurrencesWellMade(c, b, |b.selected|);
          OccurrencesInOrder(c, b, |b.selected|);
          AbsorbKeepsTime(c, s1, b, os.value);
        }
      }
    }
  }

  lemma {:induction false} RunIsTimeOrdered(c: Config, batches: seq<VerifiedBatch>)
    requires 1 <= c.maxRecords && forall i :: 0 <= i < |batches| ==> InTimeOrder(batches[i])
    ensures TimeOrdered(Run(c, batches).state.rows)
  {
    hide LoopInv, Step, InTimeOrder;
    if batches != [] {
      var before := batches[..|batches| - 1];
      RunIsTimeOrdered(c, before);
      RunLoopInv(c, before);
      if Run(c, before).Done? {
        StepKeepsTime(c, Run(c, before).state, batches[|batches| - 1]);
      }
    }
  }

  /** When every batch is in time order, any two rows of one segment of the output are in time order. */
  lemma RunKeepsTime(c: Config, batches: seq<VerifiedBatch>, i: nat, j: nat)
    requires 1 <= c.maxRecords && forall k :: 0 <= k < |batches| ==> InTimeOrder(batches[k])
    requires i <= j < |Run(c, batches).state.rows| && forall m :: i <= m <= j ==> Run(c, batches).state.rows[m].Data?
    ensures Run(c, batches).state.rows[i].record.timeMsc <= Run(c, batches).state.rows[j].record.timeMsc
  {
    hide Run, InTimeOrder, TimeOrdered;
    RunIsTimeOrdered(c, batches);
    SegmentTimes(Run(c, batches).state.rows, i, j);
  }
}
