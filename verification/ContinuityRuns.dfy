/** Theorems about whole runs of the reducer. */
module ContinuityRuns {
  import opened Protocol
  import opened Digests
  import opened Replay
  import opened Overlap
  import opened Continuity
  import opened ContinuityTheorems
  import opened Counting

  lemma InitialLoopInv(c: Config)
    requires 1 <= c.maxRecords
    ensures LoopInv(c, START)
  {
    hide RowsInv, Segment, Markers, TailOf;
    NoRowsYet();
    NoTail(c, Zero);
  }

  lemma NoRowsYet()
    ensures RowsInv([], Zero) && Segment([]) == [] && Markers([]) == 0
  {
    hide RowValid, RowChainStep;
  }

  lemma {:induction false} RunLoopInv(c: Config, batches: seq<VerifiedBatch>)
    requires 1 <= c.maxRecords
    ensures LoopInv(c, Run(c, batches).state)
  {
    hide LoopInv, Step;
    if batches == [] {
      InitialLoopInv(c);
    } else {
      var before := batches[..|batches| - 1];
      RunLoopInv(c, before);
      if Run(c, before).Done? {
        StepKeeps(c, Run(c, before).state, batches[|batches| - 1]);
      }
    }
  }

  /** The rows are numbered 0, 1, 2, ... and valid, and the running hash is `RowChainRoot` of all of them. */
  lemma RunIsOneChain(c: Config, batches: seq<VerifiedBatch>)
    requires 1 <= c.maxRecords
    ensures var s := Run(c, batches).state;
            && StreamFrom(0, s.rows)
            && s.rowHash == ChainFrom(Zero, s.rows)
            && s.segmentCount == s.markerCount == Markers(s.rows)
            && |s.tail| == Min(|Segment(s.rows)|, c.maxRecords)
  {
    hide Run;
    RunLoopInv(c, batches);
  }

  /** The first row opens the stream, and every data row names the nearest marker before it. */
  lemma RunIsSegmented(c: Config, batches: seq<VerifiedBatch>, i: nat)
    requires 1 <= c.maxRecords && i < |Run(c, batches).state.rows|
    ensures var rows := Run(c, batches).state.rows;
            && rows[0].Marker? && rows[0].code == SEGMENT_START
            && (rows[i].Data? ==> && NearestMarker(rows[..i]).Some?
                                  && rows[i].segmentId == NearestMarker(rows[..i]).value.segmentId)
  {
    hide Run;
    RunLoopInv(c, batches);
    if Run(c, batches).state.rows[i].Data? {
      SegmentedAt(Run(c, batches).state.rows, i);
    }
  }

  lemma {:induction false} RunPrefix(c: Config, batches: seq<VerifiedBatch>, n: nat)
    requires 1 <= c.maxRecords && Run(c, batches).Done? && n <= |batches|
    ensures Run(c, batches[..n]).Done?
    ensures Run(c, batches[..n]).state.rows <= Run(c, batches).state.rows
  {
    hide LoopInv, Step;
    if n == |batches| {
      assert batches[..n] == batches;
    } else {
      var before := batches[..|batches| - 1];
      RunLoopInv(c, before);
      StepKeeps(c, Run(c, before).state, batches[|batches| - 1]);
      RunPrefix(c, before, n);
      assert before[..n] == batches[..n];
    }
  }

  lemma StepNeedsOccurrences(c: Config, s: State, b: VerifiedBatch)
    requires Step(c, s, b).Done?
    ensures Admissible(c, b) && OccurrencesOf(c, b).Some?
  {
  }

  /** After batch `i` of a finished run the segment ends with that batch, and those rows stay in the output. */
  lemma BatchIsDelivered(c: Config, batches: seq<VerifiedBatch>, i: nat)
    requires 1 <= c.maxRecords && Run(c, batches).Done? && i < |batches|
    ensures OccurrencesOf(c, batches[i]).Some?
    ensures var os := OccurrencesOf(c, batches[i]).value;
            batches[i].frame.copyTicksError == 0 && os != [] ==>
              && Run(c, batches[..i + 1]).state.rows <= Run(c, batches).state.rows
              && EndsWith(SegmentFps(Run(c, batches[..i + 1]).state.rows), Fps(os))
  {
    hide LoopInv, Step, Fps, SegmentFps, Occurrences;
    RunPrefix(c, batches, i + 1);
    var upTo := batches[..i + 1];
    assert upTo[..i] == batches[..i] && upTo[|upTo| - 1] == batches[i];
    RunLoopInv(c, batches[..i]);
    StepNeedsOccurrences(c, Run(c, batches[..i]).state, batches[i]);
    if batches[i].frame.copyTicksError == 0 && OccurrencesOf(c, batches[i]).value != [] {
      SegmentEndsWithBatch(c, Run(c, batches[..i]).state, batches[i]);
    }
  }

  lemma FpInSegment(rows: seq<ReplayRow>, all: seq<ReplayRow>, q: seq<Digest>, k: nat)
    requires rows <= all && EndsWith(SegmentFps(rows), q) && k < |q|
    ensures exists j :: 0 <= j < |all| && all[j].Data? && all[j].fingerprint == q[k]
  {
    var seg := Segment(rows);
    var at := |seg| - |q| + k;
    assert SegmentFps(rows)[at] == q[k];
    assert all[|rows| - |seg| + at] == seg[at];
  }

  /** No tick is lost: every selected record of every error-free batch has its fingerprint in the output. */
  lemma NoTickIsLost(c: Config, batches: seq<VerifiedBatch>, i: nat, k: nat)
    requires 1 <= c.maxRecords && Run(c, batches).Done? && i < |batches|
    requires batches[i].frame.copyTicksError == 0
    requires OccurrencesOf(c, batches[i]).Some? && k < |OccurrencesOf(c, batches[i]).value|
    ensures exists j :: 0 <= j < |Run(c, batches).state.rows| && Run(c, batches).state.rows[j].Data?
                        && Run(c, batches).state.rows[j].fingerprint == OccurrencesOf(c, batches[i]).value[k].fingerprint
  {
    hide Run, Step, SegmentFps, Occurrences;
    BatchIsDelivered(c, batches, i);
    FpInSegment(Run(c, batches[..i + 1]).state.rows, Run(c, batches).state.rows,
                Fps(OccurrencesOf(c, batches[i]).value), k);
  }

  /** The ticks of batch `b` that lie beyond its overlap with the segment it meets. */
  ghost function NewTicks(c: Config, s: State, b: VerifiedBatch): seq<Digest> {
    var os := OccurrencesOf(c, b);
    if b.frame.copyTicksError != 0 || os.None? || os.value == [] then []
    else if Continues(Met(c, s, b), os.value)
    then Fps(os.value)[LongestJoin(Fps(Met(c, s, b).tail), Fps(os.value))..]
    else Fps(os.value)
  }

  ghost function AllNewTicks(c: Config, batches: seq<VerifiedBatch>): seq<Digest> {
    if batches == [] then [] else
    var before := batches[..|batches| - 1];
    AllNewTicks(c, before) + NewTicks(c, Run(c, before).state, batches[|batches| - 1])
  }

  lemma StepAddsNewTicks(c: Config, s: State, b: VerifiedBatch)
    requires LoopInv(c, s) && Step(c, s, b).Done?
    ensures DataFps(Step(c, s, b).state.rows) == DataFps(s.rows) + NewTicks(c, s, b)
  {
    hide Inv, Fps, SegmentFps, DataFps, Segment, StartSegment, Absorb, Occurrences, Continues, LongestJoin;
    OpenKeepsTicks(c, s, b);
    var m := Met(c, s, b);
    if b.frame.copyTicksError != 0 {
      OpenOrGapKeeps(c, s, b);
      EnterKeeps(c, OpenOrGap(c, s, b).state, b);
      StartSegmentEffect(c, m, SOURCE_ERROR, CopyTicksError(b.frame.copyTicksError), b, m.last);
    } else if OccurrencesOf(c, b).value != [] {
      StepAbsorbs(c, s, b);
    }
  }

  lemma OpenKeepsTicks(c: Config, s: State, b: VerifiedBatch)
    requires LoopInv(c, s)
    ensures DataFps(OpenOrGap(c, s, b).state.rows) == DataFps(s.rows)
  {
    hide Inv, DataFps, StartSegment;
    if !s.haveBatch {
      StartSegmentEffect(c, s, SEGMENT_START, FirstOccurrence, b, None);
    } else {
      StartSegmentEffect(c, s, GAP, BatchSequenceGap, b, s.last);
    }
  }

  /** Conservation: the data rows of a finished run are the new ticks of its batches, in order, and nothing else. */
  lemma {:induction false} OutputIsTheNewTicks(c: Config, batches: seq<VerifiedBatch>)
    requires 1 <= c.maxRecords && Run(c, batches).Done?
    ensures DataFps(Run(c, batches).state.rows) == AllNewTicks(c, batches)
  {
    hide LoopInv, Step, DataFps, NewTicks;
    if batches == [] {
      assert DataFps([]) == [] by { EmptyStream(); }
    } else {
      var before := batches[..|batches| - 1];
      OutputIsTheNewTicks(c, before);
      RunLoopInv(c, before);
      StepAddsNewTicks(c, Run(c, before).state, batches[|batches| - 1]);
    }
  }

  lemma EmptyStream()
    ensures DataFps([]) == []
  {
  }

  function Ordinals(os: seq<Occurrence>): (xs: seq<int>)
    ensures |xs| == |os| && forall i :: 0 <= i < |os| ==> xs[i] == os[i].recordOrdinal
  {
    seq(|os|, i requires 0 <= i < |os| => os[i].recordOrdinal)
  }

  lemma {:induction false} OrdinalsOf(c: Config, b: VerifiedBatch, upTo: nat)
    requires upTo <= |b.selected| && Occurrences(c, b, upTo).Some? && AllDistinct(b.selected)
    ensures var os := Occurrences(c, b, upTo).value;
            && AllDistinct(Ordinals(os))
            && forall i :: 0 <= i < |os| ==> os[i].recordOrdinal < |b.frame.records|
                                             && os[i].recordOrdinal in b.selected[..upTo]
  {
    if upTo > 0 {
      OrdinalsOf(c, b, upTo - 1);
      var os := Occurrences(c, b, upTo - 1).value;
      var more := Occurrences(c, b, upTo).value;
      assert b.selected[..upTo] == b.selected[..upTo - 1] + [b.selected[upTo - 1]];
      assert b.selected[upTo - 1] !in b.selected[..upTo - 1];
      assert forall i :: 0 <= i < |os| ==> Ordinals(more)[i] == Ordinals(os)[i];
    }
  }

  /**
   For a batch with distinct ordinals the longest overlap with the bounded tail is the longest overlap
   with the whole segment: the tail never forgets a tick that a batch could still repeat.
   */
  lemma NoOverlapIsForgotten(c: Config, s: State, b: VerifiedBatch)
    requires Inv(c, s) && Admissible(c, b) && AllDistinct(b.selected) && OccurrencesOf(c, b).Some?
    ensures var q := Fps(OccurrencesOf(c, b).value);
            LongestJoin(Fps(s.tail), q) == LongestJoin(SegmentFps(s.rows), q)
  {
    hide Summary, TailMatches, Occurrences, SegmentFps, LongestJoin;
    var os := OccurrencesOf(c, b).value;
    OrdinalsOf(c, b, |b.selected|);
    DistinctBelow(Ordinals(os), |b.frame.records|);
    BoundedTailSuffices(c, s, Fps(os));
  }
}
