/**
 What the reducer makes of a source that is one stream of distinct ticks, reported in windows: exactly that
 stream, if each window extends what came before it, and more segments than one otherwise.
 */
module ContinuityWindows {
  import opened Protocol
  import opened Digests
  import opened Replay
  import opened Overlap
  import opened Continuity
  import opened ContinuityTheorems
  import opened ContinuityRuns

  function TickFps(ticks: seq<Tick>): (fs: seq<Digest>)
    ensures |fs| == |ticks| && forall i :: 0 <= i < |ticks| ==> fs[i] == Fingerprint(ticks[i])
  {
    seq(|ticks|, i requires 0 <= i < |ticks| => Fingerprint(ticks[i]))
  }

  predicate Distinct(f: seq<Digest>) {
    forall i, j :: 0 <= i < |f| && 0 <= j < |f| && f[i] == f[j] ==> i == j
  }

  /** An error-free batch whose selected records are ticks `lo` to `hi` of the source. */
  predicate IsWindow(c: Config, b: VerifiedBatch, ticks: seq<Tick>, lo: int, hi: int) {
    && 0 <= lo < hi <= |ticks| && hi - lo <= c.maxRecords
    && b.frame.copyTicksError == 0
    && OccurrencesOf(c, b).Some?
    && Fps(OccurrencesOf(c, b).value) == TickFps(ticks)[lo..hi]
  }

  lemma WindowUnchanged(f: seq<Digest>, start: nat, upTo: nat, lo: nat, hi: nat, length: int, offset: int)
    requires Distinct(f) && start <= lo < upTo <= hi <= |f|
    ensures !ChangedAt(f[start..upTo], upTo - start - length, f[lo..hi], length, offset)
  {
    var at := upTo - start - length;
    if 0 <= at && length <= hi - lo && 0 < offset < length - 1 && f[start..upTo][at] == f[lo..hi][0] {
      assert f[start + at] == f[lo];
      assert f[start..upTo][at + offset] == f[lo..hi][offset];
    }
  }

  lemma NoHistoryChange(f: seq<Digest>, start: nat, upTo: nat, lo: nat, hi: nat)
    requires Distinct(f) && start <= lo < upTo <= hi <= |f|
    ensures HistoryChangeAt(f[start..upTo], f[lo..hi]) == None
  {
    hide ChangedAt;
    forall length, offset ensures !HistoryChange(f[start..upTo], f[lo..hi], length, offset) {
      WindowUnchanged(f, start, upTo, lo, hi, length, offset);
    }
  }

  lemma WindowJoin(f: seq<Digest>, start: nat, upTo: nat, lo: nat, hi: nat)
    requires Distinct(f) && start <= lo < upTo <= hi <= |f|
    ensures LongestJoin(f[start..upTo], f[lo..hi]) == upTo - lo
  {
    var p, q := f[start..upTo], f[lo..hi];
    assert p[|p| - (upTo - lo)..] == f[lo..upTo] == q[..upTo - lo];
    assert Joins(p, q, upTo - lo);
    var longest := LongestJoin(p, q);
    assert p[|p| - longest] == p[|p| - longest..][0] == q[..longest][0] == q[0];
    assert f[upTo - longest] == f[lo];
  }

  lemma WindowOccursOnce(f: seq<Digest>, start: nat, upTo: nat, lo: nat, hi: nat)
    requires Distinct(f) && start <= lo < upTo <= hi <= |f|
    ensures OccursOnce(f[start..upTo], f[lo..hi][..upTo - lo])
  {
    var p, w := f[start..upTo], f[lo..hi][..upTo - lo];
    assert p[lo - start..upTo - start] == f[lo..upTo] == w;
    assert OccursAt(p, w, lo - start);
    forall other | OccursAt(p, w, other) ensures other == lo - start {
      assert p[other] == p[other..other + |w|][0] == w[0];
      assert f[start + other] == f[lo];
    }
  }

  lemma SameFingerprintSameTime(t: Tick, u: Tick)
    requires Fingerprint(t) == Fingerprint(u)
    ensures t.timeMsc == u.timeMsc
  {
    assert Fingerprint(t).preimage[6] == FI64(t.timeMsc);
    assert Fingerprint(u).preimage[6] == FI64(u.timeMsc);
  }

  lemma LastTickTime(c: Config, s: State, ticks: seq<Tick>, from: nat, upTo: nat)
    requires TailMatches(c, s) && 1 <= c.maxRecords && from < upTo <= |ticks|
    requires SegmentFps(s.rows) == TickFps(ticks)[from..upTo]
    ensures s.last.Some? && s.last.value.timeMsc == ticks[upTo - 1].timeMsc
  {
    TailIsSegmentEnd(c, s);
    var o := s.tail[|s.tail| - 1];
    assert WellMade(c, o);
    assert Fps(s.tail)[|s.tail| - 1] == SegmentFps(s.rows)[upTo - from - 1] == TickFps(ticks)[upTo - 1];
    SameFingerprintSameTime(o.record, ticks[upTo - 1]);
  }

  lemma FirstTickTime(c: Config, b: VerifiedBatch, ticks: seq<Tick>, lo: nat, hi: nat)
    requires IsWindow(c, b, ticks, lo, hi)
    ensures OccurrencesOf(c, b).value[0].timeMsc == ticks[lo].timeMsc
  {
    hide Occurrences;
    OccurrencesWellMade(c, b, |b.selected|);
    var o := OccurrencesOf(c, b).value[0];
    assert WellMade(c, o);
    assert Fps(OccurrencesOf(c, b).value)[0] == TickFps(ticks)[lo];
    SameFingerprintSameTime(o.record, ticks[lo]);
  }

  lemma TailOfWindow(c: Config, s: State, f: seq<Digest>, from: nat, upTo: nat)
    requires TailMatches(c, s) && from <= upTo <= |f| && SegmentFps(s.rows) == f[from..upTo]
    ensures |s.tail| == Min(upTo - from, c.maxRecords)
    ensures Fps(s.tail) == f[upTo - |s.tail|..upTo]
  {
    hide TailMatches, Fps, SegmentFps;
    TailIsSegmentEnd(c, s);
  }

  /**
   The window lo..hi of the source extends the stretch from..upTo: it starts in it, reaches its end, and starts no
   earlier than its last millisecond.
   */
  predicate Extends(ticks: seq<Tick>, from: nat, upTo: nat, lo: nat, hi: nat) {
    from <= lo < upTo <= hi <= |ticks| && ticks[upTo - 1].timeMsc <= ticks[lo].timeMsc
  }

  /** Only a window that starts in the stretch and reaches its end can join it. */
  lemma JoinMeets(f: seq<Digest>, start: nat, upTo: nat, lo: nat, hi: nat)
    requires Distinct(f) && start <= upTo <= |f| && lo <= hi <= |f|
    ensures LongestJoin(f[start..upTo], f[lo..hi]) > 0 ==> start <= lo < upTo <= hi
  {
    var p, q := f[start..upTo], f[lo..hi];
    var longest := LongestJoin(p, q);
    if longest > 0 {
      assert p[|p| - longest] == p[|p| - longest..][0] == q[..longest][0] == q[0];
      assert f[upTo - longest] == f[lo];
    }
  }

  /** A window joins the segment exactly when it extends the stretch of the source that the segment holds. */
  lemma WindowContinues(c: Config, s: State, b: VerifiedBatch, ticks: seq<Tick>, from: nat, upTo: nat, lo: nat, hi: nat)
    requires TailMatches(c, s) && 1 <= c.maxRecords && Distinct(TickFps(ticks)) && IsWindow(c, b, ticks, lo, hi)
    requires from < upTo <= |ticks| && SegmentFps(s.rows) == TickFps(ticks)[from..upTo]
    ensures Continues(s, OccurrencesOf(c, b).value) <==> Extends(ticks, from, upTo, lo, hi)
    ensures Extends(ticks, from, upTo, lo, hi) ==> LongestJoin(Fps(s.tail), Fps(OccurrencesOf(c, b).value)) == upTo - lo
  {
    hide TailMatches, Fps, SegmentFps, TickFps, Distinct, HistoryChangeAt, OccursOnce, Occurrences, LongestJoin;
    var f := TickFps(ticks);
    TailOfWindow(c, s, f, from, upTo);
    LastTickTime(c, s, ticks, from, upTo);
    FirstTickTime(c, b, ticks, lo, hi);
    var start := upTo - |s.tail|;
    JoinMeets(f, start, upTo, lo, hi);
    if from <= lo < upTo <= hi {
      NoHistoryChange(f, start, upTo, lo, hi);
      WindowJoin(f, start, upTo, lo, hi);
      WindowOccursOnce(f, start, upTo, lo, hi);
    }
  }

  /** No gap marker comes before the batch. */
  predicate InSequence(session: Text, sequence: U64, b: VerifiedBatch) {
    b.frame.sessionId == session ==> b.frame.batchSequence == (sequence + 1) % 0x1_0000_0000_0000_0000
  }

  /**
   Any next window of the source: if it extends the stretch that the segment holds, the overlap is removed and the
   segment stays a gap-free stretch. Otherwise the whole window is given out in a new segment.
   */
  lemma StepOnWindow(c: Config, s: State, b: VerifiedBatch, ticks: seq<Tick>, from: nat, upTo: nat, lo: nat, hi: nat)
    requires LoopInv(c, s) && s.rows != [] && Step(c, s, b).Done? && InSequence(s.session, s.batchSequence, b)
    requires Distinct(TickFps(ticks)) && IsWindow(c, b, ticks, lo, hi)
    requires from < upTo <= |ticks| && SegmentFps(s.rows) == TickFps(ticks)[from..upTo]
    ensures var t := Step(c, s, b).state;
            if Extends(ticks, from, upTo, lo, hi)
            then && t.markerCount == s.markerCount && SegmentFps(t.rows) == TickFps(ticks)[from..hi]
                 && DataFps(t.rows) == DataFps(s.rows) + TickFps(ticks)[upTo..hi]
            else && t.markerCount == s.markerCount + 1 && SegmentFps(t.rows) == TickFps(ticks)[lo..hi]
                 && DataFps(t.rows) == DataFps(s.rows) + TickFps(ticks)[lo..hi]
  {
    hide Step, Summary, TailMatches, Fps, TickFps, SegmentFps, DataFps, Distinct, Continues, LongestJoin, Occurrences, Absorbed;
    StepAbsorbs(c, s, b);
    var m, os := Met(c, s, b), OccurrencesOf(c, b).value;
    assert m.rows == s.rows && m.markerCount == s.markerCount;
    WindowContinues(c, m, b, ticks, from, upTo, lo, hi);
    AbsorbedWindow(m, os, Step(c, s, b).state, TickFps(ticks), from, upTo, lo, hi);
  }

  lemma AbsorbedWindow(s: State, os: seq<Occurrence>, t: State, f: seq<Digest>, from: nat, upTo: nat, lo: nat, hi: nat)
    requires os != [] && Absorbed(s, os, t) && from < upTo <= |f| && lo < hi <= |f|
    requires Fps(os) == f[lo..hi] && SegmentFps(s.rows) == f[from..upTo]
    requires Continues(s, os) ==> lo < upTo <= hi && LongestJoin(Fps(s.tail), Fps(os)) == upTo - lo
    ensures if Continues(s, os)
            then && t.markerCount == s.markerCount && SegmentFps(t.rows) == f[from..hi]
                 && DataFps(t.rows) == DataFps(s.rows) + f[upTo..hi]
            else && t.markerCount == s.markerCount + 1 && SegmentFps(t.rows) == f[lo..hi]
                 && DataFps(t.rows) == DataFps(s.rows) + f[lo..hi]
  {
    hide Fps, SegmentFps, DataFps, Continues, LongestJoin;
    if Continues(s, os) {
      assert f[lo..hi][upTo - lo..] == f[upTo..hi];
      assert f[from..upTo] + f[upTo..hi] == f[from..hi];
    }
  }

  lemma FirstWindow(c: Config, b: VerifiedBatch, ticks: seq<Tick>, lo: nat, hi: nat)
    requires 1 <= c.maxRecords && Step(c, START, b).Done? && IsWindow(c, b, ticks, lo, hi)
    ensures var t := Step(c, START, b).state;
            && t.markerCount == 1 && t.rows != []
            && SegmentFps(t.rows) == TickFps(ticks)[lo..hi] == DataFps(t.rows)
  {
    hide Step, Inv, Fps, SegmentFps, DataFps, LongestJoin, Occurrences, HistoryChangeAt, StartSegment, OccursOnce;
    InitialLoopInv(c);
    StepKeeps(c, START, b);
    StepAbsorbs(c, START, b);
    var m, os := Met(c, START, b), OccurrencesOf(c, b).value;
    StartSegmentEffect(c, START, SEGMENT_START, FirstOccurrence, b, None);
    assert OpenOrGap(c, START, b).Done? by { FirstOpens(c, b); }
    assert Fps(m.tail) == [];
    EmptyTailJoins(Fps(os));
    EmptyStream();
    assert Fps(os)[0..] == Fps(os);
  }

  lemma FirstOpens(c: Config, b: VerifiedBatch)
    requires Step(c, START, b).Done?
    ensures OpenOrGap(c, START, b).Done?
  {
  }

  // ---- Whole runs ----

  predicate Windows(ticks: seq<Tick>, lo: seq<nat>, hi: seq<nat>) {
    |lo| == |hi| && lo != [] && forall i :: 0 <= i < |lo| ==> lo[i] < hi[i] <= |ticks|
  }

  /** A source of distinct ticks, reported in windows of any kind, without a gap in the batch sequence. */
  ghost predicate WindowRun(c: Config, batches: seq<VerifiedBatch>, ticks: seq<Tick>, lo: seq<nat>, hi: seq<nat>) {
    && |batches| == |lo| && Windows(ticks, lo, hi) && Distinct(TickFps(ticks))
    && (forall i :: 0 <= i < |batches| ==> IsWindow(c, batches[i], ticks, lo[i], hi[i]))
    && (forall i :: 0 < i < |batches| ==> Consecutive(batches[i - 1], batches[i]))
  }

  predicate Consecutive(previous: VerifiedBatch, b: VerifiedBatch) {
    InSequence(previous.frame.sessionId, previous.frame.batchSequence, b)
  }

  /** Where the stretch begins that the current segment holds after the given windows. */
  function SegmentFrom(ticks: seq<Tick>, lo: seq<nat>, hi: seq<nat>): (from: nat)
    requires Windows(ticks, lo, hi)
    ensures from < hi[|hi| - 1]
    decreases |lo|
  {
    var n := |lo| - 1;
    if n > 0 && LastExtends(ticks, lo, hi) then SegmentFrom(ticks, lo[..n], hi[..n]) else lo[n]
  }

  /** The last window extends what the ones before it have left. */
  predicate LastExtends(ticks: seq<Tick>, lo: seq<nat>, hi: seq<nat>)
    requires Windows(ticks, lo, hi) && |lo| > 1
    decreases |lo|, 0
  {
    var n := |lo| - 1;
    Extends(ticks, SegmentFrom(ticks, lo[..n], hi[..n]), hi[n - 1], lo[n], hi[n])
  }

  /** How many windows open a new segment. */
  function Breaks(ticks: seq<Tick>, lo: seq<nat>, hi: seq<nat>): nat
    requires Windows(ticks, lo, hi)
  {
    var n := |lo| - 1;
    if n == 0 then 0
    else Breaks(ticks, lo[..n], hi[..n]) + if LastExtends(ticks, lo, hi) then 0 else 1
  }

  /** What is given out: of a window that extends the segment the rest, of any other the whole. */
  function GivenOut(ticks: seq<Tick>, lo: seq<nat>, hi: seq<nat>): seq<Digest>
    requires Windows(ticks, lo, hi)
  {
    var n, f := |lo| - 1, TickFps(ticks);
    if n == 0 then f[lo[0]..hi[0]]
    else GivenOut(ticks, lo[..n], hi[..n]) + if LastExtends(ticks, lo, hi) then f[hi[n - 1]..hi[n]] else f[lo[n]..hi[n]]
  }

  /** What a finished run makes of any windows: its segments, its markers and its data rows. */
  lemma {:induction false} WindowsAreMerged(c: Config, batches: seq<VerifiedBatch>, ticks: seq<Tick>, lo: seq<nat>, hi: seq<nat>)
    requires 1 <= c.maxRecords && Run(c, batches).Done? && WindowRun(c, batches, ticks, lo, hi)
    ensures var s := Run(c, batches).state;
            && s.markerCount == 1 + Breaks(ticks, lo, hi)
            && SegmentFps(s.rows) == TickFps(ticks)[SegmentFrom(ticks, lo, hi)..hi[|hi| - 1]]
            && DataFps(s.rows) == GivenOut(ticks, lo, hi)
            && s.rows != []
            && s.session == batches[|batches| - 1].frame.sessionId
            && s.batchSequence == batches[|batches| - 1].frame.batchSequence
    decreases |batches|
  {
    hide Step, LoopInv, SegmentFps, DataFps, TickFps, Distinct, IsWindow, Occurrences, InSequence, Extends;
    var n := |batches| - 1;
    var before := batches[..n];
    RunLoopInv(c, before);
    StepKeeps(c, Run(c, before).state, batches[n]);
    if n == 0 {
      FirstWindow(c, batches[0], ticks, lo[0], hi[0]);
    } else {
      WindowRunPrefix(c, batches, ticks, lo, hi);
      WindowsAreMerged(c, before, ticks, lo[..n], hi[..n]);
      assert Consecutive(batches[n - 1], batches[n]);
      StepOnWindow(c, Run(c, before).state, batches[n], ticks, SegmentFrom(ticks, lo[..n], hi[..n]), hi[n - 1], lo[n], hi[n]);
    }
  }

  lemma WindowRunPrefix(c: Config, batches: seq<VerifiedBatch>, ticks: seq<Tick>, lo: seq<nat>, hi: seq<nat>)
    requires WindowRun(c, batches, ticks, lo, hi) && |batches| > 1
    ensures WindowRun(c, batches[..|batches| - 1], ticks, lo[..|lo| - 1], hi[..|hi| - 1])
  {
    hide IsWindow, Consecutive, Distinct;
  }

  /** Window `i` extends the whole stretch that the windows before it have covered. */
  predicate FollowsAt(ticks: seq<Tick>, lo: seq<nat>, hi: seq<nat>, i: nat)
    requires |lo| == |hi| && 0 < i < |lo|
  {
    Extends(ticks, lo[0], hi[i - 1], lo[i], hi[i])
  }

  predicate AllFollow(ticks: seq<Tick>, lo: seq<nat>, hi: seq<nat>)
    requires |lo| == |hi|
  {
    forall i :: 0 < i < |lo| ==> FollowsAt(ticks, lo, hi, i)
  }

  lemma AllFollowStep(ticks: seq<Tick>, lo: seq<nat>, hi: seq<nat>)
    requires |lo| == |hi| > 1
    ensures var n := |lo| - 1;
            AllFollow(ticks, lo, hi) <==> AllFollow(ticks, lo[..n], hi[..n]) && FollowsAt(ticks, lo, hi, n)
  {
    hide Extends;
    var n := |lo| - 1;
    assert forall i :: 0 < i < n ==> (FollowsAt(ticks, lo[..n], hi[..n], i) <==> FollowsAt(ticks, lo, hi, i));
  }

  lemma {:induction false} NoBreaksIff(ticks: seq<Tick>, lo: seq<nat>, hi: seq<nat>)
    requires Windows(ticks, lo, hi)
    ensures Breaks(ticks, lo, hi) == 0 <==> AllFollow(ticks, lo, hi)
    ensures Breaks(ticks, lo, hi) == 0 ==>
              && SegmentFrom(ticks, lo, hi) == lo[0] && lo[0] <= hi[|hi| - 1]
              && GivenOut(ticks, lo, hi) == TickFps(ticks)[lo[0]..hi[|hi| - 1]]
    decreases |lo|
  {
    hide TickFps, AllFollow, Extends;
    var n := |lo| - 1;
    if n == 0 {
      NothingToFollow(ticks, lo, hi);
    } else {
      NoBreaksIff(ticks, lo[..n], hi[..n]);
      AllFollowStep(ticks, lo, hi);
      if Breaks(ticks, lo, hi) == 0 {
        ExtendsMeans(ticks, lo[0], hi[n - 1], lo[n], hi[n]);
        SlicesMeet(TickFps(ticks), lo[0], hi[n - 1], hi[n]);
      }
    }
  }

  lemma NothingToFollow(ticks: seq<Tick>, lo: seq<nat>, hi: seq<nat>)
    requires |lo| == |hi| == 1
    ensures AllFollow(ticks, lo, hi)
  {
  }

  lemma ExtendsMeans(ticks: seq<Tick>, from: nat, upTo: nat, lo: nat, hi: nat)
    requires Extends(ticks, from, upTo, lo, hi)
    ensures from <= upTo <= hi <= |ticks|
  {
  }

  lemma SlicesMeet(f: seq<Digest>, a: nat, b: nat, c: nat)
    requires a <= b <= c <= |f|
    ensures f[a..b] + f[b..c] == f[a..c]
  {
  }

  /**
   Exactly-once reconstruction: a finished run over windows of the source is one segment if and only if every window
   extends what the ones before it have covered, and then its data rows are the reported stretch of the source,
   every tick once and in order.
   */
  lemma WindowsReconstructTheSource(c: Config, batches: seq<VerifiedBatch>, ticks: seq<Tick>, lo: seq<nat>, hi: seq<nat>)
    requires 1 <= c.maxRecords && Run(c, batches).Done? && WindowRun(c, batches, ticks, lo, hi)
    ensures var s := Run(c, batches).state;
            && (Markers(s.rows) == 1 <==> AllFollow(ticks, lo, hi))
            && (AllFollow(ticks, lo, hi) ==>
                  lo[0] <= hi[|hi| - 1] && DataFps(s.rows) == TickFps(ticks)[lo[0]..hi[|hi| - 1]] == SegmentFps(s.rows))
  {
    hide Run, SegmentFps, DataFps, TickFps, Distinct, IsWindow, Breaks, GivenOut, AllFollow, Markers;
    WindowsAreMerged(c, batches, ticks, lo, hi);
    NoBreaksIff(ticks, lo, hi);
    RunIsOneChain(c, batches);
  }
}
