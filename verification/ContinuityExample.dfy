/** Windows that are repeated in the output: one that reaches back in time, and one that ends too early. */
module ContinuityExample {
  import opened Protocol
  import opened Digests
  import opened Replay
  import opened Overlap
  import opened Continuity
  import opened ContinuityTheorems
  import opened ContinuityRuns
  import opened ContinuityWindows
  import opened ContinuityFinish
  import Cursor

  function TickOf(bid: U64, ms: I64): Tick { Tick(0, bid, 0, 0, 0, ms, 0, 0, 0) }

  /** Two ticks one millisecond apart, and two ticks in one millisecond. */
  const APART: seq<Tick> := [TickOf(0, 0), TickOf(0, 1)]
  const TIED: seq<Tick> := [TickOf(0, 1), TickOf(1, 1)]

  function OrdinalsTo(n: nat): (os: seq<U32>)
    requires n <= 2
  {
    if n == 0 then [] else if n == 1 then [0] else [0, 1]
  }

  /** The first `n` ticks, as batch `sequence` of session [1], which had asked for four. */
  function Window(c: Config, sha: Digest, sequence: U64, ticks: seq<Tick>, n: nat): VerifiedBatch
    requires 1 <= n <= 2 == |ticks|
  {
    VerifiedBatch(WalKey(sha), sha, sequence,
                  BatchFrame(c.lease(c.producer, [1]), [1], sequence, 0, 4, 0, 0, 0, 0, n, 0, 0, SOURCE_SCHEMA_MT5, ticks[..n]), OrdinalsTo(n))
  }

  lemma WindowIsWindow(c: Config, sha: Digest, sequence: U64, ticks: seq<Tick>, n: nat)
    requires 2 <= c.maxRecords && sha != Zero && 1 <= n <= 2 == |ticks|
    ensures var b := Window(c, sha, sequence, ticks, n);
            IsWindow(c, b, ticks, 0, n) && Delivered(c, b) && Admissible(c, b)
  {
    hide Fingerprint;
    var b := Window(c, sha, sequence, ticks, n);
    assert Occurrences(c, b, 0) == Some([]);
    assert Occurrences(c, b, 1) == Some([] + [OccurrenceOf(c, b, 0)]);
    if n == 2 {
      assert Occurrences(c, b, 2) == Some([] + [OccurrenceOf(c, b, 0)] + [OccurrenceOf(c, b, 1)]);
    }
  }

  lemma TicksDiffer()
    ensures Distinct(TickFps(APART)) && Distinct(TickFps(TIED))
  {
    FingerprintsDiffer(APART[0], APART[1]);
    FingerprintsDiffer(TIED[0], TIED[1]);
  }

  lemma FingerprintsDiffer(a: Tick, b: Tick)
    requires a.timeMsc != b.timeMsc || a.bidBits != b.bidBits
    ensures Fingerprint(a) != Fingerprint(b)
  {
    assert Fingerprint(a).preimage[6] == FI64(a.timeMsc) && Fingerprint(b).preimage[6] == FI64(b.timeMsc);
    assert Fingerprint(a).preimage[2] == FU64(a.bidBits) && Fingerprint(b).preimage[2] == FU64(b.bidBits);
  }

  /** Both ticks are reported, then the first `n` of them again. */
  lemma TwoWindows(c: Config, sha: Digest, ticks: seq<Tick>, n: nat)
    requires Willing(c) && 2 <= c.maxRecords && sha != Zero && 1 <= n <= 2 == |ticks| && Distinct(TickFps(ticks))
    requires !Extends(ticks, 0, 2, 0, n)
    ensures var r := Run(c, [Window(c, sha, 1, ticks, 2), Window(c, sha, 2, ticks, n)]);
            && r.Done? && Markers(r.state.rows) == 2 && DataFps(r.state.rows) == TickFps(ticks) + TickFps(ticks)[..n]
  {
    hide Step, LoopInv, Willing, Delivered, Admissible, IsWindow, TickFps, DataFps, SegmentFps, Markers, Fingerprint, Distinct, Extends;
    var a, b := Window(c, sha, 1, ticks, 2), Window(c, sha, 2, ticks, n);
    WindowIsWindow(c, sha, 1, ticks, 2);
    WindowIsWindow(c, sha, 2, ticks, n);
    RunFinishes(c, [a, b]);
    var lo, hi := [0, 0], [2, n];
    assert lo[..1] == [0] && hi[..1] == [2];
    assert SegmentFrom(ticks, [0], [2]) == 0 && GivenOut(ticks, [0], [2]) == TickFps(ticks)[0..2] && Breaks(ticks, [0], [2]) == 0;
    assert TickFps(ticks)[0..2] == TickFps(ticks) && TickFps(ticks)[0..n] == TickFps(ticks)[..n];
    WindowsAreMerged(c, [a, b], ticks, lo, hi);
    RunIsOneChain(c, [a, b]);
  }

  /**
   A window of two ticks one millisecond apart, reported twice: the second time it starts before the last tick given
   out, and both ticks come out again, in a second segment.
   */
  lemma RepeatedWindowExample(c: Config, sha: Digest)
    requires Willing(c) && 2 <= c.maxRecords && sha != Zero
    ensures var r := Run(c, [Window(c, sha, 1, APART, 2), Window(c, sha, 2, APART, 2)]);
            && r.Done? && Markers(r.state.rows) == 2 && DataFps(r.state.rows) == TickFps(APART) + TickFps(APART)
  {
    hide Willing, Distinct, TickFps, Run;
    TicksDiffer();
    TwoWindows(c, sha, APART, 2);
    assert TickFps(APART)[..2] == TickFps(APART);
  }

  /**
   Two ticks of one millisecond, then the first of them alone: no time has gone back, but the window does not reach the
   last tick given out, and its tick comes out again, in a second segment.
   */
  lemma ShortWindowExample(c: Config, sha: Digest)
    requires Willing(c) && 2 <= c.maxRecords && sha != Zero
    ensures var r := Run(c, [Window(c, sha, 1, TIED, 2), Window(c, sha, 2, TIED, 1)]);
            && r.Done? && Markers(r.state.rows) == 2 && DataFps(r.state.rows) == TickFps(TIED) + TickFps(TIED)[..1]
  {
    hide Willing, Distinct, TickFps, Run;
    TicksDiffer();
    TwoWindows(c, sha, TIED, 1);
  }

  /** The gateway asks for just that: once the two ticks have answered a request for four, it asks for one tick from there. */
  lemma ShortWindowIsAskedFor(c: Config, sha: Digest, config: Cursor.IngestConfig, s: Cursor.CursorState)
    requires Cursor.ConfigValid(config) && config.initialBatchCount == 1 && Cursor.Settled(config, s) && s.cursorMsc == 1
    ensures var o := Cursor.OutcomeFor(s, Window(c, sha, 1, TIED, 2).frame, config);
            o.cursorMsc == o.nextFromMsc == TIED[0].timeMsc && o.nextCount == 1
  {
    var b := Window(c, sha, 1, TIED, 2).frame;
    assert b.records == TIED && Cursor.MaxTime(TIED) == 1;
    Cursor.ResolvedAsksAfresh(config, s, b);
  }
}
