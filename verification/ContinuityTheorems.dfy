/** What every run of the reducer keeps, and what it means for the ticks of the source. */
module ContinuityTheorems {
  import opened Protocol
  import opened Digests
  import opened Replay
  import opened Overlap
  import opened Continuity

  /** The data rows after the last marker: the current continuity segment. */
  function Segment(rows: seq<ReplayRow>): (seg: seq<ReplayRow>)
    ensures |seg| <= |rows| && seg == rows[|rows| - |seg|..]
    ensures forall i :: 0 <= i < |seg| ==> seg[i].Data?
  {
    if rows == [] || rows[|rows| - 1].Marker? then [] else Segment(rows[..|rows| - 1]) + [rows[|rows| - 1]]
  }

  function SegmentFps(rows: seq<ReplayRow>): (fs: seq<Digest>)
    ensures |fs| == |Segment(rows)| && forall i :: 0 <= i < |fs| ==> fs[i] == Segment(rows)[i].fingerprint
  {
    var seg := Segment(rows);
    seq(|seg|, i requires 0 <= i < |seg| => seg[i].fingerprint)
  }

  /** The nearest marker at or before the end of `rows`. */
  function NearestMarker(rows: seq<ReplayRow>): (m: Option<ReplayRow>)
    ensures m.Some? ==> m.value.Marker?
  {
    if rows == [] then None
    else if rows[|rows| - 1].Marker? then Some(rows[|rows| - 1])
    else NearestMarker(rows[..|rows| - 1])
  }

  /** Every data row carries the segment id of the nearest marker before it. */
  predicate Segmented(rows: seq<ReplayRow>) {
    rows == [] ||
    var before, row := rows[..|rows| - 1], rows[|rows| - 1];
    && Segmented(before)
    && (row.Data? ==> NearestMarker(before).Some? && row.segmentId == NearestMarker(before).value.segmentId)
  }

  lemma {:induction false} SegmentedAt(rows: seq<ReplayRow>, i: nat)
    requires Segmented(rows) && i < |rows| && rows[i].Data?
    ensures NearestMarker(rows[..i]).Some? && rows[i].segmentId == NearestMarker(rows[..i]).value.segmentId
  {
    var before := rows[..|rows| - 1];
    if i < |before| {
      SegmentedAt(before, i);
      assert before[..i] == rows[..i];
    }
  }

  function Markers(rows: seq<ReplayRow>): nat {
    if rows == [] then 0
    else Markers(rows[..|rows| - 1]) + if rows[|rows| - 1].Marker? then 1 else 0
  }

  /** The fingerprints of all data rows, in stream order. */
  function DataFps(rows: seq<ReplayRow>): seq<Digest> {
    if rows == [] then []
    else DataFps(rows[..|rows| - 1]) + if rows[|rows| - 1].Data? then [rows[|rows| - 1].fingerprint] else []
  }

  /** An occurrence says what its record says, for the configured producer. */
  predicate WellMade(c: Config, o: Occurrence) {
    o.producerInstanceId == c.producer.instance && o.timeMsc == o.record.timeMsc && o.fingerprint == Fingerprint(o.record)
  }

  /** `row` was made from occurrence `o` in segment `id`. */
  predicate Carries(c: Config, id: Digest, row: ReplayRow, o: Occurrence) {
    row == MakeDataRow(c.scope, id, o, row.streamSequence) && WellMade(c, o)
  }

  /** `tail` holds the occurrences of the last `|tail|` rows of `seg`. */
  predicate TailOf(c: Config, id: Digest, seg: seq<ReplayRow>, tail: seq<Occurrence>) {
    tail == [] ||
    (&& seg != []
     && Carries(c, id, seg[|seg| - 1], tail[|tail| - 1])
     && TailOf(c, id, seg[..|seg| - 1], tail[..|tail| - 1]))
  }

  lemma {:induction false} TailOfDropOne(c: Config, id: Digest, seg: seq<ReplayRow>, tail: seq<Occurrence>)
    requires TailOf(c, id, seg, tail) && tail != []
    ensures TailOf(c, id, seg, tail[1..])
  {
    if |tail| > 1 {
      TailOfDropOne(c, id, seg[..|seg| - 1], tail[..|tail| - 1]);
      assert tail[1..][..|tail| - 2] == tail[..|tail| - 1][1..];
    }
  }

  /** The tail is the last `maxRecords` occurrences of the current segment, and `last` its end. */
  ghost predicate TailMatches(c: Config, s: State) {
    var seg := Segment(s.rows);
    && |s.tail| == Min(|seg|, c.maxRecords)
    && TailOf(c, s.segmentId, seg, s.tail)
    && s.last == if s.tail == [] then None else Some(s.tail[|s.tail| - 1])
  }

  /** What holds of the rows given to the sink, and of their running hash. */
  ghost predicate RowsInv(rows: seq<ReplayRow>, hash: Digest) {
    && StreamFrom(0, rows)
    && hash == ChainFrom(Zero, rows)
    && (rows != [] ==> rows[0].Marker? && rows[0].code == SEGMENT_START && NearestMarker(rows).Some?)
    && Segmented(rows)
  }

  ghost predicate Summary(s: State) {
    && RowsInv(s.rows, s.rowHash)
    && (s.rows != [] ==> s.segmentId == NearestMarker(s.rows).value.segmentId)
    && s.markerCount == Markers(s.rows) == s.segmentCount
  }

  ghost predicate Inv(c: Config, s: State) {
    1 <= c.maxRecords && Summary(s) && TailMatches(c, s)
  }

  lemma StreamExtend(rows: seq<ReplayRow>, hash: Digest, row: ReplayRow)
    requires StreamFrom(0, rows) && hash == ChainFrom(Zero, rows)
    requires RowValid(row) && row.streamSequence == |rows|
    ensures StreamFrom(0, rows + [row])
    ensures RowChainStep(row.streamSequence, hash, row) == ChainFrom(Zero, rows + [row])
  {
    assert (rows + [row])[..|rows|] == rows;
  }

  lemma ShapeExtend(rows: seq<ReplayRow>, row: ReplayRow)
    ensures NearestMarker(rows + [row]) == if row.Marker? then Some(row) else NearestMarker(rows)
    ensures Segment(rows + [row]) == if row.Marker? then [] else Segment(rows) + [row]
    ensures Markers(rows + [row]) == Markers(rows) + if row.Marker? then 1 else 0
    ensures DataFps(rows + [row]) == DataFps(rows) + if row.Data? then [row.fingerprint] else []
  {
    assert (rows + [row])[..|rows|] == rows;
  }

  lemma RowsExtend(rows: seq<ReplayRow>, hash: Digest, row: ReplayRow)
    requires RowsInv(rows, hash)
    requires RowValid(row) && row.streamSequence == |rows|
    requires rows == [] ==> row.Marker? && row.code == SEGMENT_START
    requires row.Data? ==> rows != [] && row.segmentId == NearestMarker(rows).value.segmentId
    ensures RowsInv(rows + [row], RowChainStep(row.streamSequence, hash, row))
  {
    hide StreamFrom, ChainFrom, RowValid, RowChainStep, NearestMarker, Segment, Markers, DataFps;
    StreamExtend(rows, hash, row);
    ShapeExtend(rows, row);
    assert (rows + [row])[..|rows|] == rows;
  }

  lemma StartSegmentKeeps(c: Config, s: State, code: MarkerCode, detail: MarkerDetail, b: VerifiedBatch,
                          reference: Option<Occurrence>)
    requires Inv(c, s) && (s.rows == [] ==> code == SEGMENT_START)
    ensures Inv(c, StartSegment(c, s, code, detail, b, reference).state)
    ensures var o := StartSegment(c, s, code, detail, b, reference);
            if o.Failed? then o.state == s
            else
              && o.state.rows == s.rows + [MarkerFor(c, s, code, detail, b, reference)]
              && Segment(o.state.rows) == []
              && DataFps(o.state.rows) == DataFps(s.rows)
  {
    hide RowValid, SegmentId, RowChainStep, RowsInv, NearestMarker, Segment, Markers, DataFps, MarkerFor, TailOf;
    var marker := MarkerFor(c, s, code, detail, b, reference);
    MarkerParts(c, s, code, detail, b, reference);
    if StartSegment(c, s, code, detail, b, reference).Done? {
      RowsExtend(s.rows, s.rowHash, marker);
      ShapeExtend(s.rows, marker);
      NoTail(c, marker.segmentId);
    }
  }

  lemma MarkerParts(c: Config, s: State, code: MarkerCode, detail: MarkerDetail, b: VerifiedBatch, reference: Option<Occurrence>)
    ensures var m := MarkerFor(c, s, code, detail, b, reference); m.Marker? && m.code == code && m.streamSequence == |s.rows|
  {
    hide SegmentId;
  }

  lemma NoTail(c: Config, id: Digest)
    ensures TailOf(c, id, [], [])
  {
    hide Carries;
  }

  lemma DataRowSummary(s: State, row: ReplayRow, t: State)
    requires Summary(s) && s.rows != []
    requires row.Data? && RowValid(row) && row.streamSequence == |s.rows| && row.segmentId == s.segmentId
    requires t.rows == s.rows + [row] && t.rowHash == RowChainStep(row.streamSequence, s.rowHash, row)
    requires t.segmentId == s.segmentId && t.markerCount == s.markerCount && t.segmentCount == s.segmentCount
    ensures Summary(t)
  {
    RowsExtend(s.rows, s.rowHash, row);
    ShapeExtend(s.rows, row);
  }

  lemma DataRowTail(c: Config, s: State, row: ReplayRow, o: Occurrence, t: State)
    requires TailMatches(c, s) && 1 <= c.maxRecords
    requires row.Data? && Carries(c, s.segmentId, row, o)
    requires t.rows == s.rows + [row] && t.segmentId == s.segmentId
    requires t.tail == Bounded(s.tail + [o], c.maxRecords) && t.last == Some(o)
    ensures TailMatches(c, t)
    ensures Segment(t.rows) == Segment(s.rows) + [row]
  {
    hide Carries, TailOf, Segment, Bounded, DataFps, Markers, NearestMarker;
    ShapeExtend(s.rows, row);
    TailAfterEmit(c, s.segmentId, Segment(s.rows), s.tail, row, o);
    BoundedEnd(s.tail, o, c.maxRecords);
  }

  lemma BoundedEnd(tail: seq<Occurrence>, o: Occurrence, max: nat)
    requires |tail| <= max && 1 <= max
    ensures var t := Bounded(tail + [o], max); |t| == Min(|tail| + 1, max) && t[|t| - 1] == o
  {
  }

  lemma EmitOccurrenceKeeps(c: Config, s: State, o: Occurrence)
    requires Inv(c, s) && s.rows != [] && WellMade(c, o)
    ensures Inv(c, EmitOccurrence(c, s, o).state)
    ensures var e := EmitOccurrence(c, s, o);
            if e.Failed? then e.state == s
            else
              var row := MakeDataRow(c.scope, s.segmentId, o, |s.rows|);
              && e.state.rows == s.rows + [row]
              && Segment(e.state.rows) == Segment(s.rows) + [row]
              && DataFps(e.state.rows) == DataFps(s.rows) + [o.fingerprint]
              && e.state.segmentId == s.segmentId
              && e.state.last == Some(o)
  {
    var e := EmitOccurrence(c, s, o);
    if e.Done? {
      var row := MakeDataRow(c.scope, s.segmentId, o, |s.rows|);
      DataRowSummary(s, row, e.state);
      DataRowTail(c, s, row, o, e.state);
      ShapeExtend(s.rows, row);
    }
  }

  lemma TailAfterEmit(c: Config, id: Digest, seg: seq<ReplayRow>, tail: seq<Occurrence>, row: ReplayRow, o: Occurrence)
    requires TailOf(c, id, seg, tail) && |tail| == Min(|seg|, c.maxRecords) && 1 <= c.maxRecords
    requires Carries(c, id, row, o)
    ensures TailOf(c, id, seg + [row], Bounded(tail + [o], c.maxRecords))
  {
    assert (seg + [row])[..|seg|] == seg;
    assert (tail + [o])[..|tail|] == tail;
    if |tail| == c.maxRecords {
      TailOfDropOne(c, id, seg + [row], tail + [o]);
    }
  }

  ghost predicate EndsWith(s: seq<Digest>, t: seq<Digest>) {
    |t| <= |s| && s[|s| - |t|..] == t
  }

  lemma {:induction false} TailOfFps(c: Config, id: Digest, seg: seq<ReplayRow>, tail: seq<Occurrence>)
    requires TailOf(c, id, seg, tail) && forall i :: 0 <= i < |seg| ==> seg[i].Data?
    ensures |tail| <= |seg|
    ensures forall i :: |seg| - |tail| <= i < |seg| ==> seg[i].fingerprint == tail[i - (|seg| - |tail|)].fingerprint
  {
    if tail != [] {
      TailOfFps(c, id, seg[..|seg| - 1], tail[..|tail| - 1]);
    }
  }

  /** The retained fingerprints are the end of the current segment, however long that segment is. */
  lemma TailIsSegmentEnd(c: Config, s: State)
    requires TailMatches(c, s)
    ensures |s.tail| == Min(|SegmentFps(s.rows)|, c.maxRecords)
    ensures EndsWith(SegmentFps(s.rows), Fps(s.tail))
  {
    hide TailOf;
    TailOfFps(c, s.segmentId, Segment(s.rows), s.tail);
  }

  lemma JoinsTailIffJoinsSegment(c: Config, s: State, q: seq<Digest>, k: nat)
    requires TailMatches(c, s) && |q| <= c.maxRecords
    ensures Joins(Fps(s.tail), q, k) <==> Joins(SegmentFps(s.rows), q, k)
  {
    hide SegmentFps, Segment, Fps, TailMatches;
    TailIsSegmentEnd(c, s);
    var whole, tail := SegmentFps(s.rows), Fps(s.tail);
    if k <= |tail| {
      assert tail[|tail| - k..] == whole[|whole| - k..];
    }
  }

  /** Forgetting all but `maxRecords` fingerprints loses no overlap. */
  lemma BoundedTailSuffices(c: Config, s: State, q: seq<Digest>)
    requires TailMatches(c, s) && |q| <= c.maxRecords
    ensures LongestJoin(Fps(s.tail), q) == LongestJoin(SegmentFps(s.rows), q)
  {
    hide SegmentFps, Segment, Fps, TailMatches;
    JoinsTailIffJoinsSegment(c, s, q, LongestJoin(Fps(s.tail), q));
    JoinsTailIffJoinsSegment(c, s, q, LongestJoin(SegmentFps(s.rows), q));
  }

  ghost predicate AllWellMade(c: Config, os: seq<Occurrence>) {
    forall i :: 0 <= i < |os| ==> WellMade(c, os[i])
  }

  lemma {:induction false} OccurrencesWellMade(c: Config, b: VerifiedBatch, upTo: nat)
    requires upTo <= |b.selected| && Occurrences(c, b, upTo).Some?
    ensures AllWellMade(c, Occurrences(c, b, upTo).value)
  {
    if upTo > 0 {
      OccurrencesWellMade(c, b, upTo - 1);
    }
  }

  lemma SegmentFpsExtend(rows: seq<ReplayRow>, more: seq<ReplayRow>, row: ReplayRow)
    requires Segment(more) == Segment(rows) + [row] && row.Data?
    ensures SegmentFps(more) == SegmentFps(rows) + [row.fingerprint]
  {
  }

  ghost predicate SameSource(s: State, t: State) {
    t.haveBatch == s.haveBatch && t.session == s.session && t.batchSequence == s.batchSequence
  }

  /** What emitting one occurrence or many does to the state they start from. */
  ghost predicate Grew(s: State, t: State) {
    s.rows <= t.rows && t.markerCount == s.markerCount && SameSource(s, t)
  }

  lemma EmitOccurrenceEffect(c: Config, s: State, o: Occurrence)
    requires Inv(c, s) && s.rows != [] && WellMade(c, o)
    ensures var e := EmitOccurrence(c, s, o);
            && Inv(c, e.state) && Grew(s, e.state)
            && (e.Done? ==> && SegmentFps(e.state.rows) == SegmentFps(s.rows) + [o.fingerprint]
                            && DataFps(e.state.rows) == DataFps(s.rows) + [o.fingerprint]
                            && e.state.last == Some(o))
  {
    hide Inv, Segment, DataFps, RowValid, RowChainStep, ObservationHash;
    EmitOccurrenceKeeps(c, s, o);
    var e := EmitOccurrence(c, s, o);
    if e.Done? {
      SegmentFpsExtend(s.rows, e.state.rows, MakeDataRow(c.scope, s.segmentId, o, |s.rows|));
    }
  }

  lemma {:induction false} EmitAllKeeps(c: Config, s: State, os: seq<Occurrence>)
    requires Inv(c, s) && s.rows != [] && AllWellMade(c, os)
    ensures var e := EmitAll(c, s, os);
            && Inv(c, e.state) && Grew(s, e.state)
            && (e.Done? ==> && SegmentFps(e.state.rows) == SegmentFps(s.rows) + Fps(os)
                            && DataFps(e.state.rows) == DataFps(s.rows) + Fps(os)
                            && e.state.last == (if os == [] then s.last else Some(os[|os| - 1])))
    decreases |os|
  {
    hide EmitOccurrence, Inv, SegmentFps, DataFps, Segment;
    if os == [] {
      assert Fps(os) == [];
    } else {
      var before := os[..|os| - 1];
      EmitAllKeeps(c, s, before);
      var e := EmitAll(c, s, before);
      if e.Done? {
        EmitOccurrenceEffect(c, e.state, os[|os| - 1]);
        assert Fps(os) == Fps(before) + [os[|os| - 1].fingerprint];
      }
    }
  }

  lemma StartSegmentEffect(c: Config, s: State, code: MarkerCode, detail: MarkerDetail, b: VerifiedBatch,
                           reference: Option<Occurrence>)
    requires Inv(c, s) && (s.rows == [] ==> code == SEGMENT_START)
    ensures var o := StartSegment(c, s, code, detail, b, reference);
            && Inv(c, o.state) && s.rows <= o.state.rows && SameSource(s, o.state)
            && (o.Failed? ==> o.state == s)
            && (o.Done? ==> && o.state.rows != [] && o.state.markerCount == s.markerCount + 1
                            && o.state.tail == [] && o.state.last == None && SegmentFps(o.state.rows) == []
                            && DataFps(o.state.rows) == DataFps(s.rows))
  {
    hide Inv, Segment, SegmentId, RowChainStep;
    StartSegmentKeeps(c, s, code, detail, b, reference);
  }

  /** The retained tail proves where the batch joins the current segment. */
  ghost predicate JoinsCleanly(s: State, os: seq<Occurrence>) {
    && HistoryChangeAt(Fps(s.tail), Fps(os)).None?
    && !Ambiguous(s, os)
    && (s.tail == [] || LongestJoin(Fps(s.tail), Fps(os)) > 0)
  }

  /** The batch continues the current segment: time has not moved back, and it joins the tail cleanly. */
  ghost predicate Continues(s: State, os: seq<Occurrence>)
    requires os != []
  {
    (s.last.Some? ==> s.last.value.timeMsc <= os[0].timeMsc) && JoinsCleanly(s, os)
  }

  /**
   A batch that continues the segment adds exactly its ticks beyond the longest overlap;
   any other batch opens one new segment that holds all of its ticks.
   */
  ghost predicate Absorbed(s: State, os: seq<Occurrence>, t: State)
    requires os != []
  {
    if Continues(s, os)
    then && t.markerCount == s.markerCount
         && SegmentFps(t.rows) == SegmentFps(s.rows) + Fps(os)[LongestJoin(Fps(s.tail), Fps(os))..]
         && DataFps(t.rows) == DataFps(s.rows) + Fps(os)[LongestJoin(Fps(s.tail), Fps(os))..]
    else && t.markerCount == s.markerCount + 1
         && SegmentFps(t.rows) == Fps(os)
         && DataFps(t.rows) == DataFps(s.rows) + Fps(os)
  }

  lemma TailProducer(c: Config, s: State)
    requires TailMatches(c, s)
    ensures s.last.Some? <==> s.tail != []
    ensures s.last.Some? ==> s.last.value.producerInstanceId == c.producer.instance
  {
  }

  lemma EmptyTailJoins(q: seq<Digest>)
    ensures LongestJoin([], q) == 0 && HistoryChangeAt([], q) == None
  {
  }

  lemma AlignEffect(c: Config, s: State, b: VerifiedBatch, os: seq<Occurrence>)
    requires Inv(c, s) && TailMatches(c, s) && s.rows != [] && os != []
    ensures var (a, k) := Align(c, s, b, os);
            && Inv(c, a.state) && s.rows <= a.state.rows && a.state.rows != [] && SameSource(s, a.state)
            && (a.Done? ==>
                  if JoinsCleanly(s, os) then a.state == s && k == LongestJoin(Fps(s.tail), Fps(os))
                  else k == 0 && a.state.markerCount == s.markerCount + 1 && SegmentFps(a.state.rows) == []
                       && DataFps(a.state.rows) == DataFps(s.rows))
  {
    hide Inv, SegmentFps, DataFps, StartSegment;
    TailProducer(c, s);
    var change := HistoryChangeAt(Fps(s.tail), Fps(os));
    if change.Some? {
      StartSegmentEffect(c, s, SOURCE_HISTORY_CHANGED, OnePayloadChanged, b, Some(s.tail[change.value]));
    } else if Ambiguous(s, os) {
      StartSegmentEffect(c, s, AMBIGUOUS_OVERLAP, ManyPositions, b, s.last);
    } else if LongestJoin(Fps(s.tail), Fps(os)) == 0 && |s.tail| > 0 {
      StartSegmentEffect(c, s, AMBIGUOUS_OVERLAP, NoProvableOverlap, b, s.last);
    }
  }

  lemma RegressionEffect(c: Config, s: State, b: VerifiedBatch, os: seq<Occurrence>)
    requires Inv(c, s) && s.rows != [] && os != []
    ensures var r := RegressionCheck(c, s, b, os);
            && Inv(c, r.state) && s.rows <= r.state.rows && r.state.rows != [] && SameSource(s, r.state)
            && (r.Done? ==>
                  if s.last.Some? && os[0].timeMsc < s.last.value.timeMsc
                  then && r.state.markerCount == s.markerCount + 1 && SegmentFps(r.state.rows) == []
                       && DataFps(r.state.rows) == DataFps(s.rows)
                       && r.state.tail == [] && JoinsCleanly(r.state, os)
                  else r.state == s)
  {
    hide Inv, SegmentFps, DataFps, StartSegment;
    if s.last.Some? && os[0].timeMsc < s.last.value.timeMsc {
      StartSegmentEffect(c, s, TIMESTAMP_REGRESSION, TimeMovedBackwards, b, s.last);
      var r := RegressionCheck(c, s, b, os);
      if r.Done? {
        assert Fps(r.state.tail) == [];
        EmptyTailJoins(Fps(os));
      }
    }
  }

  lemma FpsDrop(os: seq<Occurrence>, k: nat)
    requires k <= |os|
    ensures Fps(os[k..]) == Fps(os)[k..]
    ensures k == 0 ==> Fps(os[k..]) == Fps(os)
  {
  }

  lemma InvTail(c: Config, s: State)
    requires Inv(c, s)
    ensures TailMatches(c, s)
  {
  }

  lemma AbsorbEffect(c: Config, s: State, b: VerifiedBatch, os: seq<Occurrence>)
    requires Inv(c, s) && s.rows != [] && os != [] && AllWellMade(c, os)
    ensures var a := Absorb(c, s, b, os);
            && Inv(c, a.state) && s.rows <= a.state.rows && SameSource(s, a.state)
            && (a.Done? ==> Absorbed(s, os, a.state))
  {
    hide Fps, Segment, SegmentFps, DataFps, RegressionCheck, Align, EmitAll, Inv, TailMatches, JoinsCleanly, LongestJoin, WellMade,
         HistoryChangeAt;
    RegressionEffect(c, s, b, os);
    var r := RegressionCheck(c, s, b, os);
    if r.Done? {
      InvTail(c, r.state);
      AlignEffect(c, r.state, b, os);
      var (a, k) := Align(c, r.state, b, os);
      if a.Done? {
        EmitAllKeeps(c, a.state, os[k..]);
        FpsDrop(os, k);
        assert Fps([]) == [];
        EmptyTailJoins(Fps(os));
      }
    }
  }

  /** What holds between two turns of the loop of `Reduce`. */
  ghost predicate LoopInv(c: Config, s: State) {
    Inv(c, s) && (s.haveBatch <==> s.rows != [])
  }

  lemma EnterKeeps(c: Config, s: State, b: VerifiedBatch)
    requires Inv(c, s)
    ensures Inv(c, Enter(s, b))
  {
  }

  lemma OpenOrGapKeeps(c: Config, s: State, b: VerifiedBatch)
    requires LoopInv(c, s)
    ensures var o := OpenOrGap(c, s, b);
            && Inv(c, o.state) && s.rows <= o.state.rows
            && (o.Failed? ==> o.state == s)
            && (o.Done? ==> o.state.rows != [])
  {
    hide Inv, StartSegment;
    if !s.haveBatch {
      StartSegmentEffect(c, s, SEGMENT_START, FirstOccurrence, b, None);
    } else {
      StartSegmentEffect(c, s, GAP, BatchSequenceGap, b, s.last);
    }
  }

  lemma StepKeeps(c: Config, s: State, b: VerifiedBatch)
    requires LoopInv(c, s)
    ensures LoopInv(c, Step(c, s, b).state)
    ensures s.rows <= Step(c, s, b).state.rows
    ensures Step(c, s, b).Done? ==> && Step(c, s, b).state.session == b.frame.sessionId
                                    && Step(c, s, b).state.batchSequence == b.frame.batchSequence
  {
    hide Inv, StartSegment, OpenOrGap, Absorb, Occurrences;
    if Admissible(c, b) {
      OpenOrGapKeeps(c, s, b);
      var o := OpenOrGap(c, s, b);
      if o.Done? {
        EnterKeeps(c, o.state, b);
        var s1 := Enter(o.state, b);
        var os := OccurrencesOf(c, b);
        if os.Some? {
          StartSegmentEffect(c, s1, SOURCE_ERROR, CopyTicksError(b.frame.copyTicksError), b, s1.last);
          if os.value != [] {
            OccurrencesWellMade(c, b, |b.selected|);
            AbsorbEffect(c, s1, b, os.value);
          }
        }
      }
    }
  }

  /** The state in which a batch meets the segment: after its opening or gap marker, if any. */
  function Met(c: Config, s: State, b: VerifiedBatch): State {
    Enter(OpenOrGap(c, s, b).state, b)
  }

  lemma StepAbsorbs(c: Config, s: State, b: VerifiedBatch)
    requires LoopInv(c, s) && Step(c, s, b).Done? && b.frame.copyTicksError == 0
    requires OccurrencesOf(c, b).Some? && OccurrencesOf(c, b).value != []
    ensures Inv(c, Met(c, s, b))
    ensures Absorbed(Met(c, s, b), OccurrencesOf(c, b).value, Step(c, s, b).state)
  {
    hide Inv, StartSegment, OpenOrGap, Absorb, Occurrences, Absorbed;
    OpenOrGapKeeps(c, s, b);
    EnterKeeps(c, OpenOrGap(c, s, b).state, b);
    OccurrencesWellMade(c, b, |b.selected|);
    AbsorbEffect(c, Met(c, s, b), b, OccurrencesOf(c, b).value);
  }

  lemma EndsWithJoined(whole: seq<Digest>, tail: seq<Digest>, q: seq<Digest>, k: nat)
    requires EndsWith(whole, tail) && Joins(tail, q, k)
    ensures EndsWith(whole + q[k..], q)
  {
    assert whole[|whole| - k..] == tail[|tail| - k..] == q[..k];
    assert q[..k] + q[k..] == q;
    assert whole == whole[..|whole| - k] + whole[|whole| - k..];
    assert whole + q[k..] == whole[..|whole| - k] + q;
  }

  /**
   No tick is lost by overlap removal: after an error-free batch with a selected record, the
   current segment ends with the whole batch, so whatever was skipped already stood there.
   */
  lemma SegmentEndsWithBatch(c: Config, s: State, b: VerifiedBatch)
    requires LoopInv(c, s) && Step(c, s, b).Done? && b.frame.copyTicksError == 0
    requires OccurrencesOf(c, b).Some? && OccurrencesOf(c, b).value != []
    ensures EndsWith(SegmentFps(Step(c, s, b).state.rows), Fps(OccurrencesOf(c, b).value))
  {
    hide Fps, SegmentFps, Segment, Step, Occurrences, Summary, TailOf, OpenOrGap, JoinsCleanly;
    StepAbsorbs(c, s, b);
    var m, os, t := Met(c, s, b), OccurrencesOf(c, b).value, Step(c, s, b).state;
    if Continues(m, os) {
      TailIsSegmentEnd(c, m);
      EndsWithJoined(SegmentFps(m.rows), Fps(m.tail), Fps(os), LongestJoin(Fps(m.tail), Fps(os)));
    }
  }
}
