/** What a day's selection denotes, and how it depends on the entries it is derived from. */
module DayCoordinates {
  import opened Protocol
  import opened Digests
  import opened DaySelection
  import Texts

  // ---- Coordinates ----

  /** (ingest sequence, record ordinal) */
  type Coordinate = (nat, nat)

  function At(sequence: nat, os: seq<nat>): (cs: seq<Coordinate>)
    ensures |cs| == |os| && forall i :: 0 <= i < |os| ==> cs[i] == (sequence, os[i])
  {
    seq(|os|, i requires 0 <= i < |os| => (sequence, os[i]))
  }

  /** The day's coordinates, in WAL order. */
  function Coordinates(items: seq<Item>, day: int): seq<Coordinate> {
    if items == [] then [] else
    var n := |items| - 1;
    Coordinates(items[..n], day) + At(items[n].entry.sequence, DayOrdinals(items[n].entry.frame, day))
  }

  /** A range within one entry. */
  predicate Single(r: Range) { r.start == r.end && r.first <= r.last }

  predicate AllSingle(rs: seq<Range>) {
    forall i :: 0 <= i < |rs| ==> Single(rs[i])
  }

  /** The coordinates that a list of ranges names. */
  function Denoted(rs: seq<Range>): seq<Coordinate>
    requires AllSingle(rs)
  {
    if rs == [] then [] else
    var n := |rs| - 1;
    Denoted(rs[..n]) + At(rs[n].start, Interval(rs[n].first, rs[n].last))
  }

  lemma DenotedStep(rs: seq<Range>, r: Range)
    requires AllSingle(rs) && Single(r)
    ensures AllSingle(rs + [r]) && Denoted(rs + [r]) == Denoted(rs) + At(r.start, Interval(r.first, r.last))
  {
    assert (rs + [r])[..|rs|] == rs;
  }

  lemma {:induction false} DenotedConcat(a: seq<Range>, b: seq<Range>)
    requires AllSingle(a) && AllSingle(b)
    ensures AllSingle(a + b) && Denoted(a + b) == Denoted(a) + Denoted(b)
  {
    if b == [] {
      assert a + b == a;
    } else {
      var n := |b| - 1;
      DenotedConcat(a, b[..n]);
      assert a + b == (a + b[..n]) + [b[n]];
      DenotedStep(a + b[..n], b[n]);
      DenotedStep(b[..n], b[n]);
      assert b == b[..n] + [b[n]];
      Texts.Regroup(Denoted(a), Denoted(b[..n]), At(b[n].start, Interval(b[n].first, b[n].last)));
    }
  }

  /** The ranges of one entry, cut from its runs. */
  function FromRuns(it: Item, runs: seq<(nat, nat)>): (rs: seq<Range>)
    ensures |rs| == |runs|
    ensures forall i :: 0 <= i < |rs| ==>
              rs[i] == Range(it.key, it.sha, it.bytes, it.entry.sequence, it.entry.sequence, runs[i].0, runs[i].1)
  {
    seq(|runs|, i requires 0 <= i < |runs| =>
      Range(it.key, it.sha, it.bytes, it.entry.sequence, it.entry.sequence, runs[i].0, runs[i].1))
  }

  lemma {:induction false} RunsDenote(it: Item, runs: seq<(nat, nat)>)
    requires Proper(runs)
    ensures AllSingle(FromRuns(it, runs)) && Denoted(FromRuns(it, runs)) == At(it.entry.sequence, Flatten(runs))
  {
    if runs != [] {
      var n := |runs| - 1;
      RunsDenote(it, runs[..n]);
      RunsDenoteStep(it, runs[..n], runs[n]);
      assert runs[..n] + [runs[n]] == runs;
    }
  }

  lemma RunsDenoteStep(it: Item, runs: seq<(nat, nat)>, run: (nat, nat))
    requires Proper(runs) && run.0 <= run.1 && AllSingle(FromRuns(it, runs))
    requires Denoted(FromRuns(it, runs)) == At(it.entry.sequence, Flatten(runs))
    ensures Proper(runs + [run]) && AllSingle(FromRuns(it, runs + [run]))
    ensures Denoted(FromRuns(it, runs + [run])) == At(it.entry.sequence, Flatten(runs + [run]))
  {
    hide Flatten, Denoted, Proper;
    var rs, r := FromRuns(it, runs), Range(it.key, it.sha, it.bytes, it.entry.sequence, it.entry.sequence, run.0, run.1);
    FlattenStep(runs, run);
    DenotedStep(rs, r);
    assert FromRuns(it, runs + [run]) == rs + [r];
  }

  lemma RangesDenote(it: Item, day: int)
    ensures AllSingle(RangesOf(it, day))
    ensures Denoted(RangesOf(it, day)) == At(it.entry.sequence, DayOrdinals(it.entry.frame, day))
  {
    hide Runs, Flatten, DayOrdinals, Denoted, AllSingle, Proper;
    var os := DayOrdinals(it.entry.frame, day);
    RunsFlatten(os);
    RunsDenote(it, Runs(os));
    assert FromRuns(it, Runs(os)) == RangesOf(it, day);
  }

  /** The selection names the day's coordinates, all of them, in WAL order, and nothing else. */
  lemma {:induction false} SelectionDenotesTheDay(items: seq<Item>, day: int, maxRecords: nat)
    requires Derive(items, day, 0, 0, maxRecords).Some?
    ensures var s := Derive(items, day, 0, 0, maxRecords).value;
            AllSingle(s.objects) && Denoted(s.objects) == Coordinates(items, day)
  {
    hide AllSingle, DayOrdinals, Observe;
    if items == [] {
      NothingDenotesNothing();
    } else {
      var n := |items| - 1;
      SelectionDenotesTheDay(items[..n], day, maxRecords);
      var before := Derive(items[..n], day, 0, 0, maxRecords).value;
      RangesDenote(items[n], day);
      if !Quiet(items[n], day) {
        DenotedConcat(before.objects, RangesOf(items[n], day));
      }
    }
  }

  lemma NothingDenotesNothing()
    ensures AllSingle([]) && Denoted([]) == []
  {
  }

  /** Entry `i` has a record of the day at ordinal `o`, or is a batch without records that asked for the day. */
  predicate OnDay(b: BatchFrame, day: int, o: nat) {
    if b.records == [] then o == 0 && Day(b.requestedFromMsc) == day
    else o < |b.records| && Day(b.records[o].timeMsc) == day
  }

  lemma DayOrdinalsAre(b: BatchFrame, day: int)
    ensures Ascending(DayOrdinals(b, day))
    ensures forall o :: o in DayOrdinals(b, day) <==> o >= 0 && OnDay(b, day, o)
  {
    if b.records != [] {
      OrdinalsOnAre(b.records, day, |b.records|);
    }
  }

  predicate CoordinateAt(items: seq<Item>, day: int, c: Coordinate, i: int) {
    0 <= i < |items| && items[i].entry.sequence == c.0 && OnDay(items[i].entry.frame, day, c.1)
  }

  /** The coordinates, stated without the derivation: the entry exists and its record falls on the day. */
  lemma {:induction false} CoordinatesAre(items: seq<Item>, day: int, c: Coordinate)
    ensures c in Coordinates(items, day) <==> exists i :: CoordinateAt(items, day, c, i)
  {
    hide DayOrdinals, OnDay;
    if items == [] {
      assert !exists i :: CoordinateAt(items, day, c, i);
    } else {
      var n := |items| - 1;
      CoordinatesAre(items[..n], day, c);
      DayOrdinalsAre(items[n].entry.frame, day);
      InAt(items[n].entry.sequence, DayOrdinals(items[n].entry.frame, day), c);
      if i :| CoordinateAt(items[..n], day, c, i) {
        assert CoordinateAt(items, day, c, i);
      }
      assert CoordinateAt(items, day, c, n) <==> c in At(items[n].entry.sequence, DayOrdinals(items[n].entry.frame, day));
      forall i | CoordinateAt(items, day, c, i) ensures i == n || CoordinateAt(items[..n], day, c, i) {
      }
    }
  }

  lemma InAt(sequence: nat, os: seq<nat>, c: Coordinate)
    ensures c in At(sequence, os) <==> c.0 == sequence && c.1 in os
  {
    if c.1 in os {
      var k :| 0 <= k < |os| && os[k] == c.1;
      assert At(sequence, os)[k] == (sequence, os[k]);
    }
  }

  // ---- Order ----

  /** Entries numbered upwards from at least one. */
  predicate Numbered(items: seq<Item>) {
    items == [] ||
    var n := |items| - 1;
    Numbered(items[..n]) && 1 <= items[n].entry.sequence && (n > 0 ==> items[n - 1].entry.sequence < items[n].entry.sequence)
  }

  lemma {:induction false} NumberedAt(items: seq<Item>, i: nat, j: nat)
    requires Numbered(items) && i <= j < |items|
    ensures 1 <= items[i].entry.sequence && (i < j ==> items[i].entry.sequence < items[j].entry.sequence)
    decreases |items|
  {
    var n := |items| - 1;
    if j < n {
      NumberedAt(items[..n], i, j);
    } else if i < n {
      NumberedAt(items[..n], i, n - 1);
    }
  }

  /** `b` begins after `a` ends, with a gap if they share an entry: two such ranges cannot be merged. */
  predicate Apart(a: Range, b: Range) {
    a.end < b.start || (a.end == b.start && a.last + 1 < b.first)
  }

  predicate MaximalRuns(rs: seq<Range>) {
    rs == [] ||
    var n := |rs| - 1;
    MaximalRuns(rs[..n]) && Single(rs[n]) && (n > 0 ==> Apart(rs[n - 1], rs[n]))
  }

  lemma MaximalStep(rs: seq<Range>, r: Range)
    requires MaximalRuns(rs) && Single(r) && (rs != [] ==> Apart(rs[|rs| - 1], r))
    ensures MaximalRuns(rs + [r])
  {
    assert (rs + [r])[..|rs|] == rs;
  }

  lemma {:induction false} MaximalConcat(a: seq<Range>, b: seq<Range>)
    requires MaximalRuns(a) && MaximalRuns(b) && (a != [] && b != [] ==> a[|a| - 1].end < b[0].start)
    ensures MaximalRuns(a + b)
  {
    if b == [] {
      assert a + b == a;
    } else {
      var n := |b| - 1;
      MaximalConcat(a, b[..n]);
      MaximalStep(a + b[..n], b[n]);
      assert a + b == (a + b[..n]) + [b[n]];
    }
  }

  lemma {:induction false} RunsRise(os: seq<nat>, i: nat)
    requires Ascending(os) && i + 1 < |Runs(os)|
    ensures Runs(os)[i].1 + 1 < Runs(os)[i + 1].0
  {
    var n := |os| - 1;
    var before := Runs(os[..n]);
    RunsMaximal(os, i);
    if n > 0 && i + 1 < |before| {
      RunsRise(os[..n], i);
    }
  }

  lemma {:induction false} RangesAreMaximal(it: Item, day: int, k: nat)
    requires k <= |RangesOf(it, day)|
    ensures MaximalRuns(RangesOf(it, day)[..k])
  {
    hide Runs, DayOrdinals, Flatten;
    if k > 0 {
      var rs, runs := RangesOf(it, day), Runs(DayOrdinals(it.entry.frame, day));
      RangesAreMaximal(it, day, k - 1);
      DayOrdinalsAre(it.entry.frame, day);
      RunsFlatten(DayOrdinals(it.entry.frame, day));
      assert runs[k - 1].0 <= runs[k - 1].1;
      if k > 1 {
        RunsRise(DayOrdinals(it.entry.frame, day), k - 2);
      }
      MaximalStep(rs[..k - 1], rs[k - 1]);
      assert rs[..k] == rs[..k - 1] + [rs[k - 1]];
    }
  }

  /** Selected ranges come in strictly ascending order and no two neighbours could be one. */
  lemma {:induction false} SelectionIsMaximal(items: seq<Item>, day: int, maxRecords: nat)
    requires Numbered(items) && Derive(items, day, 0, 0, maxRecords).Some?
    ensures var rs := Derive(items, day, 0, 0, maxRecords).value.objects;
            && MaximalRuns(rs)
            && (rs != [] ==> items != [] && rs[|rs| - 1].end <= items[|items| - 1].entry.sequence)
  {
    hide Absorb, MaximalRuns, RangesOf, Quiet;
    if items == [] {
      NothingIsMaximal();
    } else {
      var n := |items| - 1;
      SelectionIsMaximal(items[..n], day, maxRecords);
      var before, here := Derive(items[..n], day, 0, 0, maxRecords).value, RangesOf(items[n], day);
      AbsorbObjects(before, items[n], day);
      RangesStart(items[n], day);
      RangesAreMaximal(items[n], day, |here|);
      assert here[..|here|] == here;
      MaximalConcat(before.objects, here);
    }
  }

  lemma AbsorbObjects(s: Selection, it: Item, day: int)
    ensures Absorb(s, it, day).objects == s.objects + RangesOf(it, day)
  {
    hide Observe;
  }

  lemma RangesStart(it: Item, day: int)
    ensures forall i :: 0 <= i < |RangesOf(it, day)| ==> RangesOf(it, day)[i].start == RangesOf(it, day)[i].end == it.entry.sequence
  {
  }

  lemma NothingIsMaximal()
    ensures MaximalRuns([])
  {
  }

  // ---- Watermarks ----

  /** Record `o` of entry `i` is a record of the day. */
  predicate RecordAt(items: seq<Item>, day: int, i: int, o: int) {
    0 <= i < |items| && 0 <= o < |items[i].entry.frame.records| && Day(items[i].entry.frame.records[o].timeMsc) == day
  }

  function RecordOf(items: seq<Item>, i: nat, o: nat): Tick
    requires i < |items| && o < |items[i].entry.frame.records|
  {
    items[i].entry.frame.records[o]
  }

  lemma {:induction false} ObserveGrows(s: Selection, records: seq<Tick>, day: int, n: nat)
    requires n <= |records|
    ensures var r := Observe(s, records, day, n);
            && s.accepted <= r.accepted && s.throughCapture <= r.throughCapture && (s.hasWatermark ==> r.hasWatermark)
            && (s.hasWatermark ==> s.throughMsc <= r.throughMsc) && (!r.hasWatermark ==> r.throughMsc == s.throughMsc)
            && (r.accepted == s.accepted ==> r == s) && (r.accepted > s.accepted ==> r.hasWatermark)
            && (r.accepted - s.accepted == |OrdinalsOn(records, day, n)|)
    ensures forall o :: 0 <= o < n && Day(records[o].timeMsc) == day ==>
              Observe(s, records, day, n).hasWatermark && records[o].timeMsc <= Observe(s, records, day, n).throughMsc &&
              records[o].captureSequence <= Observe(s, records, day, n).throughCapture
  {
    if n > 0 {
      ObserveGrows(s, records, day, n - 1);
    }
  }

  /** The source watermark is an upper bound of the day's record times, and the time of one of them. */
  lemma {:induction false} WatermarkIsMaximum(items: seq<Item>, day: int, maxRecords: nat) returns (i: nat, o: nat)
    requires Derive(items, day, 0, 0, maxRecords).Some? && Derive(items, day, 0, 0, maxRecords).value.hasWatermark
    ensures RecordAt(items, day, i, o)
    ensures RecordOf(items, i, o).timeMsc == Derive(items, day, 0, 0, maxRecords).value.throughMsc
    ensures forall k, p :: RecordAt(items, day, k, p) ==>
              RecordOf(items, k, p).timeMsc <= Derive(items, day, 0, 0, maxRecords).value.throughMsc
  {
    hide OrdinalsOn, DayOrdinals, RangesOf;
    var n := |items| - 1;
    var before := Derive(items[..n], day, 0, 0, maxRecords).value;
    var s := Derive(items, day, 0, 0, maxRecords).value;
    var records := items[n].entry.frame.records;
    if Quiet(items[n], day) {
      QuietMeans(items[n].entry.frame, day);
    }
    ObserveGrows(before, records, day, |records|);
    if before.hasWatermark {
      i, o := WatermarkIsMaximum(items[..n], day, maxRecords);
      assert RecordAt(items, day, i, o);
    } else {
      NoWatermarkNoRecord(items[..n], day, maxRecords);
    }
    if !before.hasWatermark || s.throughMsc != before.throughMsc {
      o := ObserveFrom(before, records, day, |records|);
      i := n;
    }
    forall k, p | RecordAt(items, day, k, p)
      ensures RecordOf(items, k, p).timeMsc <= s.throughMsc
    {
      if k < n {
        assert RecordAt(items[..n], day, k, p) && RecordOf(items[..n], k, p) == RecordOf(items, k, p);
      }
    }
  }

  lemma QuietMeans(b: BatchFrame, day: int)
    requires DayOrdinals(b, day) == []
    ensures forall o :: 0 <= o < |b.records| ==> Day(b.records[o].timeMsc) != day
  {
    if b.records != [] {
      OrdinalsOnAre(b.records, day, |b.records|);
    }
  }

  /** A raised watermark is the time of one of the records seen. */
  lemma {:induction false} ObserveFrom(s: Selection, records: seq<Tick>, day: int, n: nat) returns (o: nat)
    requires n <= |records| && Observe(s, records, day, n).hasWatermark
    requires !s.hasWatermark || Observe(s, records, day, n).throughMsc != s.throughMsc
    ensures o < n && Day(records[o].timeMsc) == day && records[o].timeMsc == Observe(s, records, day, n).throughMsc
  {
    var before := Observe(s, records, day, n - 1);
    if Day(records[n - 1].timeMsc) == day && records[n - 1].timeMsc == Observe(s, records, day, n).throughMsc {
      o := n - 1;
    } else {
      o := ObserveFrom(s, records, day, n - 1);
    }
  }

  lemma {:induction false} NoWatermarkNoRecord(items: seq<Item>, day: int, maxRecords: nat)
    requires Derive(items, day, 0, 0, maxRecords).Some? && !Derive(items, day, 0, 0, maxRecords).value.hasWatermark
    ensures forall k, p :: !RecordAt(items, day, k, p)
    ensures Derive(items, day, 0, 0, maxRecords).value.throughMsc == 0
    ensures Derive(items, day, 0, 0, maxRecords).value.accepted == 0
  {
    hide OrdinalsOn, DayOrdinals, RangesOf;
    if items != [] {
      var n := |items| - 1;
      var before := Derive(items[..n], day, 0, 0, maxRecords).value;
      var records := items[n].entry.frame.records;
      ObserveGrows(before, records, day, |records|);
      NoWatermarkNoRecord(items[..n], day, maxRecords);
      if Quiet(items[n], day) {
        QuietMeans(items[n].entry.frame, day);
      } else {
        NothingObserved(before, records, day, |records|);
      }
      forall k, p ensures !RecordAt(items, day, k, p) {
        if k < n {
          assert !RecordAt(items[..n], day, k, p);
        }
      }
    }
  }

  lemma {:induction false} NothingObserved(s: Selection, records: seq<Tick>, day: int, n: nat)
    requires n <= |records| && !Observe(s, records, day, n).hasWatermark
    ensures forall o :: 0 <= o < n ==> Day(records[o].timeMsc) != day
  {
    if n > 0 {
      NothingObserved(s, records, day, n - 1);
    }
  }
}
