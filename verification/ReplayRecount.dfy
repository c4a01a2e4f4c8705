/**
 The recount at the end of the replay verification (internal/archive/replay_source.go, `deriveReplaySelection`):
 the summary of a day counted from its ranges instead of its entries. It gives the selection that the ranges came from.
 */
module ReplayRecount {
  import opened Protocol
  import opened Digests
  import opened Counting
  import opened DaySelection
  import opened DayCoordinates
  import opened DaySlices
  import opened Segments
  import opened Manifest
  import opened ManifestTheorems
  import opened ReplaySource
  import opened ReplayTheorems
  import W = Wal

  /** The summary so far, and the entries that have been counted. */
  datatype Count = Count(summary: Selection, seen: set<(ObjectKey, nat)>)

  const NOTHING: Count := Count(EMPTY, {})

  /** The first entry with this sequence. */
  function EntryWith(entries: seq<W.Entry>, sequence: nat): Option<W.Entry> {
    if entries == [] then None else
    var before, last := EntryWith(entries[..|entries| - 1], sequence), entries[|entries| - 1];
    if before.Some? then before else if last.sequence == sequence then Some(last) else None
  }

  /** A selected entry moves the end of the slice, begins it if it is the first, and may be an error. */
  function Noted(s: Selection, e: W.Entry): Selection {
    s.(errors := s.errors + if e.frame.copyTicksError != 0 then 1 else 0,
       startSequence := if s.startSequence == 0 then e.sequence else s.startSequence,
       startRoot := if s.startSequence == 0 then e.previous else s.startRoot,
       endSequence := e.sequence, endRoot := e.entryHash)
  }

  function Counted(s: Selection, t: Tick): Selection {
    s.(accepted := s.accepted + 1,
       throughMsc := if !s.hasWatermark || t.timeMsc > s.throughMsc then t.timeMsc else s.throughMsc,
       hasWatermark := true,
       throughCapture := if t.captureSequence > s.throughCapture then t.captureSequence else s.throughCapture)
  }

  /** The records at the given ordinals, all of which must be of the day. */
  function Tally(s: Selection, records: seq<Tick>, os: seq<nat>, day: int): Option<Selection> {
    if os == [] then Some(s) else
    var n := |os| - 1;
    var before := Tally(s, records, os[..n], day);
    if before.None? || os[n] >= |records| || Day(records[os[n]].timeMsc) != day then None
    else Some(Counted(before.value, records[os[n]]))
  }

  function RecountRange(c: Count, r: Range, objects: seq<RawObject>, day: int, maxRecords: nat): Option<Count> {
    var o := Find(objects, r.key);
    if o.None? || o.value.sha != r.sha || o.value.bytes != r.bytes || r.start != r.end then None else
    var e := EntryWith(o.value.segment.entries, r.start);
    if e.None? || |e.value.frame.records| > maxRecords then None else
    var b, os := e.value.frame, Chosen(e.value.frame, [OrdinalRange(r.first, r.last, false)], 1);
    if os.None? then None
    else if os.value == [] then Some(c)
    else
      var id := (r.key, e.value.sequence);
      var noted := if id in c.seen then c else Count(Noted(c.summary, e.value), c.seen + {id});
      if b.records == [] then (if Day(b.requestedFromMsc) != day then None else Some(noted))
      else
        var s := Tally(noted.summary, b.records, os.value, day);
        if s.None? then None else Some(noted.(summary := s.value))
  }

  function Recount(rs: seq<Range>, objects: seq<RawObject>, day: int, maxRecords: nat): Option<Count> {
    if rs == [] then Some(NOTHING) else
    var before := Recount(rs[..|rs| - 1], objects, day, maxRecords);
    if before.None? then None else RecountRange(before.value, rs[|rs| - 1], objects, day, maxRecords)
  }

  // ---- The loops ----

  method FindEntry(entries: seq<W.Entry>, sequence: nat) returns (entry: Option<W.Entry>)
    ensures entry == EntryWith(entries, sequence)
  {
    for i := 0 to |entries|
      invariant EntryWith(entries[..i], sequence) == None
    {
      assert entries[..i + 1][..i] == entries[..i];
      if entries[i].sequence == sequence {
        EntryStays(entries, i + 1, sequence);
        return Some(entries[i]);
      }
    }
    assert entries[..|entries|] == entries;
    return None;
  }

  lemma {:induction false} EntryStays(entries: seq<W.Entry>, n: nat, sequence: nat)
    requires n <= |entries| && EntryWith(entries[..n], sequence).Some?
    ensures EntryWith(entries, sequence) == EntryWith(entries[..n], sequence)
  {
    if n < |entries| {
      assert entries[..|entries| - 1][..n] == entries[..n];
      EntryStays(entries[..|entries| - 1], n, sequence);
    } else {
      assert entries[..n] == entries;
    }
  }

  lemma {:induction false} TallyStops(s: Selection, records: seq<Tick>, os: seq<nat>, n: nat, day: int)
    requires n <= |os| && Tally(s, records, os[..n], day).None?
    ensures Tally(s, records, os, day).None?
  {
    if n < |os| {
      TallyStops(s, records, os[..|os| - 1], n, day) by { assert os[..|os| - 1][..n] == os[..n]; }
    } else {
      assert os[..n] == os;
    }
  }

  method TallyRecords(s: Selection, records: seq<Tick>, os: seq<nat>, day: int) returns (counted: Option<Selection>)
    requires forall i :: 0 <= i < |os| ==> os[i] < |records|
    ensures counted == Tally(s, records, os, day)
  {
    var sum := s;
    for i := 0 to |os|
      invariant Tally(s, records, os[..i], day) == Some(sum)
    {
      var record := records[os[i]];
      assert os[..i + 1][..i] == os[..i];
      if Day(record.timeMsc) != day {
        TallyStops(s, records, os, i + 1, day);
        return None;
      }
      sum := sum.(accepted := sum.accepted + 1);
      if !sum.hasWatermark || record.timeMsc > sum.throughMsc {
        sum := sum.(throughMsc := record.timeMsc, hasWatermark := true);
      }
      if record.captureSequence > sum.throughCapture {
        sum := sum.(throughCapture := record.captureSequence);
      }
    }
    assert os[..|os|] == os;
    return Some(sum);
  }

  lemma {:induction false} RecountStops(rs: seq<Range>, n: nat, objects: seq<RawObject>, day: int, maxRecords: nat)
    requires n <= |rs| && Recount(rs[..n], objects, day, maxRecords).None?
    ensures Recount(rs, objects, day, maxRecords).None?
  {
    hide RecountRange;
    if n < |rs| {
      RecountStops(rs[..|rs| - 1], n, objects, day, maxRecords) by { assert rs[..|rs| - 1][..n] == rs[..n]; }
    } else {
      assert rs[..n] == rs;
    }
  }

  lemma {:induction false} ChosenWithin(b: BatchFrame, first: nat, last: nat)
    requires b.records != [] && first <= last < |b.records|
    ensures Chosen(b, [OrdinalRange(first, last, false)], 1) == Some(Interval(first, last))
  {
    var ranges := [OrdinalRange(first, last, false)];
    assert Chosen(b, ranges, 0) == Some([]);
    AppendAllNew([], first, last);
    assert [] + Interval(first, last) == Interval(first, last);
  }

  method RecountOne(c: Count, r: Range, objects: seq<RawObject>, byKey: map<ObjectKey, RawObject>, day: int, maxRecords: nat)
    returns (next: Option<Count>)
    requires forall key :: Find(objects, key) == if key in byKey then Some(byKey[key]) else None
    ensures next == RecountRange(c, r, objects, day, maxRecords)
  {
    hide EntryWith, Chosen, Tally, Find;
    if r.key !in byKey || byKey[r.key].sha != r.sha || byKey[r.key].bytes != r.bytes || r.start != r.end {
      return None;
    }
    var entry := FindEntry(byKey[r.key].segment.entries, r.start);
    if entry.None? || |entry.value.frame.records| > maxRecords {
      return None;
    }
    var batch := entry.value.frame;
    var selected := SelectRecordOrdinals(batch, [OrdinalRange(r.first, r.last, false)]);
    if selected.None? {
      return None;
    }
    if |selected.value| == 0 {
      return Some(c);
    }
    var noted := c;
    var id := (r.key, entry.value.sequence);
    if id !in c.seen {
      noted := Count(Noted(c.summary, entry.value), c.seen + {id});
    }
    if |batch.records| == 0 {
      if Day(batch.requestedFromMsc) != day {
        return None;
      }
      return Some(noted);
    }
    ChosenExist(batch, r, selected.value);
    var sum := TallyRecords(noted.summary, batch.records, selected.value, day);
    if sum.None? {
      return None;
    }
    return Some(noted.(summary := sum.value));
  }

  lemma ChosenExist(b: BatchFrame, r: Range, os: seq<nat>)
    requires b.records != [] && Chosen(b, [OrdinalRange(r.first, r.last, false)], 1) == Some(os)
    ensures forall i :: 0 <= i < |os| ==> os[i] < |b.records|
  {
    ChosenWithin(b, r.first, r.last);
  }

  method RecountRanges(rs: seq<Range>, objects: seq<RawObject>, byKey: map<ObjectKey, RawObject>, day: int, maxRecords: nat)
    returns (count: Option<Count>)
    requires forall key :: Find(objects, key) == if key in byKey then Some(byKey[key]) else None
    ensures count == Recount(rs, objects, day, maxRecords)
  {
    hide RecountRange, Find;
    var sum := NOTHING;
    for i := 0 to |rs|
      invariant Recount(rs[..i], objects, day, maxRecords) == Some(sum)
    {
      assert rs[..i + 1][..i] == rs[..i];
      var next := RecountOne(sum, rs[i], objects, byKey, day, maxRecords);
      if next.None? {
        RecountStops(rs, i + 1, objects, day, maxRecords);
        return None;
      }
      sum := next.value;
    }
    assert rs[..|rs|] == rs;
    return Some(sum);
  }

  // ---- Counting the ranges of one entry ----

  lemma {:induction false} TallyConcat(s: Selection, records: seq<Tick>, a: seq<nat>, b: seq<nat>, day: int)
    requires Tally(s, records, a, day).Some?
    ensures Tally(s, records, a + b, day) == Tally(Tally(s, records, a, day).value, records, b, day)
  {
    hide Counted;
    if b == [] {
      assert a + b == a;
    } else {
      var n := |b| - 1;
      TallyConcat(s, records, a, b[..n], day);
      assert (a + b)[..|a| + n] == a + b[..n];
    }
  }

  /** Counting the records at the ordinals of the day is what the derivation does on its way through all of them. */
  lemma {:induction false} TallyIsObserve(s: Selection, records: seq<Tick>, day: int, n: nat)
    requires n <= |records|
    ensures Tally(s, records, OrdinalsOn(records, day, n), day) == Some(Observe(s, records, day, n))
  {
    if n > 0 {
      TallyIsObserve(s, records, day, n - 1);
      var os := OrdinalsOn(records, day, n);
      if Day(records[n - 1].timeMsc) == day {
        assert os[..|os| - 1] == OrdinalsOn(records, day, n - 1);
      } else {
        assert os == OrdinalsOn(records, day, n - 1);
      }
    }
  }

  lemma {:induction false} TallyPrefix(s: Selection, records: seq<Tick>, os: seq<nat>, n: nat, day: int)
    requires Tally(s, records, os, day).Some? && n <= |os|
    ensures Tally(s, records, os[..n], day).Some?
  {
    if Tally(s, records, os[..n], day).None? {
      TallyStops(s, records, os, n, day);
    }
  }

  /** Entry `it` is where its ranges say it is. */
  predicate Located(objects: seq<RawObject>, it: Item) {
    && Find(objects, it.key).Some?
    && var o := Find(objects, it.key).value;
       o.sha == it.sha && o.bytes == it.bytes && EntryWith(o.segment.entries, it.entry.sequence) == Some(it.entry)
  }

  function RangeFor(it: Item, run: (nat, nat)): Range {
    Range(it.key, it.sha, it.bytes, it.entry.sequence, it.entry.sequence, run.0, run.1)
  }

  /** One range of a batch with records. */
  lemma RecountRun(c: Count, it: Item, run: (nat, nat), objects: seq<RawObject>, day: int, maxRecords: nat)
    requires Located(objects, it) && |it.entry.frame.records| <= maxRecords && run.0 <= run.1 < |it.entry.frame.records|
    ensures var id := (it.key, it.entry.sequence);
            var noted := if id in c.seen then c else Count(Noted(c.summary, it.entry), c.seen + {id});
            var s := Tally(noted.summary, it.entry.frame.records, Interval(run.0, run.1), day);
            RecountRange(c, RangeFor(it, run), objects, day, maxRecords) == if s.None? then None else Some(noted.(summary := s.value))
  {
    hide EntryWith, Find, Tally, Noted, Chosen;
    ChosenWithin(it.entry.frame, run.0, run.1);
  }

  /** The summary after an entry and its first `j` runs. */
  lemma {:induction false} RecountRuns(rs: seq<Range>, c: Count, it: Item, objects: seq<RawObject>, day: int, maxRecords: nat, j: nat)
    requires Located(objects, it) && |it.entry.frame.records| <= maxRecords && it.entry.frame.records != []
    requires Recount(rs, objects, day, maxRecords) == Some(c) && (it.key, it.entry.sequence) !in c.seen
    requires 0 < j <= |RangesOf(it, day)|
    ensures var runs, records := Runs(DayOrdinals(it.entry.frame, day)), it.entry.frame.records;
            && Proper(runs[..j])
            && var s := Tally(Noted(c.summary, it.entry), records, Flatten(runs[..j]), day);
               s.Some? && Recount(rs + RangesOf(it, day)[..j], objects, day, maxRecords) ==
                          Some(Count(s.value, c.seen + {(it.key, it.entry.sequence)}))
  {
    hide RecountRange, Tally, Flatten, Located, Runs, Noted, DayOrdinals, Find;
    var b, os := it.entry.frame, DayOrdinals(it.entry.frame, day);
    var runs, here, noted := Runs(os), RangesOf(it, day), Noted(c.summary, it.entry);
    RunsOfDay(b, day);
    var run, before := runs[j - 1], runs[..j - 1];
    assert Proper(before);
    assert runs[..j] == before + [run];
    FlattenStep(before, run);
    AllTallied(noted, b, day, j);
    AllTallied(noted, b, day, j - 1);
    TallyConcat(noted, b.records, Flatten(before), Interval(run.0, run.1), day);
    RecountStep(rs + here[..j - 1], here[j - 1], objects, day, maxRecords);
    assert rs + here[..j] == rs + here[..j - 1] + [here[j - 1]];
    if j == 1 {
      assert rs + here[..0] == rs && before == [];
      EmptyFlattens();
      NothingTallied(noted, b.records, day);
      RecountRun(c, it, run, objects, day, maxRecords);
    } else {
      RecountRuns(rs, c, it, objects, day, maxRecords, j - 1);
      RecountRun(Recount(rs + here[..j - 1], objects, day, maxRecords).value, it, run, objects, day, maxRecords);
    }
  }

  lemma RecountStep(rs: seq<Range>, r: Range, objects: seq<RawObject>, day: int, maxRecords: nat)
    ensures var before := Recount(rs, objects, day, maxRecords);
            Recount(rs + [r], objects, day, maxRecords) ==
            if before.None? then None else RecountRange(before.value, r, objects, day, maxRecords)
  {
    hide RecountRange;
    assert (rs + [r])[..|rs|] == rs;
  }

  lemma NothingTallied(s: Selection, records: seq<Tick>, day: int)
    ensures Tally(s, records, [], day) == Some(s)
  {
  }

  lemma RunsOfDay(b: BatchFrame, day: int)
    requires b.records != []
    ensures var runs := Runs(DayOrdinals(b, day));
            Proper(runs) && Flatten(runs) == DayOrdinals(b, day) && forall i :: 0 <= i < |runs| ==> runs[i].1 < |b.records|
  {
    hide Runs, Flatten, OrdinalsOn;
    var os := DayOrdinals(b, day);
    RunsFlatten(os);
    RunsWithin(os, |b.records|);
  }

  lemma {:induction false} FlattenPrefix(runs: seq<(nat, nat)>, j: nat)
    requires Proper(runs) && j <= |runs|
    ensures Proper(runs[..j]) && Flatten(runs[..j]) <= Flatten(runs)
  {
    if j < |runs| {
      var n := |runs| - 1;
      FlattenPrefix(runs[..n], j);
      assert runs[..n][..j] == runs[..j];
    } else {
      assert runs[..j] == runs;
    }
  }

  lemma AllTallied(s: Selection, b: BatchFrame, day: int, j: nat)
    requires b.records != [] && j <= |Runs(DayOrdinals(b, day))|
    ensures var runs := Runs(DayOrdinals(b, day));
            Proper(runs[..j]) && Tally(s, b.records, Flatten(runs[..j]), day).Some?
  {
    hide Runs, Flatten, Tally, Observe;
    var runs := Runs(DayOrdinals(b, day));
    RunsOfDay(b, day);
    TallyIsObserve(s, b.records, day, |b.records|);
    FlattenPrefix(runs, j);
    var all, some := Flatten(runs), Flatten(runs[..j]);
    TallyPrefix(s, b.records, all, |some|, day);
    assert all[..|some|] == some;
  }

  // ---- Counting all ranges ----

  function Blank(s: Selection): Selection { s.(objects := []) }

  lemma {:induction false} ObserveNoted(s: Selection, e: W.Entry, records: seq<Tick>, day: int, n: nat)
    requires n <= |records|
    ensures Observe(Noted(Blank(s), e), records, day, n) == Noted(Blank(Observe(s, records, day, n)), e)
  {
    if n > 0 {
      ObserveNoted(s, e, records, day, n - 1);
    }
  }

  /** An entry of the day, as the derivation absorbs it. */
  lemma AbsorbedSummary(s: Selection, it: Item, day: int)
    requires !Quiet(it, day)
    ensures Blank(Absorb(s, it, day)) == Observe(Noted(Blank(s), it.entry), it.entry.frame.records, day, |it.entry.frame.records|)
  {
    hide DayOrdinals, RangesOf;
    ObserveNoted(s, it.entry, it.entry.frame.records, day, |it.entry.frame.records|);
  }

  lemma RecountItem(rs: seq<Range>, s: Selection, seen: set<(ObjectKey, nat)>, it: Item, objects: seq<RawObject>, day: int, maxRecords: nat)
    requires Located(objects, it) && |it.entry.frame.records| <= maxRecords
    requires Recount(rs, objects, day, maxRecords) == Some(Count(Blank(s), seen)) && (it.key, it.entry.sequence) !in seen
    ensures Recount(rs + RangesOf(it, day), objects, day, maxRecords) ==
            Some(if Quiet(it, day) then Count(Blank(s), seen) else Count(Blank(Absorb(s, it, day)), seen + {(it.key, it.entry.sequence)}))
  {
    hide Recount, RecountRange, Located, Noted, Observe, Absorb, OrdinalsOn;
    var b, here := it.entry.frame, RangesOf(it, day);
    if Quiet(it, day) {
      assert rs + here == rs;
    } else if b.records == [] {
      AbsorbedSummary(s, it, day);
      RecountSentinel(Count(Blank(s), seen), it, objects, day, maxRecords);
      NothingObserved(Noted(Blank(s), it.entry), day);
      assert here == [RangeFor(it, (0, 0))] by { OneRun(); }
      RecountStep(rs, RangeFor(it, (0, 0)), objects, day, maxRecords);
    } else {
      hide DayOrdinals, Runs;
      AbsorbedSummary(s, it, day);
      RunsOfDay(b, day);
      RunsEmptyIff(DayOrdinals(b, day));
      RecountRuns(rs, Count(Blank(s), seen), it, objects, day, maxRecords, |here|);
      var runs := Runs(DayOrdinals(b, day));
      assert runs[..|here|] == runs && here[..|here|] == here;
      TallyIsObserve(Noted(Blank(s), it.entry), b.records, day, |b.records|);
      OrdinalsOfRecords(b, day);
    }
  }

  lemma OrdinalsOfRecords(b: BatchFrame, day: int)
    requires b.records != []
    ensures DayOrdinals(b, day) == OrdinalsOn(b.records, day, |b.records|)
  {
  }

  lemma OneRun()
    ensures Runs([0]) == [(0, 0)]
  {
    assert [0][..0] == [] && Runs([]) == [];
  }

  lemma NothingObserved(s: Selection, day: int)
    ensures Observe(s, [], day, 0) == s
  {
  }

  lemma RecountSentinel(c: Count, it: Item, objects: seq<RawObject>, day: int, maxRecords: nat)
    requires Located(objects, it) && it.entry.frame.records == [] && !Quiet(it, day)
    requires (it.key, it.entry.sequence) !in c.seen
    ensures RecountRange(c, RangeFor(it, (0, 0)), objects, day, maxRecords) ==
            Some(Count(Noted(c.summary, it.entry), c.seen + {(it.key, it.entry.sequence)}))
  {
    hide EntryWith, Find, Noted;
    var ranges := [OrdinalRange(0, 0, false)];
    assert Chosen(it.entry.frame, ranges, 0) == Some([]);
    assert Chosen(it.entry.frame, ranges, 1) == Some([] + [0]);
  }

  predicate SeenUpTo(seen: set<(ObjectKey, nat)>, sequence: nat) {
    forall id :: id in seen ==> id.1 <= sequence
  }

  lemma {:induction false} RecountIs(items: seq<Item>, objects: seq<RawObject>, day: int, maxRecords: nat) returns (seen: set<(ObjectKey, nat)>)
    requires Numbered(items) && Derive(items, day, 0, 0, maxRecords).Some? && forall i :: 0 <= i < |items| ==> Located(objects, items[i])
    ensures var s := Derive(items, day, 0, 0, maxRecords).value;
            Recount(s.objects, objects, day, maxRecords) == Some(Count(Blank(s), seen))
    ensures SeenUpTo(seen, if items == [] then 0 else items[|items| - 1].entry.sequence)
  {
    hide Absorb, Located, RangesOf, Quiet;
    if items == [] {
      seen := {};
    } else {
      var n := |items| - 1;
      var it := items[n];
      var before := Derive(items[..n], day, 0, 0, maxRecords).value;
      seen := RecountIs(items[..n], objects, day, maxRecords);
      RecountItem(before.objects, before, seen, it, objects, day, maxRecords);
      AbsorbObjects(before, it, day);
      AbsorbQuiet(before, it, day);
      if !Quiet(it, day) {
        seen := seen + {(it.key, it.entry.sequence)};
      }
    }
  }

  lemma AbsorbQuiet(s: Selection, it: Item, day: int)
    ensures Quiet(it, day) ==> Absorb(s, it, day) == s
  {
  }

  lemma ItemsAreLocated(objects: seq<RawObject>, i: nat)
    requires Contiguous(objects) && AllDistinct(Keys(objects)) && i < |Items(objects)|
    ensures Located(objects, Items(objects)[i])
  {
    hide Items, Contiguous, Find;
    var j, k := ObjectOf(objects, i);
    FindDistinct(objects, j);
    ContiguousAt(objects, j);
    EntryIsFound(objects[j], k);
  }

  lemma {:induction false} ObjectOf(objects: seq<RawObject>, i: nat) returns (j: nat, k: nat)
    requires i < |Items(objects)|
    ensures j < |objects| && k < |objects[j].segment.entries| && Items(objects)[i] == ItemsOf(objects[j])[k]
  {
    var n := |objects| - 1;
    var before := Items(objects[..n]);
    if i < |before| {
      j, k := ObjectOf(objects[..n], i);
    } else {
      j, k := n, i - |before|;
    }
  }

  lemma EntryIsFound(o: RawObject, k: nat)
    requires Sealed(o) && k < |o.segment.entries|
    ensures EntryWith(o.segment.entries, o.segment.entries[k].sequence) == Some(o.segment.entries[k])
  {
    hide Chained;
    var es := o.segment.entries;
    var head := es[..k + 1];
    forall i | 0 <= i < k ensures head[i].sequence != es[k].sequence {
      ChainedAt(ItemsOf(o), i, k);
    }
    OnlyLast(head);
    EntryStays(es, k + 1, es[k].sequence);
  }

  lemma OnlyLast(es: seq<W.Entry>)
    requires es != [] && forall i :: 0 <= i < |es| - 1 ==> es[i].sequence != es[|es| - 1].sequence
    ensures EntryWith(es, es[|es| - 1].sequence) == Some(es[|es| - 1])
  {
    NotFound(es[..|es| - 1], es[|es| - 1].sequence);
  }

  lemma {:induction false} NotFound(es: seq<W.Entry>, sequence: nat)
    requires forall i :: 0 <= i < |es| ==> es[i].sequence != sequence
    ensures EntryWith(es, sequence) == None
  {
    if es != [] {
      NotFound(es[..|es| - 1], sequence);
    }
  }

  /** The recount of a derived selection is that selection, so after a verified expansion it never finds a difference. */
  lemma RecountIsTheSelection(objects: seq<RawObject>, day: int, maxRecords: nat)
    requires Contiguous(objects) && AllDistinct(Keys(objects)) && Derive(Items(objects), day, 0, 0, maxRecords).Some?
    ensures var s := Derive(Items(objects), day, 0, 0, maxRecords).value;
            var c := Recount(s.objects, objects, day, maxRecords);
            c.Some? && c.value.summary == s.(objects := [])
  {
    hide Items, Contiguous, Derive, Recount, Located, Numbered;
    ContiguousItems(objects);
    ChainedNumbered(Items(objects));
    forall i | 0 <= i < |Items(objects)| ensures Located(objects, Items(objects)[i]) {
      ItemsAreLocated(objects, i);
    }
    var seen := RecountIs(Items(objects), objects, day, maxRecords);
  }
}
