/** Which records of a run of WAL entries belong to a UTC day (internal/archive/manifest.go, `deriveDaySelection`). */
module DaySelection {
  import opened Protocol
  import opened Digests
  import Texts
  import W = Wal

  const DAY_MS := 86_400_000

  /** The UTC day of a millisecond timestamp; negative times count backwards from day zero. */
  function Day(ms: int): int { ms / DAY_MS }

  /** A sealed WAL segment as its verifier returns it. */
  datatype Segment = Segment(
    start: nat, last: nat, chainStart: Digest, chainRoot: Digest, sha: Digest, bytes: nat, entries: seq<W.Entry>)

  datatype RawObject = RawObject(key: ObjectKey, sha: Digest, bytes: nat, segment: Segment)

  /** Records from (start, first) to (end, last) inclusive, in WAL order. */
  datatype Range = Range(key: ObjectKey, sha: Digest, bytes: nat, start: nat, end: nat, first: nat, last: nat)

  /** One entry together with the object that holds it. */
  datatype Item = Item(key: ObjectKey, sha: Digest, bytes: nat, entry: W.Entry)

  function ItemsOf(o: RawObject): (items: seq<Item>)
    ensures |items| == |o.segment.entries|
    ensures forall i :: 0 <= i < |items| ==> items[i] == Item(o.key, o.sha, o.bytes, o.segment.entries[i])
  {
    seq(|o.segment.entries|, i requires 0 <= i < |o.segment.entries| => Item(o.key, o.sha, o.bytes, o.segment.entries[i]))
  }

  function Items(objects: seq<RawObject>): seq<Item> {
    if objects == [] then [] else Items(objects[..|objects| - 1]) + ItemsOf(objects[|objects| - 1])
  }

  // ---- The ordinals of one batch ----

  /** The first `n` records' ordinals that fall on the day. */
  function OrdinalsOn(records: seq<Tick>, day: int, n: nat): (os: seq<nat>)
    requires n <= |records|
    ensures forall i :: 0 <= i < |os| ==> os[i] < n
  {
    if n == 0 then []
    else OrdinalsOn(records, day, n - 1) + if Day(records[n - 1].timeMsc) == day then [n - 1] else []
  }

  /** A batch without records stands for itself through ordinal zero, on the day that it asked for. */
  function DayOrdinals(b: BatchFrame, day: int): seq<nat> {
    if b.records == [] then (if Day(b.requestedFromMsc) == day then [0] else [])
    else OrdinalsOn(b.records, day, |b.records|)
  }

  predicate Ascending(os: seq<nat>) {
    forall i, j :: 0 <= i < j < |os| ==> os[i] < os[j]
  }

  lemma {:induction false} OrdinalsOnAre(records: seq<Tick>, day: int, n: nat)
    requires n <= |records|
    ensures Ascending(OrdinalsOn(records, day, n))
    ensures forall k :: k in OrdinalsOn(records, day, n) <==> 0 <= k < n && Day(records[k].timeMsc) == day
  {
    if n > 0 {
      OrdinalsOnAre(records, day, n - 1);
    }
  }

  // ---- Runs ----

  /** The maximal runs of consecutive numbers. */
  function Runs(os: seq<nat>): (runs: seq<(nat, nat)>)
    ensures os == [] <==> runs == []
    ensures os != [] ==> runs[|runs| - 1].1 == os[|os| - 1]
  {
    if os == [] then [] else
    var n := |os| - 1;
    var before := Runs(os[..n]);
    if n > 0 && os[n] == os[n - 1] + 1
    then before[|before| - 1 := (before[|before| - 1].0, os[n])]
    else before + [(os[n], os[n])]
  }

  lemma RunsStep(os: seq<nat>, n: nat)
    requires n < |os|
    ensures n > 0 && os[n] == os[n - 1] + 1 ==>
              var before := Runs(os[..n]);
              before != [] && Runs(os[..n + 1]) == before[|before| - 1 := (before[|before| - 1].0, os[n])]
    ensures !(n > 0 && os[n] == os[n - 1] + 1) ==> Runs(os[..n + 1]) == Runs(os[..n]) + [(os[n], os[n])]
  {
    assert os[..n + 1][..n] == os[..n];
  }

  method FindRuns(os: seq<nat>) returns (runs: seq<(nat, nat)>)
    ensures runs == Runs(os)
  {
    hide Runs;
    runs := [];
    var start := 0;
    assert Runs(os[..0]) == [];
    while start < |os|
      invariant 0 <= start <= |os| && runs == Runs(os[..start])
      invariant 0 < start < |os| ==> os[start] != os[start - 1] + 1
    {
      var end := RunEnd(os, start);
      runs := runs + [(os[start], os[end])];
      start := end + 1;
    }
    assert os[..|os|] == os;
  }

  /** The inner loop: how far the run that begins at `start` reaches. */
  method RunEnd(os: seq<nat>, start: nat) returns (end: nat)
    requires start < |os| && (start > 0 ==> os[start] != os[start - 1] + 1)
    ensures start <= end < |os| && (end + 1 < |os| ==> os[end + 1] != os[end] + 1)
    ensures Runs(os[..end + 1]) == Runs(os[..start]) + [(os[start], os[end])]
  {
    hide Runs;
    end := start;
    RunsStep(os, start);
    while end + 1 < |os| && os[end + 1] == os[end] + 1
      invariant start <= end < |os| && Runs(os[..end + 1]) == Runs(os[..start]) + [(os[start], os[end])]
    {
      RunsStep(os, end + 1);
      end := end + 1;
    }
  }

  function Interval(first: nat, last: nat): (os: seq<nat>)
    requires first <= last
    ensures |os| == last - first + 1 && forall i :: 0 <= i < |os| ==> os[i] == first + i
  {
    seq(last - first + 1, i => first + i)
  }

  predicate Proper(runs: seq<(nat, nat)>) {
    forall i :: 0 <= i < |runs| ==> runs[i].0 <= runs[i].1
  }

  function Flatten(runs: seq<(nat, nat)>): seq<nat>
    requires Proper(runs)
  {
    if runs == [] then []
    else Flatten(runs[..|runs| - 1]) + Interval(runs[|runs| - 1].0, runs[|runs| - 1].1)
  }

  lemma FlattenStep(runs: seq<(nat, nat)>, run: (nat, nat))
    requires Proper(runs) && run.0 <= run.1
    ensures Proper(runs + [run]) && Flatten(runs + [run]) == Flatten(runs) + Interval(run.0, run.1)
  {
    assert (runs + [run])[..|runs|] == runs;
  }

  /** The runs list the numbers they were made from, in order. */
  lemma {:induction false} RunsFlatten(os: seq<nat>)
    ensures Proper(Runs(os)) && Flatten(Runs(os)) == os
  {
    hide Flatten, Proper;
    if os == [] {
      EmptyFlattens();
    } else {
      var n := |os| - 1;
      RunsFlatten(os[..n]);
      RunsStep(os, n);
      assert os[..n + 1] == os;
      var before := Runs(os[..n]);
      if n > 0 && os[n] == os[n - 1] + 1 {
        var m := |before| - 1;
        ProperPrefix(before, m);
        FlattenStep(before[..m], before[m]);
        FlattenStep(before[..m], (before[m].0, os[n]));
        assert before[..m] + [before[m]] == before;
        assert Runs(os) == before[..m] + [(before[m].0, os[n])];
        assert Interval(before[m].0, os[n]) == Interval(before[m].0, before[m].1) + [os[n]];
      } else {
        FlattenStep(before, (os[n], os[n]));
      }
      assert os[..n] + [os[n]] == os;
    }
  }

  lemma EmptyFlattens()
    ensures Proper([]) && Flatten([]) == []
  {
  }

  lemma ProperPrefix(runs: seq<(nat, nat)>, m: nat)
    requires Proper(runs) && m < |runs|
    ensures Proper(runs[..m]) && runs[m].0 <= runs[m].1
  {
  }

  /** No two neighbouring runs could be one. */
  lemma {:induction false} RunsMaximal(os: seq<nat>, i: nat)
    requires i + 1 < |Runs(os)|
    ensures Runs(os)[i + 1].0 != Runs(os)[i].1 + 1
  {
    var n := |os| - 1;
    var before := Runs(os[..n]);
    if n > 0 && i + 1 < |before| {
      RunsMaximal(os[..n], i);
    }
  }

  // ---- The selection ----

  datatype Selection = Selection(
    objects: seq<Range>, accepted: nat, errors: nat, throughMsc: int, throughCapture: nat, hasWatermark: bool,
    startSequence: nat, startRoot: Digest, endSequence: nat, endRoot: Digest)

  const EMPTY: Selection := Selection([], 0, 0, 0, 0, false, 0, Zero, 0, Zero)

  /** Counts and watermarks after the first `n` records of a batch. */
  function Observe(s: Selection, records: seq<Tick>, day: int, n: nat): (r: Selection)
    requires n <= |records|
    ensures r == s.(accepted := r.accepted, throughMsc := r.throughMsc, throughCapture := r.throughCapture, hasWatermark := r.hasWatermark)
  {
    if n == 0 then s else
    var before, t := Observe(s, records, day, n - 1), records[n - 1];
    if Day(t.timeMsc) != day then before else
    before.(accepted := before.accepted + 1,
            throughMsc := if !before.hasWatermark || t.timeMsc > before.throughMsc then t.timeMsc else before.throughMsc,
            hasWatermark := true,
            throughCapture := if t.captureSequence > before.throughCapture then t.captureSequence else before.throughCapture)
  }

  function RangesOf(it: Item, day: int): (rs: seq<Range>)
    ensures |rs| == |Runs(DayOrdinals(it.entry.frame, day))|
    ensures forall i :: 0 <= i < |rs| ==>
              var run := Runs(DayOrdinals(it.entry.frame, day))[i];
              rs[i] == Range(it.key, it.sha, it.bytes, it.entry.sequence, it.entry.sequence, run.0, run.1)
  {
    var runs := Runs(DayOrdinals(it.entry.frame, day));
    seq(|runs|, i requires 0 <= i < |runs| =>
      Range(it.key, it.sha, it.bytes, it.entry.sequence, it.entry.sequence, runs[i].0, runs[i].1))
  }

  /** No record of this entry, and not the entry itself, belongs to the day. */
  predicate Quiet(it: Item, day: int) {
    DayOrdinals(it.entry.frame, day) == []
  }

  function Absorb(s: Selection, it: Item, day: int): Selection {
    if Quiet(it, day) then s else
    var e := it.entry;
    Observe(s, e.frame.records, day, |e.frame.records|).(
      objects := s.objects + RangesOf(it, day),
      errors := s.errors + if e.frame.copyTicksError != 0 then 1 else 0,
      startSequence := if s.startSequence == 0 then e.sequence else s.startSequence,
      startRoot := if s.startSequence == 0 then e.previous else s.startRoot,
      endSequence := e.sequence, endRoot := e.entryHash)
  }

  /** Outside the bounds an entry is not even looked at; `lo == 0` means no bounds. */
  predicate Skipped(it: Item, lo: nat, hi: nat) {
    lo != 0 && (it.entry.sequence < lo || it.entry.sequence > hi)
  }

  function Derive(items: seq<Item>, day: int, lo: nat, hi: nat, maxRecords: nat): Option<Selection> {
    if items == [] then Some(EMPTY) else
    var n := |items| - 1;
    var before := Derive(items[..n], day, lo, hi, maxRecords);
    if before.None? || Skipped(items[n], lo, hi) then before
    else if |items[n].entry.frame.records| > maxRecords then None
    else Some(Absorb(before.value, items[n], day))
  }

  lemma {:induction false} DeriveStops(items: seq<Item>, more: seq<Item>, day: int, lo: nat, hi: nat, maxRecords: nat)
    requires Derive(items, day, lo, hi, maxRecords).None?
    ensures Derive(items + more, day, lo, hi, maxRecords).None?
  {
    hide Absorb;
    if more == [] {
      assert items + more == items;
    } else {
      DeriveStops(items, more[..|more| - 1], day, lo, hi, maxRecords);
      assert (items + more)[..|items + more| - 1] == items + more[..|more| - 1];
    }
  }

  lemma ItemsStep(objects: seq<RawObject>, o: RawObject)
    ensures Items(objects + [o]) == Items(objects) + ItemsOf(o)
  {
    assert (objects + [o])[..|objects|] == objects;
  }

  lemma {:induction false} ItemsConcat(a: seq<RawObject>, b: seq<RawObject>)
    ensures Items(a + b) == Items(a) + Items(b)
    decreases |b|, 0
  {
    if b == [] {
      assert a + b == a;
    } else {
      var n := |b| - 1;
      ItemsConcatStep(a, b[..n], b[n]);
      assert b == b[..n] + [b[n]];
    }
  }

  lemma {:induction false} ItemsConcatStep(a: seq<RawObject>, b: seq<RawObject>, o: RawObject)
    ensures Items(a + (b + [o])) == Items(a) + Items(b + [o])
    decreases |b|, 1
  {
    hide Items, ItemsOf;
    ItemsConcat(a, b);
    ItemsStep(a + b, o);
    ItemsStep(b, o);
    Texts.Regroup(a, b, [o]);
    Texts.Regroup(Items(a), Items(b), ItemsOf(o));
  }

  method SelectOrdinals(b: BatchFrame, s: Selection, day: int) returns (ordinals: seq<nat>, counted: Selection)
    ensures ordinals == DayOrdinals(b, day)
    ensures counted == Observe(s, b.records, day, |b.records|)
  {
    ordinals, counted := [], s;
    for k := 0 to |b.records|
      invariant ordinals == OrdinalsOn(b.records, day, k)
      invariant counted == Observe(s, b.records, day, k)
    {
      var record := b.records[k];
      if Day(record.timeMsc) != day {
        continue;
      }
      ordinals := ordinals + [k];
      counted := counted.(accepted := counted.accepted + 1);
      if !counted.hasWatermark || record.timeMsc > counted.throughMsc {
        counted := counted.(throughMsc := record.timeMsc, hasWatermark := true);
      }
      if record.captureSequence > counted.throughCapture {
        counted := counted.(throughCapture := record.captureSequence);
      }
    }
    if |b.records| == 0 && Day(b.requestedFromMsc) == day {
      ordinals := [0];
    }
  }

  method AbsorbItem(s: Selection, it: Item, day: int) returns (r: Selection)
    ensures r == Absorb(s, it, day)
  {
    hide DayOrdinals, Observe;
    var entry := it.entry;
    var ordinals, counted := SelectOrdinals(entry.frame, s, day);
    if |ordinals| == 0 {
      QuietObserves(s, entry.frame, day);
      return s;
    }
    r := counted;
    if s.startSequence == 0 {
      r := r.(startSequence := entry.sequence, startRoot := entry.previous);
    }
    r := r.(endSequence := entry.sequence, endRoot := entry.entryHash);
    if entry.frame.copyTicksError != 0 {
      r := r.(errors := r.errors + 1);
    }
    var runs := FindRuns(ordinals);
    var ranges := [];
    for i := 0 to |runs|
      invariant ranges == RangesOf(it, day)[..i]
    {
      ranges := ranges + [Range(it.key, it.sha, it.bytes, entry.sequence, entry.sequence, runs[i].0, runs[i].1)];
    }
    assert ranges == RangesOf(it, day);
    r := r.(objects := r.objects + ranges);
  }

  lemma {:induction false} QuietUpTo(s: Selection, records: seq<Tick>, day: int, n: nat)
    requires n <= |records| && OrdinalsOn(records, day, n) == []
    ensures Observe(s, records, day, n) == s
  {
    if n > 0 {
      QuietUpTo(s, records, day, n - 1);
    }
  }

  lemma QuietObserves(s: Selection, b: BatchFrame, day: int)
    requires DayOrdinals(b, day) == []
    ensures Observe(s, b.records, day, |b.records|) == s
  {
    if b.records != [] {
      QuietUpTo(s, b.records, day, |b.records|);
    }
  }

  lemma DeriveStep(items: seq<Item>, it: Item, day: int, lo: nat, hi: nat, maxRecords: nat)
    ensures var before := Derive(items, day, lo, hi, maxRecords);
            Derive(items + [it], day, lo, hi, maxRecords) ==
            if before.None? || Skipped(it, lo, hi) then before
            else if |it.entry.frame.records| > maxRecords then None
            else Some(Absorb(before.value, it, day))
  {
    hide Absorb;
    assert (items + [it])[..|items|] == items;
  }

  /** The inner loop, over the entries of one object. */
  method DeriveObject(o: RawObject, s: Selection, day: int, lo: nat, hi: nat, maxRecords: nat, ghost done: seq<Item>)
    returns (result: Option<Selection>)
    requires Derive(done, day, lo, hi, maxRecords) == Some(s)
    ensures result == Derive(done + ItemsOf(o), day, lo, hi, maxRecords)
  {
    hide Absorb, Derive;
    var selection := s;
    ghost var here := ItemsOf(o);
    assert done + here[..0] == done;
    for j := 0 to |o.segment.entries|
      invariant Derive(done + here[..j], day, lo, hi, maxRecords) == Some(selection)
    {
      var it := Item(o.key, o.sha, o.bytes, o.segment.entries[j]);
      DeriveStep(done + here[..j], it, day, lo, hi, maxRecords);
      assert done + here[..j + 1] == (done + here[..j]) + [it];
      if lo != 0 && (it.entry.sequence < lo || it.entry.sequence > hi) {
        continue;
      }
      if |it.entry.frame.records| > maxRecords {
        DeriveStops(done + here[..j + 1], here[j + 1..], day, lo, hi, maxRecords);
        assert done + here == done + here[..j + 1] + here[j + 1..];
        return None;
      }
      selection := AbsorbItem(selection, it, day);
    }
    assert here[..|here|] == here;
    return Some(selection);
  }

  method DeriveDaySelection(objects: seq<RawObject>, day: int, lo: nat, hi: nat, maxRecords: nat)
    returns (result: Option<Selection>)
    ensures result == Derive(Items(objects), day, lo, hi, maxRecords)
  {
    hide Absorb, Derive, Items, ItemsOf;
    var selection := EMPTY;
    EmptyDerive(day, lo, hi, maxRecords);
    for i := 0 to |objects|
      invariant Derive(Items(objects[..i]), day, lo, hi, maxRecords) == Some(selection)
    {
      var next := DeriveObject(objects[i], selection, day, lo, hi, maxRecords, Items(objects[..i]));
      ItemsStep(objects[..i], objects[i]);
      assert objects[..i + 1] == objects[..i] + [objects[i]];
      if next.None? {
        DeriveStops(Items(objects[..i + 1]), Items(objects[i + 1..]), day, lo, hi, maxRecords);
        ItemsConcat(objects[..i + 1], objects[i + 1..]);
        assert objects == objects[..i + 1] + objects[i + 1..];
        return None;
      }
      selection := next.value;
    }
    assert objects[..|objects|] == objects;
    return Some(selection);
  }

  lemma EmptyDerive(day: int, lo: nat, hi: nat, maxRecords: nat)
    ensures Items([]) == [] && Derive([], day, lo, hi, maxRecords) == Some(EMPTY)
  {
  }
}
