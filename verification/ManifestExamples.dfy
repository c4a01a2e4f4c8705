/** Inputs on which verification and revision do not do what one might expect of them. */
module ManifestExamples {
  import opened Protocol
  import opened Digests
  import opened Counting
  import opened DaySelection
  import opened DayCoordinates
  import opened DaySlices
  import opened Segments
  import opened Manifest
  import opened ManifestTheorems
  import opened ManifestAcceptance
  import opened ManifestRevisions
  import W = Wal

  // ---- Small segments ----

  /** Batch `sequence` of session [1], which asked for one tick from `ms` on. */
  function AskFor(sequence: U64, ms: I64, records: seq<Tick>): BatchFrame
    requires |records| <= 1
  {
    BatchFrame([1], [1], sequence, ms, 1, 0, 0, 0, 0, |records|, 0, 0, SOURCE_SCHEMA_MT5, records)
  }

  function TickAt(ms: I64): Tick {
    Tick(0, 0, 0, 0, 0, ms, 0, 0, 0)
  }

  function EntryFor(frame: BatchFrame, sequence: nat, previous: Digest): W.Entry {
    W.Entry(sequence, 0, 0, previous, frame, BatchHash(frame), WalEntryHash(sequence, previous, 0, 0, BatchHash(frame), frame))
  }

  function LoneObject(frame: BatchFrame, sequence: nat, previous: Digest, sha: Digest): RawObject {
    var e := EntryFor(frame, sequence, previous);
    RawObject(WalKey(sha), sha, 1, Segment(sequence, sequence, previous, e.entryHash, sha, 1, [e]))
  }

  lemma LoneIsSealed(frame: BatchFrame, sequence: nat, previous: Digest, sha: Digest)
    requires 1 <= sequence <= MAX_U64 && sha != Zero
    ensures Sealed(LoneObject(frame, sequence, previous, sha))
  {
    var o := LoneObject(frame, sequence, previous, sha);
    ChainedNothing();
    ChainedAppend([], ItemsOf(o)[0]);
    assert ItemsOf(o) == [] + [ItemsOf(o)[0]];
  }

  lemma TwoAreContiguous(a: RawObject, b: RawObject)
    requires Sealed(a) && Sealed(b) && Follows(a, b)
    ensures Contiguous([a]) && Contiguous([a] + [b]) && Items([a]) == ItemsOf(a) && Items([a] + [b]) == ItemsOf(a) + ItemsOf(b)
  {
    hide Sealed, Follows;
    assert [a][..0] == [] && ([a] + [b])[..1] == [a];
    ItemsStep([], a);
    ItemsStep([a], b);
    assert [] + [a] == [a];
  }

  lemma EmptyBatchAbsorbed(s: Selection, it: Item, day: int)
    requires it.entry.frame.records == [] && it.entry.frame.copyTicksError == 0
    ensures Day(it.entry.frame.requestedFromMsc) != day ==> Quiet(it, day) && Absorb(s, it, day) == s
    ensures Day(it.entry.frame.requestedFromMsc) == day ==>
              !Quiet(it, day) &&
              Absorb(s, it, day) ==
              s.(objects := s.objects + [Range(it.key, it.sha, it.bytes, it.entry.sequence, it.entry.sequence, 0, 0)],
                 startSequence := if s.startSequence == 0 then it.entry.sequence else s.startSequence,
                 startRoot := if s.startSequence == 0 then it.entry.previous else s.startRoot,
                 endSequence := it.entry.sequence, endRoot := it.entry.entryHash)
  {
    assert [0][..0] == [] && Runs([]) == [] && Runs([0]) == [(0, 0)];
  }

  lemma OneTickAbsorbed(s: Selection, it: Item, ms: I64)
    requires it.entry.frame.records == [TickAt(ms)]
    ensures var t := Absorb(s, it, Day(ms));
            t.accepted == s.accepted + 1 && |t.objects| == |s.objects| + 1 && (!s.hasWatermark ==> t.throughMsc == ms)
  {
    var records, day := it.entry.frame.records, Day(ms);
    assert Observe(s, records, day, 0) == s;
    assert OrdinalsOn(records, day, 1) == [] + [0];
    assert [0][..0] == [] && Runs([]) == [] && Runs([0]) == [(0, 0)];
  }

  // ---- A slice that leaves out an entry of the day ----

  /** One segment with two batches without records, both asking for day zero. */
  function TwoEntries(sha: Digest): RawObject {
    var e := EntryFor(AskFor(1, 0, []), 1, Zero);
    var f := EntryFor(AskFor(2, 0, []), 2, e.entryHash);
    RawObject(WalKey(sha), sha, 1, Segment(1, 2, Zero, f.entryHash, sha, 1, [e, f]))
  }

  function SecondOnly(id: Identity, sha: Digest): Manifest {
    var o := TwoEntries(sha);
    var rs := [Range(o.key, sha, 1, 2, 2, 0, 0)];
    Manifest(id, 0, 1, rs, [DescriptorOf(o)], 0, 0, 0, 0,
             2, o.segment.entries[1].previous, 2, o.segment.entries[1].entryHash,
             if RawSetRoot(rs).Some? then RawSetRoot(rs).value else Zero, None, Zero)
  }

  lemma TwoEntriesChained(sha: Digest)
    requires sha != Zero
    ensures var o := TwoEntries(sha); Sealed(o) && Items([o]) == ItemsOf(o) == [ItemsOf(o)[0]] + [ItemsOf(o)[1]]
  {
    var o := TwoEntries(sha);
    var x, y := ItemsOf(o)[0], ItemsOf(o)[1];
    ChainedNothing();
    ChainedAppend([], x);
    assert [] + [x] == [x];
    ChainedAppend([x], y);
    assert ItemsOf(o) == [x] + [y];
    ItemsStep([], o);
    assert [] + [o] == [o];
  }

  lemma SecondOnlyIsValid(id: Identity, sha: Digest)
    requires Named(id)
    ensures Valid(SecondOnly(id, sha))
  {
    hide RangeFields;
    var m := SecondOnly(id, sha);
    assert m.objects[..0] == [] && RangeValid(m.objects[0]);
    assert Ordered(m.objects);
    assert m.chain[..0] == [] && ChainKeys([]) == [];
    assert ChainInOrder(m, 0) && ChainInOrder(m, 1);
    assert RangeHasObject(m, m.objects[0], 0);
    assert RangesHeld(m, 0) && RangesHeld(m, 1);
  }

  lemma SecondOnlyIsRederived(id: Identity, sha: Digest)
    requires sha != Zero
    ensures Rederived(SecondOnly(id, sha), [TwoEntries(sha)], 1)
  {
    hide Derive, Absorb, WalkAlong, Items, RawSetRoot, Sealed;
    var m, o := SecondOnly(id, sha), TwoEntries(sha);
    TwoEntriesChained(sha);
    var x, y := ItemsOf(o)[0], ItemsOf(o)[1];
    EmptyWalk(2, 2, m.startRoot);
    WalkStep([], x, 2, 2, m.startRoot);
    WalkStep([x], y, 2, 2, m.startRoot);
    assert [] + [x] == [x];
    EmptyDerive(0, 2, 2, 1);
    DeriveStep([], x, 0, 2, 2, 1);
    DeriveStep([x], y, 0, 2, 2, 1);
    EmptyBatchAbsorbed(EMPTY, y, 0);
    assert Touching([o][..0], 2, 2) == [] && Touching([o], 2, 2) == [o];
  }

  /**
   The verifier accepts a manifest that names the second entry alone, although the first entry of the same
   object belongs to the day as well.
   */
  lemma ShortSliceExample(scope: Scope, sha: Digest)
    requires Named(scope.identity) && scope.maxRecords == 1 && sha != Zero
    ensures var m, o := SecondOnly(scope.identity, sha), TwoEntries(sha);
            && SegmentVerified(o) && SnapshotAccepted(m, [o], scope) && AllSingle(m.objects)
            && Denoted(m.objects) == [(2, 0)] && Coordinates(Items([o]), m.day) == [(1, 0), (2, 0)]
  {
    hide Rederived, Valid, ManifestDigest, Items;
    var m, o := SecondOnly(scope.identity, sha), TwoEntries(sha);
    SecondOnlyIsValid(scope.identity, sha);
    SecondOnlyIsRederived(scope.identity, sha);
    TwoEntriesChained(sha);
    assert [o][..0] == [] && Labelled(o) && AllLabelled([o]);
    assert Find([o], o.key) == Some(o);
    assert Arrange(m.chain, [o], 0) == Some([]) && Arrange(m.chain, [o], 1) == Some([] + [o]);
    assert [] + [o] == [o];
    NothingDenotesNothing();
    DenotedStep([], m.objects[0]);
    assert [] + m.objects == m.objects && Interval(0, 0) == [0];
    CoordinatesOfTwo(ItemsOf(o)[0], ItemsOf(o)[1]);
  }

  lemma CoordinatesOfTwo(x: Item, y: Item)
    requires x.entry.frame == AskFor(1, 0, []) && y.entry.frame == AskFor(2, 0, [])
    ensures Coordinates([x] + [y], 0) == [(x.entry.sequence, 0), (y.entry.sequence, 0)]
  {
    assert ([x] + [y])[..1] == [x] && [x][..0] == [];
    assert Coordinates([x], 0) == [] + At(x.entry.sequence, [0]);
  }

  // ---- Revisions that are refused ----

  /** Two segments of one entry each: a batch without records, then one with a tick. */
  function Earlier(asked: I64, sha: Digest): RawObject { LoneObject(AskFor(1, asked, []), 1, Zero, sha) }

  function Later(asked: I64, ms: I64, sha: Digest, other: Digest): RawObject {
    LoneObject(AskFor(2, asked, [TickAt(ms)]), 2, Earlier(asked, sha).segment.chainRoot, other)
  }

  /** What is derived for the day of the tick, before and after it has come. */
  lemma DerivedBeforeAndAfter(asked: I64, ms: I64, sha: Digest, other: Digest, maxRecords: nat)
    requires 1 <= maxRecords && sha != Zero && other != Zero
    ensures var a, b := Earlier(asked, sha), Later(asked, ms, sha, other);
            var s, t := Derive(Items([a]), Day(ms), 0, 0, maxRecords), Derive(Items([a] + [b]), Day(ms), 0, 0, maxRecords);
            && Contiguous([a]) && Contiguous([a] + [b]) && s.Some? && t.Some?
            && s.value.accepted == 0 && t.value.accepted == 1 && |t.value.objects| == |s.value.objects| + 1
            && (s.value.objects == [] <==> Day(asked) != Day(ms)) && |s.value.objects| <= 1
            && s.value.throughMsc == 0 && t.value.throughMsc == ms
  {
    hide Derive, Absorb, Items, Contiguous, Sealed, Day;
    var a, b, day := Earlier(asked, sha), Later(asked, ms, sha, other), Day(ms);
    LoneIsSealed(AskFor(1, asked, []), 1, Zero, sha);
    LoneIsSealed(AskFor(2, asked, [TickAt(ms)]), 2, a.segment.chainRoot, other);
    TwoAreContiguous(a, b);
    var x, y := ItemsOf(a)[0], ItemsOf(b)[0];
    assert ItemsOf(a) == [x] && ItemsOf(b) == [y] && [] + [x] == [x];
    EmptyDerive(day, 0, 0, maxRecords);
    DeriveStep([], x, day, 0, 0, maxRecords);
    DeriveStep([x], y, day, 0, 0, maxRecords);
    EmptyBatchAbsorbed(EMPTY, x, day);
    OneTickAbsorbed(Absorb(EMPTY, x, day), y, ms);
  }

  lemma ExampleKeys(asked: I64, ms: I64, sha: Digest, other: Digest)
    requires sha != other
    ensures var a, b := Earlier(asked, sha), Later(asked, ms, sha, other);
            AllDistinct(Keys([a])) && AllDistinct(Keys([a] + [b]))
  {
    var a, b := Earlier(asked, sha), Later(asked, ms, sha, other);
    assert Keys([a] + [b]) == [a.key, b.key];
  }

  /**
   The first revision of the tick's day can be built. The second is refused exactly when the first was empty
   or the day lies before 1970.
   */
  lemma SecondRevision(scope: Scope, asked: I64, ms: I64, sha: Digest, other: Digest)
    requires Named(scope.identity) && 1 <= scope.maxRecords && sha != other && sha != Zero && other != Zero
    ensures var a, b := Earlier(asked, sha), Later(asked, ms, sha, other);
            var p := Build(scope, Day(ms), [a], 1, None);
            && p.Some? && p.value.throughMsc == 0 && (p.value.objects == [] <==> Day(asked) != Day(ms))
            && (Build(scope, Day(ms), [a] + [b], 0, p).None? <==> Day(asked) != Day(ms) || Day(ms) < 0)
  {
    hide Derive, Items, Contiguous, Build, Day, Earlier, Later, ChainFor, AllDistinct, Keys, Valid, ManifestDigest;
    var a, b := Earlier(asked, sha), Later(asked, ms, sha, other);
    DerivedBeforeAndAfter(asked, ms, sha, other, scope.maxRecords);
    ExampleKeys(asked, ms, sha, other);
    GenesisBuildsIff(scope, Day(ms), [a], [a]);
    var s := BuiltCarries(scope, Day(ms), [a], [a], 1, None);
    RevisionBuildsIff(scope, Day(ms), [a], [b], [a], [a] + [b], 1, None);
  }

  /** The first revision of day one is empty. When a tick of the day arrives, the second is refused. */
  lemma EmptyDayExample(scope: Scope, sha: Digest, other: Digest)
    requires Named(scope.identity) && 1 <= scope.maxRecords && sha != other && sha != Zero && other != Zero
    ensures var a, b := Earlier(0, sha), Later(0, DAY_MS, sha, other);
            var p := Build(scope, 1, [a], 1, None);
            p.Some? && p.value.objects == [] && Build(scope, 1, [a] + [b], 0, p).None?
  {
    assert Day(0) == 0 && Day(DAY_MS) == 1;
    hide *;
    SecondRevision(scope, 0, DAY_MS, sha, other);
  }

  /**
   On the last day of 1969: the first revision holds a batch without records, the second would add a tick and
   is refused, because it would take the watermark back from 0 to -1.
   */
  lemma EarlyDayExample(scope: Scope, sha: Digest, other: Digest)
    requires Named(scope.identity) && 1 <= scope.maxRecords && sha != other && sha != Zero && other != Zero
    ensures var a, b := Earlier(-1, sha), Later(-1, -1, sha, other);
            var p, t := Build(scope, -1, [a], 1, None), Derive(Items([a] + [b]), -1, 0, 0, scope.maxRecords);
            && p.Some? && p.value.objects != [] && p.value.throughMsc == 0 && t.Some? && t.value.throughMsc == -1
            && Build(scope, -1, [a] + [b], 0, p).None?
  {
    assert Day(-1) == -1;
    hide *;
    SecondRevision(scope, -1, -1, sha, other);
    DerivedBeforeAndAfter(-1, -1, sha, other, scope.maxRecords);
  }
}
