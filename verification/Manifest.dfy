/** The raw-day manifest: building it, checking its form, and verifying it against WAL objects (internal/archive/manifest.go). */
module Manifest {
  import opened Protocol
  import opened Digests
  import opened DaySelection
  import opened Segments
  import opened Counting

  /** The part of a scope that a manifest repeats. */
  datatype Identity = Identity(
    dataset: Text, dayDefinition: Text, publisher: Text, epoch: U64, settlePolicy: Text, configHash: Digest)

  datatype Scope = Scope(identity: Identity, maxRecords: nat)

  datatype Manifest = Manifest(
    identity: Identity, day: int, revision: nat,
    objects: seq<Range>, chain: seq<ChainObject>,
    accepted: nat, errors: nat, throughMsc: int, throughCapture: nat,
    startSequence: nat, startRoot: Digest, endSequence: nat, endRoot: Digest,
    rawSetRoot: Digest, previous: Option<Digest>, sha: Digest)

  // ---- Digests ----

  /** The raw-set root binds content and coordinates, not keys. */
  function RangeFields(rs: seq<Range>): seq<Field> {
    if rs == [] then [] else
    var r := rs[|rs| - 1];
    RangeFields(rs[..|rs| - 1]) + [Hash(r.sha), FU64(r.bytes), FU64(r.start), FU64(r.end), FU32(r.first), FU32(r.last)]
  }

  function RawSetRoot(rs: seq<Range>): Option<Digest> {
    if |rs| > MAX_U32 || !(forall i :: 0 <= i < |rs| ==> RangeValid(rs[i])) then None
    else Some(Sha256([Tag(RawSet), FU32(|rs|)] + RangeFields(rs)))
  }

  function KeyFields(rs: seq<Range>): seq<Field> {
    seq(|rs|, i requires 0 <= i < |rs| => Key(rs[i].key))
  }

  function ChainFields(cs: seq<ChainObject>): seq<Field> {
    if cs == [] then [] else
    var c := cs[|cs| - 1];
    ChainFields(cs[..|cs| - 1]) + [Key(c.key), Hash(c.sha), FU64(c.bytes), FU64(c.start), FU64(c.end)]
  }

  /** The digest covers every field but itself. */
  function ManifestDigest(m: Manifest): Digest {
    var id := m.identity;
    Sha256([Tag(RawDayManifest), Str(id.dataset), Str(id.dayDefinition), Str(id.publisher), FU64(id.epoch),
            Str(id.settlePolicy), Hash(id.configHash), FI64(m.day), FU64(m.revision), FU32(|m.objects|)]
           + RangeFields(m.objects) + KeyFields(m.objects) + [FU32(|m.chain|)] + ChainFields(m.chain)
           + [FU64(m.accepted), FU64(m.errors), FI64(m.throughMsc), FU64(m.throughCapture),
              FU64(m.startSequence), Hash(m.startRoot), FU64(m.endSequence), Hash(m.endRoot), Hash(m.rawSetRoot),
              Hash(if m.previous.Some? then m.previous.value else Zero)])
  }

  // ---- Form ----

  predicate RangeValid(r: Range) {
    && r.key == WalKey(r.sha) && r.bytes != 0 && r.start != 0 && r.start <= r.end
    && (r.start == r.end ==> r.first <= r.last)
  }

  /** `compareCoordinate` says that `b` starts strictly after `a` ends. */
  predicate Before(a: Range, b: Range) {
    a.end < b.start || (a.end == b.start && a.last < b.first)
  }

  predicate Ordered(rs: seq<Range>) {
    rs == [] ||
    var n := |rs| - 1;
    Ordered(rs[..n]) && RangeValid(rs[n]) && (n > 0 ==> Before(rs[n - 1], rs[n]))
  }

  lemma {:induction false} OrderedAt(rs: seq<Range>, i: nat, j: nat)
    requires Ordered(rs) && i <= j < |rs|
    ensures RangeValid(rs[i]) && (i < j ==> Before(rs[i], rs[j]))
    decreases |rs|
  {
    var n := |rs| - 1;
    if j < n {
      OrderedAt(rs[..n], i, j);
    } else if i < n {
      OrderedAt(rs[..n], i, n - 1);
      OrderedAt(rs[..n], n - 1, n - 1);
    }
  }

  method ValidateOrderedRanges(rs: seq<Range>) returns (ok: bool)
    ensures ok == Ordered(rs)
  {
    for i := 0 to |rs|
      invariant Ordered(rs[..i])
    {
      assert rs[..i + 1][..i] == rs[..i];
      if !RangeValid(rs[i]) || (i > 0 && !Before(rs[i - 1], rs[i])) {
        if Ordered(rs) {
          OrderedAt(rs, i, i);
          if i > 0 {
            OrderedAt(rs, i - 1, i);
          }
        }
        return false;
      }
    }
    assert rs[..|rs|] == rs;
    return true;
  }

  predicate SameObject(r: Range, c: ChainObject) {
    r.key == c.key && r.sha == c.sha && r.bytes == c.bytes
  }

  predicate WithinObject(m: Manifest, r: Range, c: ChainObject) {
    c.start <= r.start && r.end <= c.end && m.startSequence <= r.start && r.end <= m.endSequence
  }

  predicate ChainObjectValid(m: Manifest, c: ChainObject) {
    && c.key == WalKey(c.sha) && c.bytes != 0 && c.start != 0 && c.start <= c.end
    && c.start <= m.endSequence && m.startSequence <= c.end
  }

  ghost predicate RangeHasObject(m: Manifest, r: Range, i: int) {
    0 <= i < |m.chain| && SameObject(r, m.chain[i]) && WithinObject(m, r, m.chain[i])
  }

  predicate NoSlice(m: Manifest) {
    m.startSequence == 0 && m.endSequence == 0 && m.startRoot == Zero && m.endRoot == Zero
  }

  function ChainKeys(cs: seq<ChainObject>): (ks: seq<ObjectKey>)
    ensures |ks| == |cs| && forall i :: 0 <= i < |cs| ==> ks[i] == cs[i].key
  {
    seq(|cs|, i requires 0 <= i < |cs| => cs[i].key)
  }

  predicate Adjoins(a: ChainObject, b: ChainObject) {
    a.end != MAX_U64 && b.start == a.end + 1
  }

  /** The first `n` chain objects are valid, new, and follow each other. */
  predicate ChainInOrder(m: Manifest, n: nat)
    requires n <= |m.chain|
  {
    n == 0 ||
    (&& ChainInOrder(m, n - 1) && ChainObjectValid(m, m.chain[n - 1])
     && m.chain[n - 1].key !in ChainKeys(m.chain[..n - 1])
     && (n > 1 ==> Adjoins(m.chain[n - 2], m.chain[n - 1])))
  }

  ghost predicate HasObject(m: Manifest, r: Range) {
    exists i :: RangeHasObject(m, r, i)
  }

  ghost predicate RangesHeld(m: Manifest, n: nat)
    requires n <= |m.objects|
  {
    n == 0 || (RangesHeld(m, n - 1) && HasObject(m, m.objects[n - 1]))
  }

  /** The chain objects are distinct, touch the slice, follow each other, and hold every selected range. */
  ghost predicate ChainValid(m: Manifest) {
    if m.chain == [] then m.objects == [] && NoSlice(m) else
    && m.objects != [] && m.startSequence != 0 && m.startSequence <= m.endSequence
    && ChainInOrder(m, |m.chain|)
    && m.chain[0].start <= m.startSequence <= m.chain[0].end
    && m.chain[|m.chain| - 1].start <= m.endSequence <= m.chain[|m.chain| - 1].end
    && RangesHeld(m, |m.objects|)
  }

  /** `ValidateRawDayManifest` */
  ghost predicate Valid(m: Manifest) {
    && 1 <= m.revision
    && m.identity.dataset != [] && m.identity.dayDefinition != [] && m.identity.publisher != [] && m.identity.settlePolicy != []
    && Ordered(m.objects) && RawSetRoot(m.objects) == Some(m.rawSetRoot)
    && ChainValid(m)
    && (m.revision == 1 <==> m.previous.None?)
    && (if m.objects == [] then NoSlice(m) else m.startSequence != 0 && m.startSequence <= m.endSequence)
  }

  lemma {:induction false} ChainDistinct(m: Manifest, n: nat)
    requires n <= |m.chain| && ChainInOrder(m, n)
    ensures AllDistinct(ChainKeys(m.chain[..n]))
  {
    hide ChainObjectValid, Adjoins;
    if n > 0 {
      ChainDistinct(m, n - 1);
      var before := ChainKeys(m.chain[..n - 1]);
      assert ChainKeys(m.chain[..n]) == before + [m.chain[n - 1].key];
    }
  }

  lemma {:induction false} ChainInOrderStops(m: Manifest, n: nat, k: nat)
    requires n <= k <= |m.chain| && !ChainInOrder(m, n)
    ensures !ChainInOrder(m, k)
  {
    hide ChainObjectValid, Adjoins;
    if n < k {
      ChainInOrderStops(m, n, k - 1);
    }
  }

  lemma {:induction false} RangesHeldStops(m: Manifest, n: nat, k: nat)
    requires n <= k <= |m.objects| && !RangesHeld(m, n)
    ensures !RangesHeld(m, k)
  {
    hide HasObject;
    if n < k {
      RangesHeldStops(m, n, k - 1);
    }
  }

  /** The first loop: each chain object by itself, against the keys seen before, and against its predecessor. */
  method ChainOrder(m: Manifest) returns (ok: bool)
    ensures ok == ChainInOrder(m, |m.chain|)
  {
    hide ChainObjectValid, Adjoins;
    var seen: set<ObjectKey> := {};
    for i := 0 to |m.chain|
      invariant ChainInOrder(m, i) && seen == Elements(ChainKeys(m.chain[..i]))
    {
      var c := m.chain[i];
      assert ChainKeys(m.chain[..i + 1]) == ChainKeys(m.chain[..i]) + [c.key];
      if !ChainObjectValid(m, c) || c.key in seen || (i > 0 && !Adjoins(m.chain[i - 1], c)) {
        ChainInOrderStops(m, i + 1, |m.chain|);
        return false;
      }
      seen := seen + {c.key};
    }
    return true;
  }

  /** The loop that looks for the one chain object of a range: exactly one may match, and it must contain the range. */
  method FindObject(m: Manifest, r: Range) returns (ok: bool)
    requires AllDistinct(ChainKeys(m.chain))
    ensures ok == HasObject(m, r)
  {
    hide SameObject, WithinObject;
    var matches := 0;
    ghost var found := -1;
    for i := 0 to |m.chain|
      invariant matches == if found < 0 then 0 else 1
      invariant found < 0 ==> forall k :: 0 <= k < i ==> !SameObject(r, m.chain[k])
      invariant found >= 0 ==> found < i && RangeHasObject(m, r, found)
    {
      if SameObject(r, m.chain[i]) {
        OnlyOne(m, r, i);
        matches := matches + 1;
        if !WithinObject(m, r, m.chain[i]) {
          return false;
        }
        found := i;
      }
    }
    return matches == 1;
  }

  lemma OnlyOne(m: Manifest, r: Range, i: nat)
    requires AllDistinct(ChainKeys(m.chain)) && i < |m.chain| && SameObject(r, m.chain[i])
    ensures forall k :: 0 <= k < |m.chain| && SameObject(r, m.chain[k]) ==> k == i
  {
    forall k | 0 <= k < |m.chain| && SameObject(r, m.chain[k]) ensures k == i {
      assert ChainKeys(m.chain)[k] == ChainKeys(m.chain)[i];
    }
  }

  method ValidateChainObjects(m: Manifest) returns (ok: bool)
    ensures ok == ChainValid(m)
  {
    hide HasObject, ChainInOrder;
    if |m.chain| == 0 {
      return m.objects == [] && NoSlice(m);
    }
    if m.objects == [] || m.startSequence == 0 || m.endSequence < m.startSequence {
      return false;
    }
    var walked := ChainOrder(m);
    if !walked {
      return false;
    }
    ChainDistinct(m, |m.chain|);
    assert m.chain[..|m.chain|] == m.chain;
    var first, last := m.chain[0], m.chain[|m.chain| - 1];
    if m.startSequence < first.start || m.startSequence > first.end || m.endSequence < last.start || m.endSequence > last.end {
      return false;
    }
    for k := 0 to |m.objects|
      invariant RangesHeld(m, k)
    {
      var has := FindObject(m, m.objects[k]);
      if !has {
        RangesHeldStops(m, k + 1, |m.objects|);
        return false;
      }
    }
    return true;
  }

  method ValidateRawDayManifest(m: Manifest) returns (ok: bool)
    ensures ok == Valid(m)
  {
    hide Ordered, RawSetRoot, ChainValid, NoSlice;
    if m.revision < 1 || m.identity.dataset == [] || m.identity.dayDefinition == [] || m.identity.publisher == []
       || m.identity.settlePolicy == [] {
      return false;
    }
    var ordered := ValidateOrderedRanges(m.objects);
    if !ordered || RawSetRoot(m.objects) != Some(m.rawSetRoot) {
      return false;
    }
    var chained := ValidateChainObjects(m);
    if !chained || (m.revision == 1) != (m.previous == None) {
      return false;
    }
    if |m.objects| == 0 {
      return NoSlice(m);
    }
    return m.startSequence != 0 && m.startSequence <= m.endSequence;
  }

  // ---- Building ----

  /** A manifest that carries a selection and the objects its slice touches. */
  function Drafted(scope: Scope, day: int, revision: nat, objects: seq<RawObject>, s: Selection, root: Digest): Manifest {
    Manifest(scope.identity, day, revision, s.objects, ChainFor(objects, s.startSequence, s.endSequence),
             s.accepted, s.errors, s.throughMsc, s.throughCapture, s.startSequence, s.startRoot, s.endSequence, s.endRoot,
             root, None, Zero)
  }

  /** Zero means "the next one". */
  function NextRevision(asked: nat, previous: Option<Manifest>): Option<nat> {
    if previous.None? then (if asked <= 1 then Some(1) else None)
    else if previous.value.revision < 1 then None
    else if asked == 0 || asked == previous.value.revision + 1 then Some(previous.value.revision + 1)
    else None
  }

  /** `validatePreviousManifest`: the previous revision is valid, of the same scope and day, and nothing has been taken back. */
  ghost predicate PreviousOk(p: Manifest, m: Manifest) {
    && Valid(p)
    && p.identity.(settlePolicy := m.identity.settlePolicy) == m.identity && p.day == m.day
    && p.objects <= m.objects && p.chain <= m.chain
    && p.accepted <= m.accepted && p.errors <= m.errors
    && p.throughMsc <= m.throughMsc && p.throughCapture <= m.throughCapture
    && p.startSequence == m.startSequence && p.startRoot == m.startRoot
    && p.endSequence <= m.endSequence && (p.endSequence == m.endSequence ==> p.endRoot == m.endRoot)
  }

  /** `BuildRawDayManifest` from verified segments in any order. */
  ghost function Build(scope: Scope, day: int, shuffled: seq<RawObject>, asked: nat, previous: Option<Manifest>): Option<Manifest> {
    var revision, objects := NextRevision(asked, previous), InOrder(shuffled);
    if revision.None? || objects.None? then None else
    var s := Derive(Items(objects.value), day, 0, 0, scope.maxRecords);
    if s.None? || !Ordered(s.value.objects) || RawSetRoot(s.value.objects).None? then None else
    var draft := Drafted(scope, day, revision.value, objects.value, s.value, RawSetRoot(s.value.objects).value);
    if previous.Some? &&
       (!PreviousOk(previous.value, draft) ||
        (previous.value.sha != Zero && previous.value.sha != ManifestDigest(previous.value))) then None else
    var m := draft.(previous := if previous.Some? then Some(ManifestDigest(previous.value)) else None);
    if !Valid(m) then None else Some(m.(sha := ManifestDigest(m)))
  }

  // ---- Verifying ----

  /** The supplied object with a given key. */
  function Find(objects: seq<RawObject>, key: ObjectKey): Option<RawObject> {
    if objects == [] then None
    else if objects[|objects| - 1].key == key then Some(objects[|objects| - 1])
    else Find(objects[..|objects| - 1], key)
  }

  function Keys(objects: seq<RawObject>): (ks: seq<ObjectKey>)
    ensures |ks| == |objects| && forall i :: 0 <= i < |objects| ==> ks[i] == objects[i].key
  {
    seq(|objects|, i requires 0 <= i < |objects| => objects[i].key)
  }

  /** The supplied objects in the order of the chain, as far as its first `n` descriptors are met by them. */
  function Arrange(chain: seq<ChainObject>, objects: seq<RawObject>, n: nat): Option<seq<RawObject>>
    requires n <= |chain|
  {
    if n == 0 then Some([]) else
    var before, o := Arrange(chain, objects, n - 1), Find(objects, chain[n - 1].key);
    if before.None? || o.None? || DescriptorOf(o.value) != chain[n - 1] then None
    else if n > 1 && !Follows(before.value[|before.value| - 1], o.value) then None
    else Some(before.value + [o.value])
  }

  predicate SelectionIs(m: Manifest, s: Selection) {
    && s.objects == m.objects && s.accepted == m.accepted && s.errors == m.errors
    && s.throughMsc == m.throughMsc && s.throughCapture == m.throughCapture
    && s.startSequence == m.startSequence && s.startRoot == m.startRoot
    && s.endSequence == m.endSequence && s.endRoot == m.endRoot
  }

  /** The rederivation from the arranged objects: the slice is walked, and every field comes out again. */
  predicate Rederived(m: Manifest, vs: seq<RawObject>, maxRecords: nat) {
    && WalkAlong(Items(vs), m.startSequence, m.endSequence, m.startRoot) == Reached(m.endRoot)
    && ChainFor(vs, m.startSequence, m.endSequence) == m.chain
    && (var s := Derive(Items(vs), m.day, m.startSequence, m.endSequence, maxRecords);
        s.Some? && SelectionIs(m, s.value))
  }

  ghost predicate Trusted(m: Manifest, scope: Scope) {
    Valid(m) && m.identity == scope.identity && (m.sha == Zero || m.sha == ManifestDigest(m))
  }

  /** The metadata of a supplied object is that of its segment. */
  predicate Labelled(o: RawObject) {
    o.key != NO_KEY && o.bytes > 0 && o.sha == o.segment.sha && o.bytes == o.segment.bytes
  }

  predicate AllLabelled(objects: seq<RawObject>) {
    objects == [] || (AllLabelled(objects[..|objects| - 1]) && Labelled(objects[|objects| - 1]))
  }

  lemma {:induction false} AllLabelledAt(objects: seq<RawObject>, i: nat)
    requires AllLabelled(objects) && i < |objects|
    ensures Labelled(objects[i])
  {
    hide Labelled;
    if i < |objects| - 1 {
      AllLabelledAt(objects[..|objects| - 1], i);
    }
  }

  /** What `VerifyRawDaySnapshotSegments` accepts. */
  ghost predicate SnapshotAccepted(m: Manifest, objects: seq<RawObject>, scope: Scope) {
    && Trusted(m, scope)
    && if m.chain == [] then objects == [] else
       && AllLabelled(objects) && AllDistinct(Keys(objects)) && |objects| == |m.chain|
       && var vs := Arrange(m.chain, objects, |m.chain|);
          vs.Some? && Rederived(m, vs.value, scope.maxRecords)
  }

  lemma {:induction false} ArrangeStops(chain: seq<ChainObject>, objects: seq<RawObject>, n: nat, k: nat)
    requires n <= k <= |chain| && Arrange(chain, objects, n).None?
    ensures Arrange(chain, objects, k).None?
  {
    if n < k {
      ArrangeStops(chain, objects, n, k - 1);
    }
  }

  /** Objects by key; a wrong label or a repeated key is an error. */
  method ByKey(objects: seq<RawObject>) returns (byKey: Option<map<ObjectKey, RawObject>>)
    ensures byKey.Some? <==> AllLabelled(objects) && AllDistinct(Keys(objects))
    ensures byKey.Some? ==> byKey.value.Keys == Elements(Keys(objects)) && |byKey.value| == |objects|
    ensures byKey.Some? ==> forall key :: key in byKey.value ==> Find(objects, key) == Some(byKey.value[key])
  {
    hide Labelled;
    var m: map<ObjectKey, RawObject> := map[];
    for i := 0 to |objects|
      invariant AllLabelled(objects[..i])
      invariant AllDistinct(Keys(objects[..i])) && m.Keys == Elements(Keys(objects[..i])) && |m| == i
      invariant forall key :: key in m ==> Find(objects[..i], key) == Some(m[key])
    {
      var o := objects[i];
      if !Labelled(o) {
        if AllLabelled(objects) {
          AllLabelledAt(objects, i);
        }
        return None;
      }
      if o.key in m {
        RepeatedKey(objects, i);
        return None;
      }
      FreshKey(objects, i);
      assert objects[..i + 1][..i] == objects[..i];
      m := m[o.key := o];
    }
    assert objects[..|objects|] == objects;
    return Some(m);
  }

  lemma RepeatedKey(objects: seq<RawObject>, i: nat)
    requires i < |objects| && objects[i].key in Elements(Keys(objects[..i]))
    ensures !AllDistinct(Keys(objects))
  {
    var k :| 0 <= k < i && Keys(objects[..i])[k] == objects[i].key;
    assert Keys(objects)[k] == Keys(objects)[i];
  }

  lemma FreshKey(objects: seq<RawObject>, i: nat)
    requires i < |objects| && objects[i].key !in Elements(Keys(objects[..i])) && AllDistinct(Keys(objects[..i]))
    ensures AllDistinct(Keys(objects[..i + 1]))
    ensures Elements(Keys(objects[..i + 1])) == Elements(Keys(objects[..i])) + {objects[i].key}
  {
    var before := Keys(objects[..i]);
    assert Keys(objects[..i + 1]) == before + [objects[i].key];
    forall k | 0 <= k < i ensures before[k] in Elements(before) {
    }
  }

  lemma {:induction false} FindIn(objects: seq<RawObject>, key: ObjectKey)
    ensures Find(objects, key).Some? <==> key in Keys(objects)
    ensures Find(objects, key).Some? ==> Find(objects, key).value in objects && Find(objects, key).value.key == key
  {
    if objects != [] {
      var n := |objects| - 1;
      FindIn(objects[..n], key);
      assert Keys(objects) == Keys(objects[..n]) + [objects[n].key];
    }
  }

  /** The descriptor loop: each chain object is looked up, compared, and attached to its predecessor. */
  method ArrangeObjects(chain: seq<ChainObject>, byKey: map<ObjectKey, RawObject>, ghost objects: seq<RawObject>)
    returns (vs: Option<seq<RawObject>>)
    requires byKey.Keys == Elements(Keys(objects))
    requires forall key :: key in byKey ==> Find(objects, key) == Some(byKey[key])
    ensures vs == Arrange(chain, objects, |chain|)
  {
    hide Follows, DescriptorOf;
    var arranged := [];
    for i := 0 to |chain|
      invariant Arrange(chain, objects, i) == Some(arranged) && |arranged| == i
    {
      FindIn(objects, chain[i].key);
      if chain[i].key !in byKey || DescriptorOf(byKey[chain[i].key]) != chain[i] {
        ArrangeStops(chain, objects, i + 1, |chain|);
        return None;
      }
      var o := byKey[chain[i].key];
      if i > 0 && !Follows(arranged[i - 1], o) {
        ArrangeStops(chain, objects, i + 1, |chain|);
        return None;
      }
      arranged := arranged + [o];
    }
    return Some(arranged);
  }

  predicate Suppliable(o: RawObject) { SegmentVerified(o) && Labelled(o) }

  lemma SuppliedIsSealed(m: Manifest, o: RawObject, c: ChainObject)
    requires Suppliable(o) && DescriptorOf(o) == c && ChainObjectValid(m, c)
    ensures Sealed(o)
  {
  }

  lemma {:induction false} ArrangedAreSealed(m: Manifest, objects: seq<RawObject>, n: nat)
    requires n <= |m.chain| && Arrange(m.chain, objects, n).Some? && ChainInOrder(m, n)
    requires forall i :: 0 <= i < |objects| ==> Suppliable(objects[i])
    ensures var vs := Arrange(m.chain, objects, n).value;
            && |vs| == n && Contiguous(vs)
            && (forall i :: 0 <= i < n ==> vs[i] in objects) && Descriptors(vs) == m.chain[..n]
  {
    hide Suppliable, Sealed, Follows, DescriptorOf, Adjoins, ChainObjectValid;
    if n > 0 {
      ArrangedAreSealed(m, objects, n - 1);
      FindIn(objects, m.chain[n - 1].key);
      var before, vs := Arrange(m.chain, objects, n - 1).value, Arrange(m.chain, objects, n).value;
      SuppliedIsSealed(m, vs[n - 1], m.chain[n - 1]);
      assert vs[..n - 1] == before;
      assert Descriptors(vs) == Descriptors(before) + [m.chain[n - 1]];
    }
  }

  method VerifySnapshotSegments(m: Manifest, objects: seq<RawObject>, scope: Scope) returns (ok: bool)
    requires forall i :: 0 <= i < |objects| ==> SegmentVerified(objects[i])
    ensures ok == SnapshotAccepted(m, objects, scope)
  {
    hide SegmentVerified, Labelled, AllLabelled, Ordered, RawSetRoot, ChainInOrder, RangesHeld, Arrange, Find, WalkAlong, Derive, Items, ManifestDigest;
    var valid := ValidateRawDayManifest(m);
    if !valid || m.identity != scope.identity || (m.sha != Zero && m.sha != ManifestDigest(m)) {
      return false;
    }
    if |m.chain| == 0 {
      return |objects| == 0;
    }
    var byKey := ByKey(objects);
    if byKey.None? || |byKey.value| != |m.chain| {
      return false;
    }
    var vs := ArrangeObjects(m.chain, byKey.value, objects);
    if vs.None? {
      return false;
    }
    forall i | 0 <= i < |objects| ensures Suppliable(objects[i]) {
      AllLabelledAt(objects, i);
    }
    ArrangedAreSealed(m, objects, |m.chain|);
    forall i | 0 <= i < |vs.value| ensures Sealed(vs.value[i]) {
      ContiguousAt(vs.value, i);
    }
    var walk := WalkSlice(vs.value, m.startSequence, m.endSequence, m.startRoot);
    if walk != Reached(m.endRoot) {
      return false;
    }
    var s := DeriveDaySelection(vs.value, m.day, m.startSequence, m.endSequence, scope.maxRecords);
    if s.None? || !SelectionIs(m, s.value) {
      return false;
    }
    var chain := ChainObjectsForSlice(vs.value, m.startSequence, m.endSequence);
    return chain == m.chain;
  }
}
