/** The publication catalog (internal/publication/catalog.go): which sealed segments still wait to be published. */
module Catalog {
  import opened Protocol
  import opened Digests
  import opened Segments

  datatype SegmentState = Promoted | Published | LocalPruned

  datatype Segment = Segment(rawKey: ObjectKey, rawPath: Text, bytes: nat, state: SegmentState)

  datatype ManifestState = Spooled | RetryWait | Complete

  /** What a manifest contributes: its day and revision, and the objects of its chain. */
  datatype Listing = Listing(day: int, revision: nat, chain: seq<ChainObject>)

  type SegmentTable = map<Digest, Segment>

  /** Segments by content hash, manifests by day and revision; and, as history, every manifest ever marked published. */
  datatype State = State(segments: SegmentTable, manifests: map<(int, nat), ManifestState>, completed: seq<Listing>)

  const EMPTY: State := State(map[], map[], [])

  predicate Pending(s: Segment) { s.state == Promoted }

  // ---- Operations ----

  /** `UpsertSegment`: the row is overwritten, except for a state that has moved on. */
  function Upsert(s: State, sha: Digest, path: Text, bytes: nat, state: SegmentState): State {
    var kept := if sha in s.segments && !Pending(s.segments[sha]) then s.segments[sha].state else state;
    s.(segments := s.segments[sha := Segment(WalKey(sha), path, bytes, kept)])
  }

  /** `promoteSealed` on one segment: a pruned one is left alone, any other is upserted as promoted. */
  function Promote(s: State, sha: Digest, path: Text, bytes: nat): State {
    if sha in s.segments && s.segments[sha].state == LocalPruned then s else Upsert(s, sha, path, bytes, Promoted)
  }

  /** One statement of the publishing transaction: every pending row with this key. */
  function MarkKey(segments: SegmentTable, key: ObjectKey): SegmentTable {
    map sha | sha in segments ::
      if segments[sha].rawKey == key && Pending(segments[sha]) then segments[sha].(state := Published) else segments[sha]
  }

  function MarkKeys(segments: SegmentTable, chain: seq<ChainObject>, n: nat): SegmentTable
    requires n <= |chain|
  {
    if n == 0 then segments else MarkKey(MarkKeys(segments, chain, n - 1), chain[n - 1].key)
  }

  predicate NoEmptyKey(chain: seq<ChainObject>) {
    forall i :: 0 <= i < |chain| ==> chain[i].key != NO_KEY
  }

  /** `MarkManifestPublished`: one transaction, or nothing. */
  function Publish(s: State, m: Listing): (State, bool) {
    if m.revision == 0 || (m.day, m.revision) !in s.manifests || !NoEmptyKey(m.chain) then (s, false)
    else (State(MarkKeys(s.segments, m.chain, |m.chain|), s.manifests[(m.day, m.revision) := Complete], s.completed + [m]), true)
  }

  /** `MarkSegmentLocalPruned` */
  function Prune(s: State, key: ObjectKey, path: Text, sha: Digest, bytes: nat): (State, bool) {
    if key == NO_KEY || path == [] || sha == Zero || bytes == 0 || sha !in s.segments then (s, false) else
    var row := s.segments[sha];
    if row.rawKey != key || row.rawPath != path || row.bytes != bytes then (s, false)
    else if row.state == LocalPruned then (s, true)
    else if row.state != Published then (s, false)
    else (s.(segments := s.segments[sha := row.(state := LocalPruned)]), true)
  }

  datatype Event =
    | PromoteSegment(sha: Digest, path: Text, bytes: nat)
    | SpoolManifest(day: int, revision: nat, state: ManifestState)
    | ManifestPublished(manifest: Listing)
    | SegmentPruned(key: ObjectKey, path: Text, sha: Digest, bytes: nat)

  function Next(s: State, e: Event): State {
    match e
    case PromoteSegment(sha, path, bytes) => Promote(s, sha, path, bytes)
    case SpoolManifest(day, revision, state) => s.(manifests := s.manifests[(day, revision) := state])
    case ManifestPublished(m) => Publish(s, m).0
    case SegmentPruned(key, path, sha, bytes) => Prune(s, key, path, sha, bytes).0
  }

  function Run(events: seq<Event>): State {
    if events == [] then EMPTY else Next(Run(events[..|events| - 1]), events[|events| - 1])
  }

  // ---- The catalog as an object ----

  class Store {
    var segments: SegmentTable
    var manifests: map<(int, nat), ManifestState>
    ghost var completed: seq<Listing>

    ghost function View(): State
      reads this
    {
      State(segments, manifests, completed)
    }

    constructor ()
      ensures View() == EMPTY
    {
      segments, manifests, completed := map[], map[], [];
    }

    method UpsertSegment(sha: Digest, path: Text, bytes: nat, state: SegmentState)
      modifies this
      ensures View() == Upsert(old(View()), sha, path, bytes, state)
    {
      var kept := state;
      if sha in segments && (segments[sha].state == Published || segments[sha].state == LocalPruned) {
        kept := segments[sha].state;
      }
      segments := segments[sha := Segment(WalKey(sha), path, bytes, kept)];
    }

    method PromoteSealed(sha: Digest, path: Text, bytes: nat)
      modifies this
      ensures View() == Promote(old(View()), sha, path, bytes)
    {
      if sha in segments && segments[sha].state == LocalPruned {
        return;
      }
      UpsertSegment(sha, path, bytes, Promoted);
    }

    method MarkManifestPublished(m: Listing) returns (ok: bool)
      modifies this
      ensures (View(), ok) == Publish(old(View()), m)
    {
      if m.revision == 0 || (m.day, m.revision) !in manifests {
        return false;
      }
      var rows := segments;
      var seen: set<ObjectKey> := {};
      for i := 0 to |m.chain|
        invariant View() == old(View()) && rows == MarkKeys(segments, m.chain, i)
        invariant forall k :: 0 <= k < i ==> m.chain[k].key != NO_KEY
        invariant forall key :: key in seen <==> exists k :: 0 <= k < i && m.chain[k].key == key
      {
        var key := m.chain[i].key;
        if key == NO_KEY {
          return false;
        }
        if key in seen {
          MarkedAlready(segments, m.chain, i, key);
          continue;
        }
        seen := seen + {key};
        rows := MarkKey(rows, key);
      }
      segments := rows;
      manifests := manifests[(m.day, m.revision) := Complete];
      completed := completed + [m];
      return true;
    }

    method MarkSegmentLocalPruned(key: ObjectKey, path: Text, sha: Digest, bytes: nat) returns (ok: bool)
      modifies this
      ensures (View(), ok) == Prune(old(View()), key, path, sha, bytes)
    {
      if key == NO_KEY || path == [] || sha == Zero || bytes == 0 {
        return false;
      }
      if sha !in segments || segments[sha].rawKey != key || segments[sha].rawPath != path || segments[sha].bytes != bytes {
        return false;
      }
      if segments[sha].state == LocalPruned {
        return true;
      }
      if segments[sha].state != Published {
        return false;
      }
      segments := segments[sha := segments[sha].(state := LocalPruned)];
      return true;
    }

    /** The segment part of `PendingStats`. */
    method PendingStats() returns (count: nat)
      ensures count == |PendingOf(segments)|
    {
      return |set sha | sha in segments && Pending(segments[sha])|;
    }
  }

  function PendingOf(segments: SegmentTable): set<Digest> {
    set sha | sha in segments && Pending(segments[sha])
  }

  // ---- What publishing does to a row ----

  predicate Listed(chain: seq<ChainObject>, n: nat, key: ObjectKey)
    requires n <= |chain|
  {
    exists k :: 0 <= k < n && chain[k].key == key
  }

  /** Exactly the pending rows whose key is in the chain become published; nothing else changes. */
  lemma {:induction false} MarkKeysAre(segments: SegmentTable, chain: seq<ChainObject>, n: nat)
    requires n <= |chain|
    ensures MarkKeys(segments, chain, n).Keys == segments.Keys
    ensures forall sha :: sha in segments ==>
              MarkKeys(segments, chain, n)[sha] ==
              if Pending(segments[sha]) && Listed(chain, n, segments[sha].rawKey) then segments[sha].(state := Published) else segments[sha]
  {
    if n > 0 {
      MarkKeysAre(segments, chain, n - 1);
    }
  }

  lemma MarkedAlready(segments: SegmentTable, chain: seq<ChainObject>, n: nat, key: ObjectKey)
    requires n < |chain| && chain[n].key == key && exists k :: 0 <= k < n && chain[k].key == key
    ensures MarkKeys(segments, chain, n + 1) == MarkKeys(segments, chain, n)
  {
    MarkKeysAre(segments, chain, n);
  }

  // ---- Over every run ----

  function Rank(s: SegmentState): nat {
    match s
    case Promoted => 0
    case Published => 1
    case LocalPruned => 2
  }

  /** Segments stay, keep their key, and move at most one state forward. */
  predicate Forward(a: State, b: State) {
    && a.segments.Keys <= b.segments.Keys
    && forall sha :: sha in a.segments ==>
         && Rank(a.segments[sha].state) <= Rank(b.segments[sha].state) <= Rank(a.segments[sha].state) + 1
         && (a.segments[sha].rawKey == WalKey(sha) ==> b.segments[sha].rawKey == WalKey(sha))
  }

  /** The manifest `i` of those marked published has the segment in its chain. */
  predicate CoveredBy(s: State, sha: Digest, i: int) {
    0 <= i < |s.completed| && Listed(s.completed[i].chain, |s.completed[i].chain|, WalKey(sha))
  }

  ghost predicate Covered(s: State, sha: Digest) {
    exists i :: CoveredBy(s, sha, i)
  }

  /** Every segment has its content-addressed key, and one that is no longer pending has been published. */
  ghost predicate Accounted(s: State) {
    forall sha :: sha in s.segments ==> s.segments[sha].rawKey == WalKey(sha) && (!Pending(s.segments[sha]) ==> Covered(s, sha))
  }

  lemma StepIsForward(s: State, e: Event)
    ensures Forward(s, Next(s, e))
    ensures |s.completed| <= |Next(s, e).completed| && Next(s, e).completed[..|s.completed|] == s.completed
  {
    hide MarkKeys, Listed, NoEmptyKey, Publish, Promote, Prune;
    match e
    case PromoteSegment(sha, path, bytes) => PromoteIsForward(s, sha, path, bytes);
    case ManifestPublished(m) => PublishIsForward(s, m);
    case SegmentPruned(key, path, sha, bytes) => PruneIsForward(s, key, path, sha, bytes);
    case SpoolManifest(_, _, _) =>
  }

  lemma PromoteIsForward(s: State, sha: Digest, path: Text, bytes: nat)
    ensures Forward(s, Promote(s, sha, path, bytes)) && Promote(s, sha, path, bytes).completed == s.completed
  {
  }

  lemma PublishIsForward(s: State, m: Listing)
    ensures Forward(s, Publish(s, m).0) && s.completed <= Publish(s, m).0.completed
  {
    hide MarkKeys, Listed, NoEmptyKey;
    MarkKeysAre(s.segments, m.chain, |m.chain|);
  }

  lemma PruneIsForward(s: State, key: ObjectKey, path: Text, sha: Digest, bytes: nat)
    ensures Forward(s, Prune(s, key, path, sha, bytes).0) && Prune(s, key, path, sha, bytes).0.completed == s.completed
  {
  }

  lemma CoveredGrows(s: State, t: State, sha: Digest)
    requires Covered(s, sha) && |s.completed| <= |t.completed| && t.completed[..|s.completed|] == s.completed
    ensures Covered(t, sha)
  {
    hide Listed;
    var i :| CoveredBy(s, sha, i);
    assert t.completed[..|s.completed|][i] == t.completed[i];
    assert CoveredBy(t, sha, i);
  }

  lemma StepIsAccounted(s: State, e: Event)
    requires Accounted(s)
    ensures Accounted(Next(s, e))
  {
    hide Listed, MarkKeys, Covered, Promote, Prune;
    var t := Next(s, e);
    StepIsForward(s, e);
    forall sha | sha in t.segments
      ensures t.segments[sha].rawKey == WalKey(sha) && (!Pending(t.segments[sha]) ==> Covered(t, sha))
    {
      if sha in s.segments && !Pending(s.segments[sha]) {
        CoveredGrows(s, t, sha);
      }
      RowAfter(s, e, sha);
    }
  }

  /** A row that is not pending after a step was not pending before it, or the step published its manifest. */
  lemma RowAfter(s: State, e: Event, sha: Digest)
    requires Accounted(s) && sha in Next(s, e).segments
    ensures Next(s, e).segments[sha].rawKey == WalKey(sha)
    ensures !Pending(Next(s, e).segments[sha]) ==> (sha in s.segments && !Pending(s.segments[sha])) || Covered(Next(s, e), sha)
  {
    hide Covered;
    if e.ManifestPublished? {
      MarkKeysAre(s.segments, e.manifest.chain, |e.manifest.chain|);
      var t := Next(s, e);
      if !Pending(t.segments[sha]) && Pending(s.segments[sha]) {
        PublishedCovers(s, e.manifest, sha);
      }
    }
  }

  lemma PublishedCovers(s: State, m: Listing, sha: Digest)
    requires Publish(s, m).1 && Listed(m.chain, |m.chain|, WalKey(sha))
    ensures Covered(Publish(s, m).0, sha)
  {
    hide MarkKeys;
    assert CoveredBy(Publish(s, m).0, sha, |s.completed|);
  }

  /**
   Over every run of promotions, publications and prunes: a segment that is no longer counted as pending is a chain
   object of a manifest that has been marked published.
   */
  lemma {:induction false} RunIsAccounted(events: seq<Event>)
    ensures Accounted(Run(events))
  {
    hide Accounted, Next;
    if events == [] {
      NothingToAccount();
    } else {
      RunIsAccounted(events[..|events| - 1]);
      StepIsAccounted(Run(events[..|events| - 1]), events[|events| - 1]);
    }
  }

  lemma NothingToAccount()
    ensures Accounted(EMPTY)
  {
  }

  /** The backlog counts at least every segment that no published manifest has in its chain. */
  lemma UnpublishedArePending(events: seq<Event>, sha: Digest)
    requires sha in Run(events).segments && !Covered(Run(events), sha)
    ensures sha in PendingOf(Run(events).segments)
  {
    hide Run, Covered;
    RunIsAccounted(events);
  }

  /** Publishing a manifest takes the segments of its chain out of the backlog, and no others. */
  lemma PublishingClears(s: State, m: Listing)
    requires Publish(s, m).1
    ensures PendingOf(Publish(s, m).0.segments) ==
            set sha | sha in PendingOf(s.segments) && !Listed(m.chain, |m.chain|, s.segments[sha].rawKey)
  {
    hide MarkKeys, Listed, NoEmptyKey;
    MarkKeysAre(s.segments, m.chain, |m.chain|);
  }

  /** Over every run a segment's state only moves forward. */
  lemma {:induction false} RunIsForward(events: seq<Event>, n: nat, sha: Digest)
    requires n <= |events| && sha in Run(events[..n]).segments
    ensures sha in Run(events).segments
    ensures Rank(Run(events[..n]).segments[sha].state) <= Rank(Run(events).segments[sha].state)
  {
    hide Next;
    if n == |events| {
      assert events[..n] == events;
    } else {
      var before := events[..|events| - 1];
      assert before[..n] == events[..n];
      RunIsForward(before, n, sha);
      StepIsForward(Run(before), events[|events| - 1]);
    }
  }

  /**
   The catalog itself does not insist: upserting a segment in another state than promoted keeps the accounts exactly
   when the segment was no longer pending, or happens to be in a published manifest.
   */
  lemma UpsertKeepsAccountsIff(s: State, sha: Digest, path: Text, bytes: nat, state: SegmentState)
    requires Accounted(s)
    ensures Accounted(Upsert(s, sha, path, bytes, state)) <==> state == Promoted || Covered(s, sha)
  {
    hide Listed;
    var t := Upsert(s, sha, path, bytes, state);
    forall other ensures Covered(t, other) <==> Covered(s, other) {
      forall i ensures CoveredBy(t, other, i) <==> CoveredBy(s, other, i) {
      }
    }
    if Accounted(t) && state != Promoted {
      assert sha in t.segments;
    }
  }
}
