/** Rebuilding the journal from the WAL (internal/ingest/gateway.go, `reconcileJournal`), for an unpruned WAL. */
module Reconcile {
  import opened Protocol
  import opened Digests
  import opened Cursor
  import opened Counting
  import opened Journal
  import W = Wal

  /** Entry `i` is looked up and its row is the one the WAL says it should be. */
  ghost predicate RowMatches(c: IngestConfig, entries: seq<W.Entry>, t: Tables, i: nat)
    requires i < |entries|
  {
    LookupIn(t, KeyOf(entries[i].frame)) == Present(RowAt(c, entries, i))
  }

  /** What `journalMatchesWAL` decides. */
  ghost predicate Matches(c: IngestConfig, entries: seq<W.Entry>, t: Tables) {
    && (forall i :: 0 <= i < |entries| ==> RowMatches(c, entries, t, i))
    && t.state == Some(FoldState(c, entries))
  }

  /** Read `k` of the comparison, which looks up every entry and then the state, does not fail. */
  predicate AllRead(fails: nat -> bool, n: nat) {
    forall k :: 0 <= k <= n ==> !fails(k)
  }

  /** A failing read counts as a difference. */
  method JournalMatchesWal(c: IngestConfig, journal: Store, entries: seq<W.Entry>, fails: nat -> bool) returns (matches: bool)
    ensures matches == (Matches(c, entries, journal.View()) && AllRead(fails, |entries|))
  {
    hide OutcomeFor, Commit;
    var expected := InitialState(c);
    for i := 0 to |entries|
      invariant expected == FoldState(c, entries[..i])
      invariant forall k :: 0 <= k < i ==> RowMatches(c, entries, journal.View(), k) && !fails(k)
    {
      var entry := entries[i];
      var outcome := OutcomeForBatch(expected, entry.frame, c);
      var found := journal.Lookup(entry.frame.sessionId, entry.frame.batchSequence);
      if fails(i) {
        return false;
      }
      if !found.Present? || found.row != RowFor(entry, outcome) {
        assert !RowMatches(c, entries, journal.View(), i);
        return false;
      }
      assert RowMatches(c, entries, journal.View(), i);
      assert entries[..i + 1][..i] == entries[..i];
      expected := StateFor(expected, entry, outcome);
    }
    assert entries[..|entries|] == entries;
    return !fails(|entries|) && journal.state == Some(expected);
  }

  /** The tables after replaying the first `k` entries into empty ones, stopping at the first that fails. */
  function Replayed(c: IngestConfig, entries: seq<W.Entry>, k: nat, faults: nat -> bool): (Tables, bool)
    requires k <= |entries|
  {
    if k == 0 then (EmptyTables(c), true) else
    var (t, ok) := Replayed(c, entries, k - 1, faults);
    if !ok || t.state.None? then (t, false) else
    var next := ApplyTo(t, entries[k - 1], OutcomeFor(t.state.value, entries[k - 1].frame, c));
    if faults(k - 1) || next.None? then (t, false) else (next.value, true)
  }

  /**
   Faults the database may show during one call: a failed count, a failed read during the comparison, a
   failed reset, or a failed read or insert for some entry during the replay.
   */
  datatype Faults = Faults(count: bool, compare: nat -> bool, reset: bool, apply: nat -> bool)

  predicate NoFaults(f: Faults, n: nat) {
    !f.count && AllRead(f.compare, n) && !f.reset && forall k :: 0 <= k < n ==> !f.apply(k)
  }

  ghost function Reconciled(c: IngestConfig, entries: seq<W.Entry>, t: Tables, f: Faults): (Tables, bool) {
    if f.count || |t.rows| > |entries| then (t, false)
    else if |t.rows| == |entries| && Matches(c, entries, t) && AllRead(f.compare, |entries|) then (t, true)
    else if f.reset then (t, false)
    else Replayed(c, entries, |entries|, f.apply)
  }

  lemma {:induction false} ReplayStops(c: IngestConfig, entries: seq<W.Entry>, k: nat, n: nat, faults: nat -> bool)
    requires k <= n <= |entries| && !Replayed(c, entries, k, faults).1
    ensures Replayed(c, entries, n, faults) == Replayed(c, entries, k, faults)
  {
    hide ApplyTo, OutcomeFor;
    if k < n {
      ReplayStops(c, entries, k, n - 1, faults);
    }
  }

  method ReconcileJournal(journal: Store, entries: seq<W.Entry>, faults: Faults) returns (ok: bool)
    modifies journal`rows, journal`state
    ensures (journal.View(), ok) == Reconciled(journal.config, entries, old(journal.View()), faults)
  {
    hide ApplyTo, OutcomeFor, Matches;
    var c := journal.config;
    if faults.count {
      return false;
    }
    var count := journal.Count();
    if count > |entries| {
      return false;
    }
    if count == |entries| {
      var matches := JournalMatchesWal(c, journal, entries, faults.compare);
      if matches {
        return true;
      }
    }
    var reset := journal.Reset(faults.reset);
    if !reset {
      return false;
    }
    for i := 0 to |entries|
      invariant Replayed(c, entries, i, faults.apply) == (journal.View(), true)
      invariant journal.state.Some?
    {
      var entry := entries[i];
      var outcome := OutcomeForBatch(journal.state.value, entry.frame, c);
      ghost var before := journal.View();
      var stored := journal.Apply(entry, outcome, faults.apply(i));
      if stored.None? {
        assert Replayed(c, entries, i + 1, faults.apply) == (journal.View(), false);
        ReplayStops(c, entries, i + 1, |entries|, faults.apply);
        return false;
      }
      AppliedState(before, entry, outcome);
    }
    return true;
  }

  lemma AppliedState(t: Tables, e: W.Entry, o: Outcome)
    ensures ApplyTo(t, e, o).Some? ==> ApplyTo(t, e, o).value.state.Some?
  {
  }

  lemma TablesExtend(c: IngestConfig, entries: seq<W.Entry>, k: nat)
    requires 0 < k <= |entries|
    ensures var before := TablesOf(c, entries[..k - 1]);
            var next := ApplyTo(before, entries[k - 1], OutcomeFor(before.state.value, entries[k - 1].frame, c));
            next.Some? ==> next.value == TablesOf(c, entries[..k])
  {
    hide OutcomeFor;
    assert entries[..k][..k - 1] == entries[..k - 1];
  }

  lemma UniqueExtend(c: IngestConfig, entries: seq<W.Entry>, k: nat)
    requires 0 < k <= |entries| && UniqueIds(entries[..k - 1])
    ensures KeyOf(entries[k - 1].frame) !in FoldRows(c, entries[..k - 1]) <==> UniqueIds(entries[..k])
  {
    hide RowAt;
    var before, ks := Keys(entries[..k - 1]), Keys(entries[..k]);
    FoldKeys(c, entries[..k - 1]);
    assert ks == before + [KeyOf(entries[k - 1].frame)];
    forall i | 0 <= i < |before| && before[i] == ks[k - 1] ensures ks[i] == ks[k - 1] {
    }
  }

  /** A replay leaves the fold of exactly the entries it got through, which it has found distinct and storable. */
  lemma {:induction false} ReplayIsFold(c: IngestConfig, entries: seq<W.Entry>, k: nat, faults: nat -> bool) returns (m: nat)
    requires k <= |entries|
    ensures m <= k && (Replayed(c, entries, k, faults).1 <==> m == k)
    ensures Replayed(c, entries, k, faults).0 == TablesOf(c, entries[..m])
    ensures UniqueIds(entries[..m]) && AllStorable(entries[..m])
  {
    hide OutcomeFor, TablesOf, UniqueIds;
    if k == 0 {
      m := 0;
      EmptyFold(c, entries[..0]);
    } else {
      m := ReplayIsFold(c, entries, k - 1, faults);
      if m == k - 1 {
        FoldHasState(c, entries[..m]);
        var t := TablesOf(c, entries[..m]);
        var next := ApplyTo(t, entries[m], OutcomeFor(t.state.value, entries[m].frame, c));
        if !faults(m) && next.Some? {
          TablesExtend(c, entries, k);
          UniqueExtend(c, entries, k);
          assert KeyOf(entries[m].frame) !in FoldRows(c, entries[..m]) by { FoldHasState(c, entries[..m]); }
          m := k;
        }
      }
    }
  }

  lemma EmptyFold(c: IngestConfig, none: seq<W.Entry>)
    requires none == []
    ensures TablesOf(c, none) == EmptyTables(c) && UniqueIds(none)
  {
  }

  lemma FoldHasState(c: IngestConfig, entries: seq<W.Entry>)
    ensures TablesOf(c, entries).state == Some(FoldState(c, entries))
    ensures TablesOf(c, entries).rows == FoldRows(c, entries)
  {
  }

  lemma {:induction false} FoldSequences(c: IngestConfig, entries: seq<W.Entry>)
    requires W.Linked(entries)
    ensures forall key :: key in FoldRows(c, entries) ==>
                            FoldRows(c, entries)[key].Some? && FoldRows(c, entries)[key].value.ingestSequence <= |entries|
  {
    hide OutcomeFor;
    if entries != [] {
      FoldSequences(c, entries[..|entries| - 1]);
    }
  }

  lemma {:induction false} LinkedPrefix(entries: seq<W.Entry>, n: nat)
    requires W.Linked(entries) && n <= |entries|
    ensures W.Linked(entries[..n])
  {
    if n < |entries| {
      LinkedPrefix(entries[..|entries| - 1], n);
      assert entries[..|entries| - 1][..n] == entries[..n];
    } else {
      assert entries[..n] == entries;
    }
  }

  lemma {:induction false} ReplaySucceeds(c: IngestConfig, entries: seq<W.Entry>, k: nat, faults: nat -> bool)
    requires k <= |entries| && W.Linked(entries) && UniqueIds(entries) && AllStorable(entries)
    requires forall i :: 0 <= i < k ==> !faults(i)
    ensures Replayed(c, entries, k, faults).1
  {
    hide OutcomeFor, W.Linked, UniqueIds, RowAt;
    if k > 0 {
      ReplaySucceeds(c, entries, k - 1, faults);
      var m := ReplayIsFold(c, entries, k - 1, faults);
      var before := entries[..k - 1];
      UniquePrefix(entries, k - 1);
      UniquePrefix(entries, k);
      UniqueExtend(c, entries, k);
      LinkedPrefix(entries, k - 1);
      W.LinkedAt(entries, k - 1);
      FoldSequences(c, before);
    }
  }

  /** Rows that name distinct WAL positions belong to distinct batches. */
  lemma MatchedKeysDistinct(c: IngestConfig, entries: seq<W.Entry>, t: Tables)
    requires W.Linked(entries) && Matches(c, entries, t)
    ensures UniqueIds(entries) && AllStorable(entries)
  {
    hide OutcomeFor, W.Linked;
    forall i | 0 <= i < |entries| ensures Storable(entries[i]) {
      W.LinkedAt(entries, i);
      assert RowMatches(c, entries, t, i);
    }
    forall i, j | 0 <= i < |entries| && 0 <= j < |entries| && Keys(entries)[i] == Keys(entries)[j] ensures i == j {
      W.LinkedAt(entries, i);
      W.LinkedAt(entries, j);
      assert RowMatches(c, entries, t, i) && RowMatches(c, entries, t, j);
    }
  }

  /**
   The shortcut is sound: as many rows as entries, and every entry's own row among them, leaves no room
   for a row that the WAL does not account for.
   */
  lemma MatchingTablesAreTheFold(c: IngestConfig, entries: seq<W.Entry>, t: Tables)
    requires W.Linked(entries) && Matches(c, entries, t) && |t.rows| == |entries|
    ensures t == TablesOf(c, entries)
  {
    hide OutcomeFor, W.Linked, FoldRows, RowAt;
    MatchedKeysDistinct(c, entries, t);
    var keys := Elements(Keys(entries));
    forall key | key in keys ensures key in t.rows && key in FoldRows(c, entries) && t.rows[key] == FoldRows(c, entries)[key] {
      var i :| 0 <= i < |entries| && Keys(entries)[i] == key;
      assert RowMatches(c, entries, t, i);
      FoldRowsAt(c, entries, i);
    }
    DistinctSize(Keys(entries));
    SubsetSize(keys, t.rows.Keys);
    FoldKeys(c, entries);
    assert t.rows == FoldRows(c, entries);
  }

  /**
   Whatever the tables held before, a successful reconciliation leaves exactly the fold of the WAL:
   every entry's row, no other row, and the cursor state that the entries lead to.
   */
  lemma SuccessfulReconcileIsTheFold(c: IngestConfig, entries: seq<W.Entry>, t: Tables, f: Faults)
    requires W.Linked(entries) && Reconciled(c, entries, t, f).1
    ensures Reconciled(c, entries, t, f).0 == TablesOf(c, entries)
    ensures UniqueIds(entries) && AllStorable(entries)
  {
    hide OutcomeFor, W.Linked, TablesOf, Matches, UniqueIds, AllStorable, Replayed;
    if |t.rows| == |entries| && Matches(c, entries, t) && AllRead(f.compare, |entries|) {
      MatchingTablesAreTheFold(c, entries, t);
      MatchedKeysDistinct(c, entries, t);
    } else {
      var m := ReplayIsFold(c, entries, |entries|, f.apply);
      assert entries[..m] == entries;
    }
  }

  /** A failed reconciliation leaves the tables alone, or the fold of some prefix of the WAL. */
  lemma FailedReconcile(c: IngestConfig, entries: seq<W.Entry>, t: Tables, f: Faults) returns (m: nat)
    requires !Reconciled(c, entries, t, f).1
    ensures m <= |entries| && UniqueIds(entries[..m]) && AllStorable(entries[..m])
    ensures var r := Reconciled(c, entries, t, f).0; r == t || r == TablesOf(c, entries[..m])
  {
    hide OutcomeFor, TablesOf, Matches, Replayed;
    m := ReplayIsFold(c, entries, |entries|, f.apply);
  }

  /**
   Without database faults, reconciliation succeeds exactly when the journal has no more rows than the
   WAL has entries, no batch identity repeats in the WAL, and every number fits a SQLite integer.
   */
  lemma ReconcileSucceedsIff(c: IngestConfig, entries: seq<W.Entry>, t: Tables, f: Faults)
    requires W.Linked(entries) && NoFaults(f, |entries|)
    ensures Reconciled(c, entries, t, f).1 <==> |t.rows| <= |entries| && UniqueIds(entries) && AllStorable(entries)
  {
    hide OutcomeFor, W.Linked, TablesOf, Matches, UniqueIds, AllStorable, Replayed;
    if Reconciled(c, entries, t, f).1 {
      SuccessfulReconcileIsTheFold(c, entries, t, f);
    } else if |t.rows| <= |entries| && UniqueIds(entries) && AllStorable(entries) {
      ReplaySucceeds(c, entries, |entries|, f.apply);
    }
  }
}
