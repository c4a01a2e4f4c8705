/** The answer to a batch does not change when the batch is sent again. */
module GatewayReplay {
  import opened Protocol
  import opened Digests
  import opened Counting
  import opened Cursor
  import opened Journal
  import opened Reconcile
  import opened Gateway
  import opened GatewaySafety
  import W = Wal

  /** `a` carries the answer that the WAL up to its own entry determines, or repeats it as a duplicate. */
  predicate StableAt(c: IngestConfig, entries: seq<W.Entry>, a: Ack, i: int) {
    && 0 <= i < |entries|
    && a == AckFrom(RowAt(c, entries, i), a.status)
    && (a.status == Duplicate || a.status == RowAt(c, entries, i).status)
  }

  ghost predicate StableAck(c: IngestConfig, entries: seq<W.Entry>, a: Ack) {
    exists i :: StableAt(c, entries, a, i)
  }

  predicate DeterminedAt(c: IngestConfig, entries: seq<W.Entry>, key: RowKey, row: Option<Row>, i: int) {
    0 <= i < |entries| && KeyOf(entries[i].frame) == key && row == Some(RowAt(c, entries, i))
  }

  ghost predicate Determined(c: IngestConfig, entries: seq<W.Entry>, key: RowKey, row: Option<Row>) {
    exists i :: DeterminedAt(c, entries, key, row, i)
  }

  /**
   Every row of the journal is the one that the WAL determines, though rows may be missing. If none is missing,
   the state answers as the WAL determines too.
   */
  ghost predicate JournalAgrees(c: IngestConfig, entries: seq<W.Entry>, t: Tables) {
    && (forall key :: key in t.rows ==> Determined(c, entries, key, t.rows[key]))
    && (|t.rows| == |entries| ==> t.state.Some? && SameCursor(t.state.value, FoldState(c, entries)))
  }

  predicate BatchesFit(entries: seq<W.Entry>) {
    forall i :: 0 <= i < |entries| ==> FitsSqlite(entries[i].frame.batchSequence)
  }

  ghost predicate Stable(c: GatewayConfig, g: State) {
    && Safe(g)
    && BatchesFit(OnDisk(g.wal))
    && (g.serving ==> JournalAgrees(c.ingest, g.wal.entries, g.journal))
    && (forall k :: 0 <= k < |g.acks| ==> StableAck(c.ingest, g.wal.entries, g.acks[k]))
  }

  /** The state of a journal that is in use answers from the cursor on, within the configured sizes. */
  predicate InUseSettled(c: GatewayConfig, g: State) {
    g.serving ==> g.journal.state.Some? && Settled(c.ingest, g.journal.state.value)
  }

  lemma StableAckGrows(c: IngestConfig, entries: seq<W.Entry>, more: seq<W.Entry>, a: Ack)
    requires entries <= more && StableAck(c, entries, a)
    ensures StableAck(c, more, a)
  {
    hide RowAt;
    var i :| StableAt(c, entries, a, i);
    assert more[..|entries|] == entries;
    RowAtPrefix(c, more, |entries|, i);
    assert StableAt(c, more, a, i);
  }

  lemma StableAcksGrow(c: IngestConfig, entries: seq<W.Entry>, more: seq<W.Entry>, acks: seq<Ack>)
    requires entries <= more && forall k :: 0 <= k < |acks| ==> StableAck(c, entries, acks[k])
    ensures forall k :: 0 <= k < |acks| ==> StableAck(c, more, acks[k])
  {
    hide StableAck;
    forall k | 0 <= k < |acks| ensures StableAck(c, more, acks[k]) {
      StableAckGrows(c, entries, more, acks[k]);
    }
  }

  lemma DeterminedGrows(c: IngestConfig, entries: seq<W.Entry>, more: seq<W.Entry>, key: RowKey, row: Option<Row>)
    requires entries <= more && Determined(c, entries, key, row)
    ensures Determined(c, more, key, row)
  {
    hide RowAt;
    var i :| DeterminedAt(c, entries, key, row, i);
    assert more[..|entries|] == entries;
    RowAtPrefix(c, more, |entries|, i);
    assert DeterminedAt(c, more, key, row, i);
  }

  /** There are no more rows than entries. */
  lemma RowsAreFew(c: IngestConfig, entries: seq<W.Entry>, t: Tables)
    requires UniqueIds(entries) && JournalAgrees(c, entries, t)
    ensures |t.rows| <= |entries|
  {
    hide RowAt, FoldState;
    forall key | key in t.rows ensures key in Elements(Keys(entries)) {
      assert Determined(c, entries, key, t.rows[key]);
      var i :| DeterminedAt(c, entries, key, t.rows[key], i);
      assert Keys(entries)[i] == key;
    }
    DistinctSize(Keys(entries));
    SubsetSize(t.rows.Keys, Elements(Keys(entries)));
  }

  /** The WAL grows and the journal does not: its rows still agree, and one is missing. */
  lemma AgreesGrows(c: IngestConfig, entries: seq<W.Entry>, more: seq<W.Entry>, t: Tables)
    requires entries <= more && JournalAgrees(c, entries, t) && UniqueIds(entries)
    ensures JournalAgrees(c, more, t)
  {
    hide Determined, FoldState;
    forall key | key in t.rows ensures Determined(c, more, key, t.rows[key]) {
      DeterminedGrows(c, entries, more, key, t.rows[key]);
    }
    RowsAreFew(c, entries, t);
    if |entries| == |more| {
      assert entries == more;
    }
  }

  lemma FoldAgrees(c: IngestConfig, entries: seq<W.Entry>, m: nat)
    requires m <= |entries| && UniqueIds(entries[..m])
    ensures JournalAgrees(c, entries, TablesOf(c, entries[..m]))
  {
    hide RowAt, FoldRows, UniqueIds, FoldState;
    var t := TablesOf(c, entries[..m]);
    FoldKeys(c, entries[..m]);
    FoldSize(c, entries[..m]);
    forall key | key in t.rows ensures Determined(c, entries, key, t.rows[key]) {
      var i :| 0 <= i < m && Keys(entries[..m])[i] == key;
      FoldRowsAt(c, entries[..m], i);
      RowAtPrefix(c, entries, m, i);
      assert DeterminedAt(c, entries, key, t.rows[key], i);
    }
    if m == |entries| {
      assert entries[..m] == entries;
    }
  }

  /** A row of the journal is the row of its WAL entry. */
  lemma StoredRow(c: IngestConfig, entries: seq<W.Entry>, t: Tables, key: RowKey, row: Row) returns (i: nat)
    requires JournalAgrees(c, entries, t) && LookupIn(t, key) == Present(row)
    ensures i < |entries| && KeyOf(entries[i].frame) == key && row == RowAt(c, entries, i)
  {
    hide RowAt, FoldState;
    assert Determined(c, entries, key, t.rows[key]);
    i :| DeterminedAt(c, entries, key, t.rows[key], i);
  }

  lemma AnswerStoredIsStable(c: GatewayConfig, g: State, b: BatchFrame, row: Row)
    requires Stable(c, g) && g.serving && LookupIn(g.journal, KeyOf(b)) == Present(row)
    ensures Stable(c, AnswerStored(g, b, row).0)
  {
    hide RowAt, JournalAgrees, Safe, LookupIn;
    assert Safe(g) && WalSafe(g.wal) && JournalSound(g.wal.entries, g.journal) by { SafeParts(g); }
    var i := StoredRow(c.ingest, g.wal.entries, g.journal, KeyOf(b), row);
    LookupIsSound(g.wal.entries, g.journal, KeyOf(b), false);
    AnswerStoredIsSafe(g, b, row);
    if row.hash == BatchHash(b) {
      assert StableAt(c.ingest, g.wal.entries, AckFrom(row, Duplicate), i);
    }
  }

  lemma SafeParts(g: State)
    requires Safe(g)
    ensures WalSafe(g.wal) && (g.serving ==> JournalSound(g.wal.entries, g.journal))
  {
  }

  lemma RebuiltIsStable(c: GatewayConfig, g: State, f: Faults)
    requires Stable(c, g) && g.serving
    ensures Stable(c, g.(journal := Reconciled(c.ingest, g.wal.entries, g.journal, f).0))
  {
    hide Reconciled, Safe, JournalAgrees, StableAck, TablesOf, UniqueIds;
    SafeParts(g);
    LinkedEntries(g.wal);
    RebuiltIsSafe(c, g, f);
    ReconciledAgrees(c.ingest, g.wal.entries, g.journal, f);
  }

  lemma ReconciledAgrees(c: IngestConfig, entries: seq<W.Entry>, t: Tables, f: Faults)
    requires W.Linked(entries) && (JournalAgrees(c, entries, t) || Reconciled(c, entries, t, f).1)
    ensures JournalAgrees(c, entries, Reconciled(c, entries, t, f).0)
  {
    hide Reconciled, JournalAgrees, TablesOf, UniqueIds, W.Linked;
    if Reconciled(c, entries, t, f).1 {
      SuccessfulReconcileIsTheFold(c, entries, t, f);
      assert entries[..|entries|] == entries;
      FoldAgrees(c, entries, |entries|);
    } else {
      var m := FailedReconcile(c, entries, t, f);
      FoldAgrees(c, entries, m);
    }
  }

  /** A batch answered as the WAL determines gets the row that the WAL determines, whatever state it is answered from. */
  lemma FreshRow(c: IngestConfig, w: W.State, t: Tables, e: W.Entry, o: Outcome)
    requires WalSafe(w) && JournalAgrees(c, w.entries, t) && UniqueIds(w.entries + [e])
    requires o == OutcomeFor(FoldState(c, w.entries), e.frame, c)
    ensures RowFor(e, o) == RowAt(c, w.entries + [e], |w.entries|)
    ensures ApplyTo(t, e, o).Some? ==> JournalAgrees(c, w.entries + [e], ApplyTo(t, e, o).value)
  {
    hide OutcomeFor, FoldRows, UniqueIds;
    var n, more := |w.entries|, w.entries + [e];
    assert more[..n] == w.entries;
    var next := ApplyTo(t, e, o);
    if next.Some? {
      forall key | key in next.value.rows ensures Determined(c, more, key, next.value.rows[key]) {
        if key == KeyOf(e.frame) {
          assert DeterminedAt(c, more, key, next.value.rows[key], n);
        } else {
          DeterminedGrows(c, w.entries, more, key, t.rows[key]);
        }
      }
      assert |next.value.rows| == |t.rows| + 1;
    }
  }

  /** The journal answers the batch as the WAL determines. */
  predicate Agrees(c: GatewayConfig, g: State, b: BatchFrame) {
    g.journal.state.Some? &&
    OutcomeFor(g.journal.state.value, b, c.ingest) == OutcomeFor(FoldState(c.ingest, g.wal.entries), b, c.ingest)
  }

  /** What a new batch may change: the WAL gains its entry, then the journal its row, then the ACK is given. */
  lemma AcceptNewShape(c: GatewayConfig, g: State, b: BatchFrame, generation: U64, env: Env)
    requires g.journal.state.Some? && (g.wal.unsynced.Some? ==> g.wal.poisoned)
    ensures var h := AcceptNew(c, g, b, generation, env).0;
            var e := W.NextEntry(g.wal.entries, b, env.wallS, env.monotonicUs);
            var o := OutcomeFor(g.journal.state.value, b, c.ingest);
            && (OnDisk(h.wal) == OnDisk(g.wal) || OnDisk(h.wal) == g.wal.entries + [e])
            && (|| (h.wal.entries == g.wal.entries && h.journal == g.journal && h.acks == g.acks)
                || (h.wal.entries == g.wal.entries + [e] && !g.wal.poisoned
                    && (|| (h.journal == g.journal && h.acks == g.acks)
                        || (ApplyTo(g.journal, e, o) == Some(h.journal) && h.journal != g.journal
                            && (h.acks == g.acks || h.acks == g.acks + [AckFrom(RowFor(e, o), o.status)])))))
  {
    hide OutcomeFor, W.NextEntry, ApplyTo, ReadyForAck, Committed;
    var e := W.NextEntry(g.wal.entries, b, env.wallS, env.monotonicUs);
    var o := OutcomeFor(g.journal.state.value, b, c.ingest);
    var logged := g.(wal := g.wal.(entries := g.wal.entries + [e]), writers := g.writers + [Writer(g.boot, generation)]);
    CommittedShape(c, logged, b, e, o, env);
  }

  lemma CommittedShape(c: GatewayConfig, g: State, b: BatchFrame, e: W.Entry, o: Outcome, env: Env)
    ensures var h := Committed(c, g, b, e, o, env).0;
            && h.wal == g.wal
            && (|| (h.journal == g.journal && h.acks == g.acks)
                || (ApplyTo(g.journal, e, o) == Some(h.journal) && h.journal != g.journal
                    && (h.acks == g.acks || h.acks == g.acks + [AckFrom(RowFor(e, o), o.status)])))
  {
    hide ApplyTo, ReadyForAck, RowFor;
    ApplyChanges(g.journal, e, o);
  }

  lemma ApplyChanges(t: Tables, e: W.Entry, o: Outcome)
    ensures ApplyTo(t, e, o).Some? ==>
              var next := ApplyTo(t, e, o).value;
              next != t && |next.rows| == |t.rows| + 1 && KeyOf(e.frame) in next.rows && next.rows[KeyOf(e.frame)] == Some(RowFor(e, o))
              && next.state == Some(StateFor(t.state.value, e, o))
  {
    if ApplyTo(t, e, o).Some? {
      assert KeyOf(e.frame) in ApplyTo(t, e, o).value.rows && KeyOf(e.frame) !in t.rows;
    }
  }

  lemma FitAppend(entries: seq<W.Entry>, e: W.Entry)
    requires BatchesFit(entries) && FitsSqlite(e.frame.batchSequence)
    ensures BatchesFit(entries + [e])
  {
  }

  lemma AcceptNewIsStable(c: GatewayConfig, g: State, b: BatchFrame, generation: U64, env: Env)
    requires Stable(c, g) && g.serving && IndexOf(g.wal.entries, KeyOf(b)) < 0 && FitsSqlite(b.batchSequence)
    requires AcceptNew(c, g, b, generation, env).0.journal != g.journal ==> Agrees(c, g, b)
    ensures Stable(c, AcceptNew(c, g, b, generation, env).0)
  {
    hide AcceptNew, OutcomeFor, W.NextEntry, IndexOf, Safe, JournalAgrees, ApplyTo, FoldState, RowAt, UniqueIds, BatchesFit;
    AcceptNewIsSafe(c, g, b, generation, env);
    SafeParts(g);
    LinkedEntries(g.wal);
    var e := W.NextEntry(g.wal.entries, b, env.wallS, env.monotonicUs);
    NextFrame(g.wal.entries, b, env.wallS, env.monotonicUs);
    var more := g.wal.entries + [e];
    FitAppend(g.wal.entries, e) by { FitPrefix(g.wal); }
    UniqueAppendWal(g.wal, e);
    AgreesGrows(c.ingest, g.wal.entries, more, g.journal);
    StableAcksGrow(c.ingest, g.wal.entries, more, g.acks);
    AcceptNewShape(c, g, b, generation, env);
    var h := AcceptNew(c, g, b, generation, env).0;
    var o := OutcomeFor(g.journal.state.value, b, c.ingest);
    if h.journal != g.journal {
      FreshRow(c.ingest, g.wal, g.journal, e, o);
      assert RowFor(e, o).status == o.status;
      assert StableAt(c.ingest, more, AckFrom(RowFor(e, o), o.status), |g.wal.entries|);
    }
  }

  lemma FitPrefix(w: W.State)
    requires BatchesFit(OnDisk(w))
    ensures BatchesFit(w.entries)
  {
    assert forall i :: 0 <= i < |w.entries| ==> OnDisk(w)[i] == w.entries[i];
  }

  lemma UniqueAppendWal(w: W.State, e: W.Entry)
    requires WalSafe(w) && IndexOf(w.entries, KeyOf(e.frame)) < 0
    ensures UniqueIds(w.entries + [e])
  {
    LinkedEntries(w);
    UniqueAppend(w.entries, e);
  }

  lemma AcceptUnindexedIsStable(c: GatewayConfig, g: State, b: BatchFrame, generation: U64, env: Env)
    requires Stable(c, g) && g.serving && FitsSqlite(b.batchSequence)
    requires IndexOf(g.wal.entries, KeyOf(b)) < 0 && AcceptNew(c, g, b, generation, env).0.journal != g.journal ==> Agrees(c, g, b)
    ensures Stable(c, AcceptUnindexed(c, g, b, generation, env).0)
  {
    hide Reconciled, Stable, AcceptNew, IndexOf, RowAt, LookupIn, AnswerStored;
    var i := IndexOf(g.wal.entries, KeyOf(b));
    if i < 0 {
      AcceptNewIsStable(c, g, b, generation, env);
    } else if g.wal.entries[i].batchHash == BatchHash(b) {
      RebuiltIsStable(c, g, env.faults);
      var (journal, ok) := Reconciled(c.ingest, g.wal.entries, g.journal, env.faults);
      if ok {
        StableParts(c, g);
        RebuiltHasRow(c.ingest, g.wal, g.journal, env.faults, i);
        if !env.readFails(1) {
          AnswerStoredIsStable(c, g.(journal := journal), b, RowAt(c.ingest, g.wal.entries, i));
        }
      }
    }
  }

  lemma StableParts(c: GatewayConfig, g: State)
    requires Stable(c, g)
    ensures Safe(g) && WalSafe(g.wal) && BatchesFit(OnDisk(g.wal))
    ensures g.serving ==> JournalAgrees(c.ingest, g.wal.entries, g.journal)
  {
  }

  /**
   A batch that the WAL does not know is answered as the WAL determines, if its answer becomes a row of the
   journal at all.
   */
  ghost predicate Agreeing(c: GatewayConfig, g: State, e: Event) {
    e.Send? && IndexOf(g.wal.entries, KeyOf(e.frame)) < 0 && Next(c, g, e).journal != g.journal ==>
      g.journal.state.Some? && AnswersAgree(c.ingest, g.journal.state.value, FoldState(c.ingest, g.wal.entries), e.frame)
  }

  lemma {:induction false} FoldSettles(c: IngestConfig, entries: seq<W.Entry>)
    requires ConfigValid(c)
    ensures Settled(c, FoldState(c, entries))
  {
    hide OutcomeFor;
    if entries != [] {
      FoldSettles(c, entries[..|entries| - 1]);
      OutcomeSettles(c, FoldState(c, entries[..|entries| - 1]), entries[|entries| - 1].frame);
    }
  }

  lemma AgreeingMeans(c: GatewayConfig, g: State, b: BatchFrame)
    requires ConfigValid(c.ingest) && InUseSettled(c, g) && g.serving
    ensures Agrees(c, g, b) <==> AnswersAgree(c.ingest, g.journal.state.value, FoldState(c.ingest, g.wal.entries), b)
  {
    hide OutcomeFor, AnswersAgree, FoldState;
    FoldSettles(c.ingest, g.wal.entries);
    SameOutcomeIff(c.ingest, g.journal.state.value, FoldState(c.ingest, g.wal.entries), b);
  }

  lemma AcceptIsStable(c: GatewayConfig, g: State, b: BatchFrame, session: Text, lease: Text, generation: Granted, env: Env)
    requires ConfigValid(c.ingest) && InUseSettled(c, g) && Stable(c, g) && Agreeing(c, g, Send(b, session, lease, generation, env))
    ensures Stable(c, Accept(c, g, b, session, lease, generation, env).0)
  {
    hide Stable, AcceptNew, AnswerStored, IndexOf, AnswersAgree, Agrees, FoldState, Settled, Reconciled;
    if SessionActive(g, lease, generation, env.now) {
      AgreeingMeans(c, g, b);
      if LookupIn(g.journal, KeyOf(b)).Present? {
        AnswerStoredIsStable(c, g, b, LookupIn(g.journal, KeyOf(b)).row);
      } else if LookupIn(g.journal, KeyOf(b)).Absent? {
        if !env.readFails(0) && |b.records| <= c.ingest.maxRecords && b.requestedCount <= c.ingest.maximumBatchCount
           && b.sessionId == session && b.leaseId == lease {
          AcceptUnindexedIsStable(c, g, b, generation, env);
        }
      }
    }
  }

  lemma CrashIsStable(c: GatewayConfig, g: State, survives: bool)
    requires Stable(c, g)
    ensures Stable(c, Crash(g, survives))
  {
    hide Safe, StableAck, JournalAgrees;
    CrashIsSafe(g, survives);
    var after := OnDisk(W.Reopened(g.wal, survives));
    forall i | 0 <= i < |after| ensures FitsSqlite(after[i].frame.batchSequence) {
      assert after[i] == OnDisk(g.wal)[i];
    }
    StableAcksGrow(c.ingest, g.wal.entries, W.Reopened(g.wal, survives).entries, g.acks);
  }

  lemma RecoverIsStable(c: GatewayConfig, g: State, f: Faults)
    requires Stable(c, g)
    ensures Stable(c, Recover(c, g, f))
  {
    hide Safe, StableAck, JournalAgrees, Reconciled;
    RecoverIsSafe(c, g, f);
    if !g.serving && Reconciled(c.ingest, g.wal.entries, g.journal, f).1 {
      SafeParts(g);
      LinkedEntries(g.wal);
      ReconciledAgrees(c.ingest, g.wal.entries, g.journal, f);
    }
  }

  lemma NextIsStable(c: GatewayConfig, g: State, e: Event)
    requires ConfigValid(c.ingest) && InUseSettled(c, g) && Stable(c, g) && Agreeing(c, g, e)
    ensures Stable(c, Next(c, g, e))
  {
    hide Safe, StableAck, JournalAgrees, Accept, Crash, Recover, HelloValid, IndexOf, AnswersAgree, Settled, FoldState;
    match e
    case Send(b, session, lease, generation, env) => AcceptIsStable(c, g, b, session, lease, generation, env);
    case Restart(survives) => CrashIsStable(c, g, survives);
    case RecoverJournal(faults) => RecoverIsStable(c, g, faults);
    case _ => NextIsSafe(c, g, e);
  }

  // ---- The journal's state stays settled ----

  lemma ReconciledSettles(c: IngestConfig, entries: seq<W.Entry>, t: Tables, f: Faults)
    requires ConfigValid(c) && W.Linked(entries)
    requires Reconciled(c, entries, t, f).1 || (t.state.Some? && Settled(c, t.state.value))
    ensures var u := Reconciled(c, entries, t, f).0; u.state.Some? && Settled(c, u.state.value)
  {
    hide Reconciled, FoldRows, FoldState, W.Linked, UniqueIds, Settled;
    if Reconciled(c, entries, t, f).1 {
      SuccessfulReconcileIsTheFold(c, entries, t, f);
      FoldSettles(c, entries);
    } else {
      var m := FailedReconcile(c, entries, t, f);
      FoldSettles(c, entries[..m]);
    }
  }

  lemma AcceptNewSettles(c: GatewayConfig, g: State, b: BatchFrame, generation: U64, env: Env)
    requires ConfigValid(c.ingest) && Safe(g) && g.serving && InUseSettled(c, g)
    ensures InUseSettled(c, AcceptNew(c, g, b, generation, env).0)
  {
    hide AcceptNew, OutcomeFor, W.NextEntry, Safe, ApplyTo, ConfigValid, Settled;
    SafeParts(g);
    AcceptNewShape(c, g, b, generation, env);
    var e := W.NextEntry(g.wal.entries, b, env.wallS, env.monotonicUs);
    var s := g.journal.state.value;
    var o := OutcomeFor(s, b, c.ingest);
    OutcomeSettles(c.ingest, s, b);
    ApplyChanges(g.journal, e, o);
    assert Settled(c.ingest, StateFor(s, e, o)) by {
      assert Settled(c.ingest, Commit(s, o));
      StateForSettles(c.ingest, s, e, o);
    }
  }

  lemma StateForSettles(c: IngestConfig, s: CursorState, e: W.Entry, o: Outcome)
    requires Settled(c, Commit(s, o))
    ensures Settled(c, StateFor(s, e, o))
  {
  }

  lemma AcceptSettles(c: GatewayConfig, g: State, b: BatchFrame, session: Text, lease: Text, generation: Granted, env: Env)
    requires ConfigValid(c.ingest) && Safe(g) && InUseSettled(c, g)
    ensures InUseSettled(c, Accept(c, g, b, session, lease, generation, env).0)
  {
    hide AcceptNew, AnswerStored, IndexOf, LookupIn, Reconciled, Safe, Settled, ConfigValid;
    if SessionActive(g, lease, generation, env.now) {
      SafeParts(g);
      LinkedEntries(g.wal);
      AcceptNewSettles(c, g, b, generation, env);
      RebuiltIsSafe(c, g, env.faults);
      ReconciledSettles(c.ingest, g.wal.entries, g.journal, env.faults);
      var rebuilt := g.(journal := Reconciled(c.ingest, g.wal.entries, g.journal, env.faults).0);
      AcceptNewSettles(c, rebuilt, b, generation, env);
      StoredKeeps(g, b);
      StoredKeeps(rebuilt, b);
    }
  }

  lemma StoredKeeps(g: State, b: BatchFrame)
    ensures forall row :: var h := AnswerStored(g, b, row).0; h.journal == g.journal && h.serving == g.serving
  {
  }

  lemma {:induction false} RunIsSettled(c: GatewayConfig, journal: Tables, events: seq<Event>)
    requires ConfigValid(c.ingest)
    ensures InUseSettled(c, Run(c, journal, events))
  {
    hide Accept, HelloValid, Safe, Reconciled, Settled, ConfigValid;
    if events != [] {
      var before, e := events[..|events| - 1], events[|events| - 1];
      RunIsSettled(c, journal, before);
      RunIsSafe(c, journal, before);
      var g := Run(c, journal, before);
      match e
      case Send(b, session, lease, generation, env) => AcceptSettles(c, g, b, session, lease, generation, env);
      case RecoverJournal(faults) =>
        SafeParts(g);
        LinkedEntries(g.wal);
        if Reconciled(c.ingest, g.wal.entries, g.journal, faults).1 {
          ReconciledSettles(c.ingest, g.wal.entries, g.journal, faults);
        }
      case _ =>
    }
  }

  // ---- Runs ----

  /** Every event of the run is agreeing in the state it meets. */
  ghost predicate AgreeingRun(c: GatewayConfig, journal: Tables, events: seq<Event>) {
    events == [] ||
    var before := events[..|events| - 1];
    AgreeingRun(c, journal, before) && Agreeing(c, Run(c, journal, before), events[|events| - 1])
  }

  /** So far every row of a journal in use, and every ACK, has been the one that the WAL determines. */
  ghost predicate StableRun(c: GatewayConfig, journal: Tables, events: seq<Event>) {
    Stable(c, Run(c, journal, events)) && (events == [] || StableRun(c, journal, events[..|events| - 1]))
  }

  lemma InitialIsStable(c: GatewayConfig, journal: Tables)
    ensures Stable(c, Initial(journal))
  {
    InitialIsSafe(journal);
  }

  /**
   Over a whole run the journal in use and the ACKs are what the WAL determines if and only if every new batch
   whose answer became a row was answered in a state that agrees, for this batch, with the WAL.
   */
  lemma {:induction false} RunIsStableIff(c: GatewayConfig, journal: Tables, events: seq<Event>)
    requires ConfigValid(c.ingest)
    ensures StableRun(c, journal, events) <==> AgreeingRun(c, journal, events)
  {
    hide Stable, Next, Agreeing, ConfigValid, InUseSettled;
    if events == [] {
      InitialIsStable(c, journal);
    } else {
      var before, e := events[..|events| - 1], events[|events| - 1];
      RunIsStableIff(c, journal, before);
      RunIsSettled(c, journal, before);
      var g := Run(c, journal, before);
      if StableRun(c, journal, before) && Agreeing(c, g, e) {
        StableNow(c, journal, before);
        NextIsStable(c, g, e);
      } else if StableRun(c, journal, before) && Stable(c, Next(c, g, e)) {
        StableNow(c, journal, before);
        StableWasAgreeing(c, g, e);
      }
    }
  }

  lemma StableNow(c: GatewayConfig, journal: Tables, events: seq<Event>)
    requires StableRun(c, journal, events)
    ensures Stable(c, Run(c, journal, events))
  {
  }

  /** A new batch that was answered otherwise leaves a row that the WAL does not determine. */
  lemma StableWasAgreeing(c: GatewayConfig, g: State, e: Event)
    requires ConfigValid(c.ingest) && InUseSettled(c, g) && Stable(c, g) && Stable(c, Next(c, g, e))
    ensures Agreeing(c, g, e)
  {
    hide Stable, Accept, IndexOf, AnswersAgree, FoldState, Settled;
    if e.Send? && IndexOf(g.wal.entries, KeyOf(e.frame)) < 0 && Next(c, g, e).journal != g.journal {
      StableParts(c, g);
      NewRowShape(c, g, e.frame, e.session, e.lease, e.generation, e.env);
      var h := Next(c, g, e);
      var n := W.NextEntry(g.wal.entries, e.frame, e.env.wallS, e.env.monotonicUs);
      NextFrame(g.wal.entries, e.frame, e.env.wallS, e.env.monotonicUs);
      var o := OutcomeFor(g.journal.state.value, e.frame, c.ingest);
      StableParts(c, h);
      RowWasDetermined(c.ingest, g.wal, h.journal, n, o);
      AgreeingMeans(c, g, e.frame);
    }
  }

  lemma RowWasDetermined(c: IngestConfig, w: W.State, t: Tables, e: W.Entry, o: Outcome)
    requires WalSafe(w) && IndexOf(w.entries, KeyOf(e.frame)) < 0 && JournalAgrees(c, w.entries + [e], t)
    requires KeyOf(e.frame) in t.rows && t.rows[KeyOf(e.frame)] == Some(RowFor(e, o))
    ensures o == OutcomeFor(FoldState(c, w.entries), e.frame, c)
  {
    hide FoldState, OutcomeFor, UniqueIds, IndexOf;
    var n, more := |w.entries|, w.entries + [e];
    assert Determined(c, more, KeyOf(e.frame), t.rows[KeyOf(e.frame)]);
    var i :| DeterminedAt(c, more, KeyOf(e.frame), t.rows[KeyOf(e.frame)], i);
    UniqueAppendWal(w, e);
    SameKeySameEntry(more, i, n);
    assert more[..n] == w.entries;
  }

  /** A batch that the WAL does not know and that changes the journal has been logged and given a row. */
  lemma NewRowShape(c: GatewayConfig, g: State, b: BatchFrame, session: Text, lease: Text, generation: U64, env: Env)
    requires Safe(g) && IndexOf(g.wal.entries, KeyOf(b)) < 0
    requires Accept(c, g, b, session, lease, generation, env).0.journal != g.journal
    ensures g.serving && g.journal.state.Some?
    ensures var h := Accept(c, g, b, session, lease, generation, env).0;
            var e := W.NextEntry(g.wal.entries, b, env.wallS, env.monotonicUs);
            var o := OutcomeFor(g.journal.state.value, b, c.ingest);
            && h.serving && h.wal.entries == g.wal.entries + [e]
            && KeyOf(b) in h.journal.rows && h.journal.rows[KeyOf(b)] == Some(RowFor(e, o))
  {
    hide AcceptNew, AnswerStored, IndexOf, LookupIn, Safe, OutcomeFor, W.NextEntry, ApplyTo;
    SafeParts(g);
    StoredKeeps(g, b);
    AcceptNewShape(c, g, b, generation, env);
    AcceptNewServes(c, g, b, generation, env);
    var e := W.NextEntry(g.wal.entries, b, env.wallS, env.monotonicUs);
    NextFrame(g.wal.entries, b, env.wallS, env.monotonicUs);
    ApplyChanges(g.journal, e, OutcomeFor(g.journal.state.value, b, c.ingest));
  }

  lemma AcceptNewServes(c: GatewayConfig, g: State, b: BatchFrame, generation: U64, env: Env)
    ensures AcceptNew(c, g, b, generation, env).0.serving == g.serving
  {
    hide OutcomeFor, W.NextEntry, ApplyTo, ReadyForAck;
  }

  /**
   A batch that the WAL does not know is only sent while the journal has a row for every entry: after a failed
   journal insert, a reconciliation or a restart comes first.
   */
  predicate Careful(g: State, e: Event) {
    e.Send? && IndexOf(g.wal.entries, KeyOf(e.frame)) < 0 ==> |g.journal.rows| == |g.wal.entries|
  }

  ghost predicate CarefulRun(c: GatewayConfig, journal: Tables, events: seq<Event>) {
    events == [] ||
    var before := events[..|events| - 1];
    CarefulRun(c, journal, before) && Careful(Run(c, journal, before), events[|events| - 1])
  }

  /** It is enough to be careful. */
  lemma {:induction false} CarefulRunAgrees(c: GatewayConfig, journal: Tables, events: seq<Event>)
    requires ConfigValid(c.ingest) && CarefulRun(c, journal, events)
    ensures AgreeingRun(c, journal, events)
  {
    hide Stable, Accept, Careful, ConfigValid, IndexOf, AnswersAgree;
    if events != [] {
      var before, e := events[..|events| - 1], events[|events| - 1];
      CarefulRunAgrees(c, journal, before);
      RunIsStableIff(c, journal, before);
      StableNow(c, journal, before);
      CarefulAgrees(c, Run(c, journal, before), e);
    }
  }

  lemma CarefulAgrees(c: GatewayConfig, g: State, e: Event)
    requires Stable(c, g) && Careful(g, e)
    ensures Agreeing(c, g, e)
  {
    hide Accept, IndexOf, Safe, FoldState, StableAck;
    if e.Send? && IndexOf(g.wal.entries, KeyOf(e.frame)) < 0 && Next(c, g, e).journal != g.journal {
      NewRowShape(c, g, e.frame, e.session, e.lease, e.generation, e.env);
    }
  }

  /**
   Replay-stable ACKs: in an agreeing run any two durable ACKs for one batch agree on the ingest sequence,
   the cursor, the boundary digest and the next request, across crashes and rebuilds.
   */
  lemma AcksAgree(c: GatewayConfig, journal: Tables, events: seq<Event>, j: nat, k: nat)
    requires ConfigValid(c.ingest) && AgreeingRun(c, journal, events)
    requires var acks := Run(c, journal, events).acks;
             && j < |acks| && k < |acks|
             && acks[j].session == acks[k].session && acks[j].batchSequence == acks[k].batchSequence
    ensures var acks := Run(c, journal, events).acks;
            acks[j].(status := Duplicate) == acks[k].(status := Duplicate)
  {
    hide Run, AgreeingRun, Safe, JournalAgrees, UniqueIds, FoldState, OutcomeFor;
    RunIsStableIff(c, journal, events);
    StableNow(c, journal, events);
    var g := Run(c, journal, events);
    SafeParts(g);
    LinkedEntries(g.wal);
    assert StableAck(c.ingest, g.wal.entries, g.acks[j]) && StableAck(c.ingest, g.wal.entries, g.acks[k]);
    var m :| StableAt(c.ingest, g.wal.entries, g.acks[j], m);
    var n :| StableAt(c.ingest, g.wal.entries, g.acks[k], n);
    SameKeySameEntry(g.wal.entries, m, n);
  }

  lemma SameKeySameEntry(entries: seq<W.Entry>, m: nat, n: nat)
    requires UniqueIds(entries) && m < |entries| && n < |entries| && KeyOf(entries[m].frame) == KeyOf(entries[n].frame)
    ensures m == n
  {
    assert Keys(entries)[m] == Keys(entries)[n];
  }

  /** The environment that lets one request through: the session is live and the database answers. */
  predicate Undisturbed(g: State, b: BatchFrame, session: Text, lease: Text, generation: U64, env: Env) {
    && SessionActive(g, lease, generation, env.now)
    && b.sessionId == session && b.leaseId == lease
    && !env.readFails(0) && !env.readFails(1)
    && NoFaults(env.faults, |g.wal.entries|)
  }

  /**
   Re-sending: whenever a logged batch is sent again within the size limits, on a live session and with
   the database answering, the reply is DUPLICATE with exactly the answer the WAL determines for it.
   */
  lemma ResendIsDuplicate(c: GatewayConfig, g: State, i: nat, session: Text, lease: Text, generation: U64, env: Env)
    requires Stable(c, g) && i < |g.wal.entries| <= MAX_I64
    requires var b := g.wal.entries[i].frame;
             && Undisturbed(g, b, session, lease, generation, env)
             && |b.records| <= c.ingest.maxRecords && b.requestedCount <= c.ingest.maximumBatchCount
    ensures Accept(c, g, g.wal.entries[i].frame, session, lease, generation, env).1
            == Answer(AckFrom(RowAt(c.ingest, g.wal.entries, i), Duplicate), false)
  {
    hide Reconciled, Safe, JournalAgrees, StableAck, RowAt, LookupIn, UniqueIds, AcceptNew;
    SafeParts(g);
    LinkedEntries(g.wal);
    var b := g.wal.entries[i].frame;
    W.LinkedAt(g.wal.entries, i);
    RowHash(c.ingest, g.wal.entries, i);
    assert OnDisk(g.wal)[i] == g.wal.entries[i];
    RowsReadable(c, g, KeyOf(b));
    match LookupIn(g.journal, KeyOf(b)) {
      case Present(row) =>
        var m := StoredRow(c.ingest, g.wal.entries, g.journal, KeyOf(b), row);
        SameKeySameEntry(g.wal.entries, m, i);
      case Unreadable =>
        assert false;
      case Absent =>
        var m := IndexOf(g.wal.entries, KeyOf(b));
        SameKeySameEntry(g.wal.entries, m, i);
        RebuildSucceeds(c, g, env.faults);
        RebuiltHasRow(c.ingest, g.wal, g.journal, env.faults, i);
    }
  }

  lemma RowHash(c: IngestConfig, entries: seq<W.Entry>, i: nat)
    requires i < |entries|
    ensures RowAt(c, entries, i).hash == entries[i].batchHash
  {
  }

  lemma RowsReadable(c: GatewayConfig, g: State, key: RowKey)
    requires Stable(c, g) && g.serving && |g.wal.entries| <= MAX_I64 && FitsSqlite(key.1)
    ensures !LookupIn(g.journal, key).Unreadable?
  {
    hide Safe, StableAck, FoldState, OutcomeFor;
    SafeParts(g);
    LinkedEntries(g.wal);
    if key in g.journal.rows {
      assert Determined(c.ingest, g.wal.entries, key, g.journal.rows[key]);
      var i :| DeterminedAt(c.ingest, g.wal.entries, key, g.journal.rows[key], i);
      W.LinkedAt(g.wal.entries, i);
    }
  }

  lemma RebuildSucceeds(c: GatewayConfig, g: State, f: Faults)
    requires Stable(c, g) && g.serving && |g.wal.entries| <= MAX_I64 && NoFaults(f, |g.wal.entries|)
    ensures Reconciled(c.ingest, g.wal.entries, g.journal, f).1
  {
    hide Reconciled, Safe, StableAck, UniqueIds, JournalAgrees;
    SafeParts(g);
    LinkedEntries(g.wal);
    RowsAreFew(c.ingest, g.wal.entries, g.journal);
    forall i | 0 <= i < |g.wal.entries| ensures Storable(g.wal.entries[i]) {
      assert OnDisk(g.wal)[i] == g.wal.entries[i];
      W.LinkedAt(g.wal.entries, i);
    }
    ReconcileSucceedsIff(c.ingest, g.wal.entries, g.journal, f);
  }
}
