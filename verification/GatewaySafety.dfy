/** Exactly-once logging and what every durable ACK stands for, over every run of the gateway. */
module GatewaySafety {
  import opened Protocol
  import opened Digests
  import opened Counting
  import opened Cursor
  import opened Journal
  import opened Reconcile
  import opened Gateway
  import W = Wal

  /** The entries in the file: those in memory, and the one whose append failed, should it have reached the disk. */
  function OnDisk(w: W.State): seq<W.Entry> {
    if w.unsynced.Some? then w.entries + [w.unsynced.value] else w.entries
  }

  /** Position `i` of the WAL holds this very batch. */
  predicate NamesAt(entries: seq<W.Entry>, session: Text, batchSequence: int, hash: Digest, ingestSequence: nat, i: int) {
    && 0 <= i < |entries|
    && KeyOf(entries[i].frame) == (session, batchSequence)
    && entries[i].batchHash == hash
    && entries[i].sequence == ingestSequence
  }

  ghost predicate Names(entries: seq<W.Entry>, session: Text, batchSequence: int, hash: Digest, ingestSequence: nat) {
    exists i :: NamesAt(entries, session, batchSequence, hash, ingestSequence, i)
  }

  ghost predicate RowSound(entries: seq<W.Entry>, key: RowKey, row: Option<Row>) {
    && row.Some?
    && (row.value.session, row.value.batchSequence) == key
    && Names(entries, key.0, key.1, row.value.hash, row.value.ingestSequence)
  }

  /** Every row of the journal is about an entry of the WAL. */
  ghost predicate JournalSound(entries: seq<W.Entry>, t: Tables) {
    && t.state.Some?
    && forall key :: key in t.rows ==> RowSound(entries, key, t.rows[key])
  }

  ghost predicate AckSound(entries: seq<W.Entry>, a: Ack) {
    Names(entries, a.session, a.batchSequence, a.hash, a.ingestSequence)
  }

  ghost predicate WalSafe(w: W.State) {
    && W.Linked(OnDisk(w))
    && UniqueIds(OnDisk(w))
    && (w.unsynced.Some? ==> w.poisoned)
  }

  ghost predicate Safe(g: State) {
    && WalSafe(g.wal)
    && (g.wal.poisoned ==> g.poisoned)
    && (g.serving ==> JournalSound(g.wal.entries, g.journal))
    && (forall k :: 0 <= k < |g.acks| ==> AckSound(g.wal.entries, g.acks[k]))
  }

  lemma NamesGrow(entries: seq<W.Entry>, more: seq<W.Entry>, session: Text, batchSequence: int, hash: Digest, sequence: nat)
    requires entries <= more && Names(entries, session, batchSequence, hash, sequence)
    ensures Names(more, session, batchSequence, hash, sequence)
  {
    var i :| NamesAt(entries, session, batchSequence, hash, sequence, i);
    assert NamesAt(more, session, batchSequence, hash, sequence, i);
  }

  lemma SoundGrows(entries: seq<W.Entry>, more: seq<W.Entry>, t: Tables)
    requires entries <= more && JournalSound(entries, t)
    ensures JournalSound(more, t)
  {
    hide Names;
    forall key | key in t.rows ensures RowSound(more, key, t.rows[key]) {
      assert RowSound(entries, key, t.rows[key]);
      NamesGrow(entries, more, key.0, key.1, t.rows[key].value.hash, t.rows[key].value.ingestSequence);
    }
  }

  lemma AcksGrow(entries: seq<W.Entry>, more: seq<W.Entry>, acks: seq<Ack>)
    requires entries <= more && forall k :: 0 <= k < |acks| ==> AckSound(entries, acks[k])
    ensures forall k :: 0 <= k < |acks| ==> AckSound(more, acks[k])
  {
    hide Names;
    forall k | 0 <= k < |acks| ensures AckSound(more, acks[k]) {
      assert AckSound(entries, acks[k]);
      NamesGrow(entries, more, acks[k].session, acks[k].batchSequence, acks[k].hash, acks[k].ingestSequence);
    }
  }

  lemma FoldIsSound(c: IngestConfig, entries: seq<W.Entry>, m: nat)
    requires m <= |entries| && UniqueIds(entries[..m])
    ensures JournalSound(entries, TablesOf(c, entries[..m]))
  {
    hide OutcomeFor, FoldRows, UniqueIds;
    var t := TablesOf(c, entries[..m]);
    FoldKeys(c, entries[..m]);
    forall key | key in t.rows ensures RowSound(entries, key, t.rows[key]) {
      var i :| 0 <= i < m && Keys(entries[..m])[i] == key;
      FoldRowsAt(c, entries[..m], i);
      assert NamesAt(entries, key.0, key.1, entries[i].batchHash, entries[i].sequence, i);
    }
  }

  lemma ReconcileIsSound(c: IngestConfig, entries: seq<W.Entry>, t: Tables, f: Faults)
    requires W.Linked(entries) && (JournalSound(entries, t) || Reconciled(c, entries, t, f).1)
    ensures JournalSound(entries, Reconciled(c, entries, t, f).0)
  {
    hide Reconciled, JournalSound, TablesOf, W.Linked;
    if Reconciled(c, entries, t, f).1 {
      SuccessfulReconcileIsTheFold(c, entries, t, f);
      assert entries[..|entries|] == entries;
      FoldIsSound(c, entries, |entries|);
    } else {
      var m := FailedReconcile(c, entries, t, f);
      FoldIsSound(c, entries, m);
    }
  }

  /** A batch that is not in the WAL can be logged without repeating an identity. */
  lemma UniqueAppend(entries: seq<W.Entry>, e: W.Entry)
    requires UniqueIds(entries) && IndexOf(entries, KeyOf(e.frame)) < 0
    ensures UniqueIds(entries + [e])
  {
    var more := entries + [e];
    assert Keys(more) == Keys(entries) + [KeyOf(e.frame)];
    forall i, j | 0 <= i < |more| && 0 <= j < |more| && Keys(more)[i] == Keys(more)[j] ensures i == j {
      if i < |entries| && j < |entries| {
        assert Keys(entries)[i] == Keys(entries)[j];
      }
    }
  }

  lemma AppendIsSafe(w: W.State, b: BatchFrame, wallS: I64, monotonicUs: U64, fails: bool)
    requires WalSafe(w) && IndexOf(w.entries, KeyOf(b)) < 0
    ensures WalSafe(W.AppendTo(w, b, wallS, monotonicUs, fails).0)
  {
    hide W.NextEntry, IndexOf;
    if !w.poisoned {
      var e := W.NextEntry(w.entries, b, wallS, monotonicUs);
      assert e.frame == b by { NextFrame(w.entries, b, wallS, monotonicUs); }
      W.LinkedExtend(w.entries, b, wallS, monotonicUs);
      UniqueAppend(w.entries, e);
    }
  }

  lemma NextFrame(entries: seq<W.Entry>, b: BatchFrame, wallS: I64, monotonicUs: U64)
    ensures var e := W.NextEntry(entries, b, wallS, monotonicUs);
            e.frame == b && e.batchHash == BatchHash(b) && e.sequence == |entries| + 1
  {
  }

  lemma ApplyIsSound(before: seq<W.Entry>, t: Tables, e: W.Entry, o: Outcome)
    requires JournalSound(before, t)
    ensures ApplyTo(t, e, o).Some? ==> JournalSound(before + [e], ApplyTo(t, e, o).value)
  {
    hide Names;
    var entries := before + [e];
    if ApplyTo(t, e, o).Some? {
      var next := ApplyTo(t, e, o).value;
      SoundGrows(before, entries, t);
      assert NamesAt(entries, e.frame.sessionId, e.frame.batchSequence, e.batchHash, e.sequence, |before|);
      forall key | key in next.rows ensures RowSound(entries, key, next.rows[key]) {
        if key != KeyOf(e.frame) {
          assert RowSound(entries, key, t.rows[key]);
        } else {
          assert Names(entries, key.0, key.1, e.batchHash, e.sequence) by { WitnessNames(entries, key, e, |before|); }
        }
      }
    }
  }

  lemma WitnessNames(entries: seq<W.Entry>, key: RowKey, e: W.Entry, i: int)
    requires NamesAt(entries, key.0, key.1, e.batchHash, e.sequence, i)
    ensures Names(entries, key.0, key.1, e.batchHash, e.sequence)
  {
  }

  /** The statuses that promise the batch is in the log. */
  predicate Durable(status: AckStatus) {
    status in {AcceptedAdvanced, AcceptedNoAdvance, Duplicate, DenseBoundary, DenseUnresolved}
  }

  /** A durable answer is about the batch that was sent, names its WAL entry, and is remembered. */
  ghost predicate ReplySound(g: State, b: BatchFrame, r: Reply) {
    r.Answer? && Durable(r.ack.status) ==>
      && (r.ack.session, r.ack.batchSequence) == KeyOf(b) && r.ack.hash == BatchHash(b)
      && AckSound(g.wal.entries, r.ack)
      && g.acks != [] && g.acks[|g.acks| - 1] == r.ack
  }

  /** What one step must show: safety, an append-only WAL and history, and sound answers. */
  ghost predicate SafeStep(g: State, h: State) {
    Safe(h) && g.wal.entries <= h.wal.entries && g.acks <= h.acks
  }

  lemma AckedIsSafe(g: State, a: Ack)
    requires Safe(g) && AckSound(g.wal.entries, a)
    ensures SafeStep(g, Acked(g, a))
  {
    hide AckSound, JournalSound, WalSafe;
  }

  lemma AnswerStoredIsSafe(g: State, b: BatchFrame, row: Row)
    requires Safe(g) && RowSound(g.wal.entries, KeyOf(b), Some(row))
    ensures var (h, r) := AnswerStored(g, b, row);
            SafeStep(g, h) && ReplySound(h, b, r)
  {
    hide Names, JournalSound, WalSafe;
    if row.hash == BatchHash(b) {
      AckedIsSafe(g, AckFrom(row, Duplicate));
    }
  }

  lemma LoggedIsSafe(g: State, b: BatchFrame, generation: U64, env: Env)
    requires Safe(g) && g.serving && !g.wal.poisoned && !env.walFails && IndexOf(g.wal.entries, KeyOf(b)) < 0
    ensures var wal := W.AppendTo(g.wal, b, env.wallS, env.monotonicUs, false).0;
            SafeStep(g, g.(wal := wal, writers := g.writers + [Writer(g.boot, generation)]))
  {
    hide W.NextEntry, IndexOf, AckSound, JournalSound, WalSafe;
    AppendIsSafe(g.wal, b, env.wallS, env.monotonicUs, false);
    var e := W.NextEntry(g.wal.entries, b, env.wallS, env.monotonicUs);
    SoundGrows(g.wal.entries, g.wal.entries + [e], g.journal);
    AcksGrow(g.wal.entries, g.wal.entries + [e], g.acks);
  }

  lemma AcceptNewIsSafe(c: GatewayConfig, g: State, b: BatchFrame, generation: U64, env: Env)
    requires Safe(g) && g.serving && IndexOf(g.wal.entries, KeyOf(b)) < 0
    ensures var (h, r) := AcceptNew(c, g, b, generation, env);
            SafeStep(g, h) && ReplySound(h, b, r)
  {
    hide OutcomeFor, W.NextEntry, IndexOf, JournalSound, WalSafe, Names, ApplyTo, ReadyForAck;
    if ReadyForAck(c, g, env.usageBefore) && !env.readFails(2) && g.journal.state.Some? {
      AppendIsSafe(g.wal, b, env.wallS, env.monotonicUs, env.walFails);
      if !g.wal.poisoned && !env.walFails {
        LoggedIsSafe(g, b, generation, env);
        var e := W.NextEntry(g.wal.entries, b, env.wallS, env.monotonicUs);
        NextFrame(g.wal.entries, b, env.wallS, env.monotonicUs);
        var o := OutcomeFor(g.journal.state.value, b, c.ingest);
        ApplyIsSound(g.wal.entries, g.journal, e, o);
        WitnessNames(g.wal.entries + [e], KeyOf(b), e, |g.wal.entries|);
      }
    }
  }

  lemma LookupIsSound(entries: seq<W.Entry>, t: Tables, key: RowKey, fails: bool)
    requires JournalSound(entries, t)
    ensures Read(t, key, fails).Present? ==> RowSound(entries, key, Some(Read(t, key, fails).row))
  {
    hide Names;
    if key in t.rows {
      assert RowSound(entries, key, t.rows[key]);
    }
  }

  lemma LinkedEntries(w: W.State)
    requires WalSafe(w)
    ensures W.Linked(w.entries) && UniqueIds(w.entries)
  {
    hide W.NextEntry;
    assert OnDisk(w)[..|w.entries|] == w.entries;
    UniquePrefix(OnDisk(w), |w.entries|);
  }

  lemma RebuiltIsSafe(c: GatewayConfig, g: State, f: Faults)
    requires Safe(g) && g.serving
    ensures SafeStep(g, g.(journal := Reconciled(c.ingest, g.wal.entries, g.journal, f).0))
  {
    hide Reconciled, JournalSound, AckSound, WalSafe;
    LinkedEntries(g.wal);
    ReconcileIsSound(c.ingest, g.wal.entries, g.journal, f);
  }

  /** After a successful rebuild every WAL entry has its row. */
  lemma RebuiltHasRow(c: IngestConfig, w: W.State, t: Tables, f: Faults, i: nat)
    requires WalSafe(w) && i < |w.entries| && Reconciled(c, w.entries, t, f).1
    ensures LookupIn(Reconciled(c, w.entries, t, f).0, KeyOf(w.entries[i].frame)) == Present(RowAt(c, w.entries, i))
  {
    hide Reconciled, UniqueIds, RowAt, FoldRows, AllStorable;
    LinkedEntries(w);
    SuccessfulReconcileIsTheFold(c, w.entries, t, f);
    FoldRowsAt(c, w.entries, i);
    StorableAt(w.entries, i);
    RowSequence(c, w.entries, i);
  }

  lemma StorableAt(entries: seq<W.Entry>, i: nat)
    requires AllStorable(entries) && i < |entries|
    ensures Storable(entries[i])
  {
  }

  lemma RowSequence(c: IngestConfig, entries: seq<W.Entry>, i: nat)
    requires i < |entries|
    ensures RowAt(c, entries, i).ingestSequence == entries[i].sequence
  {
  }

  lemma AcceptUnindexedIsSafe(c: GatewayConfig, g: State, b: BatchFrame, generation: U64, env: Env)
    requires Safe(g) && g.serving
    ensures var (h, r) := AcceptUnindexed(c, g, b, generation, env);
            SafeStep(g, h) && ReplySound(h, b, r)
  {
    hide Reconciled, JournalSound, AckSound, WalSafe, AcceptNew, IndexOf, RowAt, LookupIn, AnswerStored, RowSound;
    var i := IndexOf(g.wal.entries, KeyOf(b));
    if i < 0 {
      AcceptNewIsSafe(c, g, b, generation, env);
    } else if g.wal.entries[i].batchHash == BatchHash(b) {
      RebuiltIsSafe(c, g, env.faults);
      var (journal, ok) := Reconciled(c.ingest, g.wal.entries, g.journal, env.faults);
      if ok {
        RebuiltHasRow(c.ingest, g.wal, g.journal, env.faults, i);
        assert KeyOf(g.wal.entries[i].frame) == KeyOf(b);
        LookupIsSound(g.wal.entries, journal, KeyOf(b), env.readFails(1));
        if !env.readFails(1) {
          AnswerStoredIsSafe(g.(journal := journal), b, RowAt(c.ingest, g.wal.entries, i));
        }
      }
    }
  }

  lemma AcceptIsSafe(c: GatewayConfig, g: State, b: BatchFrame, session: Text, lease: Text, generation: U64, env: Env)
    requires Safe(g)
    ensures var (h, r) := Accept(c, g, b, session, lease, generation, env);
            SafeStep(g, h) && ReplySound(h, b, r)
  {
    hide JournalSound, AckSound, WalSafe, AcceptUnindexed, RowSound, LookupIn, AnswerStored;
    if SessionActive(g, lease, generation, env.now) {
      AcceptUnindexedIsSafe(c, g, b, generation, env);
      LookupIsSound(g.wal.entries, g.journal, KeyOf(b), env.readFails(0));
      var found := Read(g.journal, KeyOf(b), env.readFails(0));
      if found.Present? {
        AnswerStoredIsSafe(g, b, found.row);
      }
    }
  }

  lemma CrashIsSafe(g: State, survives: bool)
    requires Safe(g)
    ensures SafeStep(g, Crash(g, survives))
  {
    hide W.NextEntry, AckSound, JournalSound, UniqueIds;
    LinkedEntries(g.wal);
    var wal := W.Reopened(g.wal, survives);
    AcksGrow(g.wal.entries, wal.entries, g.acks);
  }

  lemma RecoverIsSafe(c: GatewayConfig, g: State, f: Faults)
    requires Safe(g)
    ensures SafeStep(g, Recover(c, g, f))
  {
    hide Reconciled, JournalSound, AckSound, WalSafe;
    if !g.serving {
      LinkedEntries(g.wal);
      if Reconciled(c.ingest, g.wal.entries, g.journal, f).1 {
        ReconcileIsSound(c.ingest, g.wal.entries, g.journal, f);
      }
    }
  }

  lemma NextIsSafe(c: GatewayConfig, g: State, e: Event)
    requires Safe(g)
    ensures SafeStep(g, Next(c, g, e))
  {
    hide JournalSound, AckSound, WalSafe, Accept, Crash, Recover, HelloValid;
    match e
    case BeginSession(h, now, fails) =>
    case Send(b, session, lease, generation, env) => AcceptIsSafe(c, g, b, session, lease, generation, env);
    case TouchSession(lease, generation, now) =>
    case ReleaseSession(lease, generation) =>
    case Backlog(segments, bytes) =>
    case Restart(survives) => CrashIsSafe(g, survives);
    case RecoverJournal(faults) => RecoverIsSafe(c, g, faults);
  }

  lemma InitialIsSafe(journal: Tables)
    ensures Safe(Initial(journal))
  {
  }

  lemma {:induction false} RunIsSafe(c: GatewayConfig, journal: Tables, events: seq<Event>)
    ensures Safe(Run(c, journal, events))
  {
    hide Safe, Next;
    if events == [] {
      InitialIsSafe(journal);
    } else {
      RunIsSafe(c, journal, events[..|events| - 1]);
      NextIsSafe(c, Run(c, journal, events[..|events| - 1]), events[|events| - 1]);
    }
  }

  /** Nothing that was logged or acknowledged is ever taken back. */
  lemma {:induction false} RunOnlyGrows(c: GatewayConfig, journal: Tables, events: seq<Event>, n: nat)
    requires n <= |events|
    ensures Run(c, journal, events[..n]).wal.entries <= Run(c, journal, events).wal.entries
    ensures Run(c, journal, events[..n]).acks <= Run(c, journal, events).acks
  {
    hide Safe, Next;
    if n == |events| {
      assert events[..n] == events;
    } else {
      var before := events[..|events| - 1];
      RunIsSafe(c, journal, before);
      NextIsSafe(c, Run(c, journal, before), events[|events| - 1]);
      RunOnlyGrows(c, journal, before, n);
      assert before[..n] == events[..n];
    }
  }

  /**
   Exactly once: in every run, with any crashes and faults, the WAL is one hash chain that never holds a
   batch identity twice, and every durable ACK ever given names the one entry with that identity, with
   its hash and its position.
   */
  lemma ExactlyOnce(c: GatewayConfig, journal: Tables, events: seq<Event>, k: nat)
    requires k < |Run(c, journal, events).acks|
    ensures var g := Run(c, journal, events);
            && W.Linked(g.wal.entries) && UniqueIds(g.wal.entries)
            && exists i :: && 0 <= i < |g.wal.entries|
                           && NamesAt(g.wal.entries, g.acks[k].session, g.acks[k].batchSequence, g.acks[k].hash, g.acks[k].ingestSequence, i)
                           && g.acks[k].ingestSequence == i + 1 && g.acks[k].hash == BatchHash(g.wal.entries[i].frame)
                           && forall j :: 0 <= j < |g.wal.entries| && KeyOf(g.wal.entries[j].frame) == (g.acks[k].session, g.acks[k].batchSequence) ==> j == i
  {
    hide Run, JournalSound, WalSafe;
    RunIsSafe(c, journal, events);
    var g := Run(c, journal, events);
    LinkedEntries(g.wal);
    var a := g.acks[k];
    assert AckSound(g.wal.entries, a);
    var i :| NamesAt(g.wal.entries, a.session, a.batchSequence, a.hash, a.ingestSequence, i);
    W.LinkedAt(g.wal.entries, i);
    forall j | 0 <= j < |g.wal.entries| && KeyOf(g.wal.entries[j].frame) == (a.session, a.batchSequence) ensures j == i {
      assert Keys(g.wal.entries)[j] == Keys(g.wal.entries)[i];
    }
  }
}
