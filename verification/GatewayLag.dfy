/**
 What an ACK is worth when the journal lags behind the WAL: a journal insert has failed, and nothing has rebuilt
 the journal before the next new batch is answered from its state.
 */
module GatewayLag {
  import opened Protocol
  import opened Digests
  import opened Cursor
  import opened Journal
  import opened Reconcile
  import opened Gateway
  import opened GatewaySafety
  import opened GatewayReplay
  import W = Wal
  import D = Disk

  // ---- One ACK ----

  /** An ACK for a new entry is the one the WAL determines exactly if its outcome is. */
  lemma AckIsStableIff(c: IngestConfig, w: W.State, e: W.Entry, s: CursorState)
    requires WalSafe(w) && IndexOf(w.entries, KeyOf(e.frame)) < 0
    ensures var o := OutcomeFor(s, e.frame, c);
            StableAck(c, w.entries + [e], AckFrom(RowFor(e, o), o.status)) <==> o == OutcomeFor(FoldState(c, w.entries), e.frame, c)
  {
    hide FoldState, UniqueIds, IndexOf, OutcomeFor;
    var n, more := |w.entries|, w.entries + [e];
    var o, t := OutcomeFor(s, e.frame, c), OutcomeFor(FoldState(c, w.entries), e.frame, c);
    var a := AckFrom(RowFor(e, o), o.status);
    assert more[..n] == w.entries;
    assert RowAt(c, more, n) == RowFor(e, t);
    OutcomeIsNoDuplicate(s, e.frame, c);
    if o == t {
      assert StableAt(c, more, a, n);
    }
    if StableAck(c, more, a) {
      var i :| StableAt(c, more, a, i);
      UniqueAppendWal(w, e);
      SameKeySameEntry(more, i, n);
    }
  }

  lemma OutcomeIsNoDuplicate(s: CursorState, b: BatchFrame, c: IngestConfig)
    ensures OutcomeFor(s, b, c).status in {AcceptedAdvanced, AcceptedNoAdvance, DenseBoundary, DenseUnresolved}
  {
  }

  lemma AcceptNewAnswers(c: GatewayConfig, g: State, b: BatchFrame, generation: U64, env: Env)
    ensures var (h, r) := AcceptNew(c, g, b, generation, env);
            h.acks != g.acks ==> r.Answer? && h.acks == g.acks + [r.ack]
  {
    hide OutcomeFor, W.NextEntry, ApplyTo, ReadyForAck;
  }

  /**
   In any run, with any faults: a durable ACK for a batch that the WAL did not know is the one that the WAL
   determines, and that every later answer repeats, if and only if the journal's state and the state that the
   WAL leads to answer this batch alike.
   */
  lemma NewAckIsStableIff(c: GatewayConfig, journal: Tables, events: seq<Event>,
                          b: BatchFrame, session: Text, lease: Text, generation: Granted, env: Env)
    requires ConfigValid(c.ingest) && IndexOf(Run(c, journal, events).wal.entries, KeyOf(b)) < 0
    requires var g := Run(c, journal, events); Accept(c, g, b, session, lease, generation, env).0.acks != g.acks
    ensures var g := Run(c, journal, events);
            var (h, r) := Accept(c, g, b, session, lease, generation, env);
            && r.Answer? && h.acks == g.acks + [r.ack] && g.journal.state.Some?
            && (StableAck(c.ingest, h.wal.entries, r.ack) <==>
                AnswersAgree(c.ingest, g.journal.state.value, FoldState(c.ingest, g.wal.entries), b))
  {
    hide Run, Safe, AnswersAgree, FoldState, StableAck, InUseSettled;
    RunIsSafe(c, journal, events);
    RunIsSettled(c, journal, events);
    NewAckFrom(c, Run(c, journal, events), b, session, lease, generation, env);
  }

  lemma NewAckFrom(c: GatewayConfig, g: State, b: BatchFrame, session: Text, lease: Text, generation: U64, env: Env)
    requires ConfigValid(c.ingest) && Safe(g) && InUseSettled(c, g) && IndexOf(g.wal.entries, KeyOf(b)) < 0
    requires Accept(c, g, b, session, lease, generation, env).0.acks != g.acks
    ensures var (h, r) := Accept(c, g, b, session, lease, generation, env);
            && r.Answer? && h.acks == g.acks + [r.ack] && g.journal.state.Some?
            && (StableAck(c.ingest, h.wal.entries, r.ack) <==>
                AnswersAgree(c.ingest, g.journal.state.value, FoldState(c.ingest, g.wal.entries), b))
  {
    hide AcceptNew, IndexOf, Safe, OutcomeFor, W.NextEntry, ApplyTo, AnswersAgree, FoldState, StableAck, Settled, ConfigValid;
    SafeParts(g);
    if LookupIn(g.journal, KeyOf(b)).Present? {
      LookupIsSound(g.wal.entries, g.journal, KeyOf(b), false);
      assert false;
    }
    AcceptNewAnswers(c, g, b, generation, env);
    AcceptNewShape(c, g, b, generation, env);
    var e := W.NextEntry(g.wal.entries, b, env.wallS, env.monotonicUs);
    NextFrame(g.wal.entries, b, env.wallS, env.monotonicUs);
    AckIsStableIff(c.ingest, g.wal, e, g.journal.state.value);
    AgreeingMeans(c, g, b);
    assert Accept(c, g, b, session, lease, generation, env).0.acks[|g.acks|] == Accept(c, g, b, session, lease, generation, env).1.ack;
  }

  // ---- A lost insert ----

  /** A batch that the gateway has not seen, sent with nothing in its way but a possible journal fault. */
  predicate Fresh(c: GatewayConfig, g: State, b: BatchFrame, session: Text, lease: Text, generation: U64, env: Env) {
    && SessionActive(g, lease, generation, env.now) && b.sessionId == session && b.leaseId == lease
    && |b.records| <= c.ingest.maxRecords && b.requestedCount <= c.ingest.maximumBatchCount
    && FitsSqlite(b.batchSequence) && KeyOf(b) !in g.journal.rows && IndexOf(g.wal.entries, KeyOf(b)) < 0
    && g.journal.state.Some? && !g.wal.poisoned
    && !env.readFails(0) && !env.readFails(2) && !env.walFails && !env.syncHookFails && !env.commitHookFails
    && ReadyForAck(c, g, env.usageBefore) && ReadyForAck(c, g, env.usageAfter)
  }

  function Logged(g: State, b: BatchFrame, generation: U64, env: Env): State {
    g.(wal := g.wal.(entries := g.wal.entries + [W.NextEntry(g.wal.entries, b, env.wallS, env.monotonicUs)]),
       writers := g.writers + [Writer(g.boot, generation)])
  }

  lemma FreshIsAnswered(c: GatewayConfig, g: State, b: BatchFrame, session: Text, lease: Text, generation: U64, env: Env)
    requires Fresh(c, g, b, session, lease, generation, env)
    ensures var e := W.NextEntry(g.wal.entries, b, env.wallS, env.monotonicUs);
            var o := OutcomeFor(g.journal.state.value, b, c.ingest);
            var a, next := AckFrom(RowFor(e, o), o.status), ApplyTo(g.journal, e, o);
            && (env.applyFails ==> Accept(c, g, b, session, lease, generation, env) == (Logged(g, b, generation, env), Refused))
            && (!env.applyFails && next.Some? ==>
                  Accept(c, g, b, session, lease, generation, env) ==
                  (Acked(Logged(g, b, generation, env).(journal := next.value), a), Answer(a, false)))
  {
    hide W.NextEntry, OutcomeFor, ApplyTo, IndexOf, D.Ready;
    OutcomeIsNoDuplicate(g.journal.state.value, b, c.ingest);
  }

  lemma IndexSkips(entries: seq<W.Entry>, e: W.Entry, key: RowKey)
    requires IndexOf(entries, key) < 0 && KeyOf(e.frame) != key
    ensures IndexOf(entries + [e], key) < 0
  {
    assert (entries + [e])[..|entries|] == entries;
  }

  lemma ApplySucceeds(c: GatewayConfig, g: State, e: W.Entry, o: Outcome)
    requires Stable(c, g) && g.serving && g.journal.state.Some? && KeyOf(e.frame) !in g.journal.rows
    requires FitsSqlite(e.frame.batchSequence) && |g.wal.entries| < e.sequence && FitsSqlite(e.sequence)
    ensures ApplyTo(g.journal, e, o).Some?
  {
    hide Safe, StableAck, FoldState, OutcomeFor;
    SafeParts(g);
    LinkedEntries(g.wal);
    forall key | key in g.journal.rows && g.journal.rows[key].Some? ensures g.journal.rows[key].value.ingestSequence != e.sequence {
      assert Determined(c.ingest, g.wal.entries, key, g.journal.rows[key]);
      var i :| DeterminedAt(c.ingest, g.wal.entries, key, g.journal.rows[key], i);
      W.LinkedAt(g.wal.entries, i);
    }
  }

  /** The connection of a refused batch is closed, which releases its session, and the producer connects again. */
  function Reconnected(c: GatewayConfig, g: State, lease: Text, generation: U64, h: Hello, now: nat): (State, Option<(Text, U64)>) {
    Begin(c, Release(g, lease, generation), h, now, false)
  }

  /** Only the session changes. */
  lemma ReconnectKeeps(c: GatewayConfig, g: State, lease: Text, generation: Granted, h: Hello, now: nat)
    requires Safe(g) && InUseSettled(c, g)
    ensures var n := Reconnected(c, g, lease, generation, h, now).0;
            && n.wal == g.wal && n.journal == g.journal && n.acks == g.acks && n.serving == g.serving
            && Safe(n) && InUseSettled(c, n)
  {
    hide Safe, HelloValid, Settled;
    NextIsSafe(c, g, ReleaseSession(lease, generation));
    NextIsSafe(c, Release(g, lease, generation), BeginSession(h, now, false));
  }

  /**
   The journal insert of `first` fails and its connection is closed. The producer connects again, and `second` is sent
   before anything rebuilds the journal. `second` is acknowledged, and its ACK is stable if and only if the states
   before and after `first` answer it alike. So it is unstable, for example, whenever its records lie between the
   old cursor and those of `first`.
   */
  lemma LostInsertIsStableIff(c: GatewayConfig, g: State, first: BatchFrame, session: Text, lease: Text, generation: Granted, env: Env,
                              h: Hello, now: nat, second: BatchFrame, newLease: Text, newGeneration: Granted, next: Env)
    requires ConfigValid(c.ingest) && InUseSettled(c, g) && Stable(c, g) && |g.journal.rows| == |g.wal.entries| < MAX_I64 - 2
    requires Fresh(c, g, first, session, lease, generation, env) && env.applyFails
    requires var lost := Accept(c, g, first, session, lease, generation, env).0;
             var (behind, granted) := Reconnected(c, lost, lease, generation, h, now);
             granted == Some((newLease, newGeneration)) && Fresh(c, behind, second, h.session, newLease, newGeneration, next) && !next.applyFails
    ensures var lost := Accept(c, g, first, session, lease, generation, env).0;
            var behind := Reconnected(c, lost, lease, generation, h, now).0;
            var (after, r) := Accept(c, behind, second, h.session, newLease, newGeneration, next);
            var s := g.journal.state.value;
            && r.Answer? && after.acks == g.acks + [r.ack]
            && (StableAck(c.ingest, after.wal.entries, r.ack) <==>
                AnswersAgree(c.ingest, s, Commit(s, OutcomeFor(s, first, c.ingest)), second))
  {
    hide Safe, StableAck, FoldState, OutcomeFor, W.NextEntry, IndexOf, ApplyTo, Reconciled, D.Ready, UniqueIds, AnswersAgree,
         Accept, Settled, ConfigValid, JournalAgrees, Reconnected;
    SafeParts(g);
    FreshIsAnswered(c, g, first, session, lease, generation, env);
    var e := W.NextEntry(g.wal.entries, first, env.wallS, env.monotonicUs);
    NextFrame(g.wal.entries, first, env.wallS, env.monotonicUs);
    var lost := Accept(c, g, first, session, lease, generation, env).0;
    AcceptIsSafe(c, g, first, session, lease, generation, env);
    ReconnectKeeps(c, lost, lease, generation, h, now);
    var behind := Reconnected(c, lost, lease, generation, h, now).0;
    var e2 := W.NextEntry(behind.wal.entries, second, next.wallS, next.monotonicUs);
    NextFrame(behind.wal.entries, second, next.wallS, next.monotonicUs);
    ApplySucceeds(c, g, e2, OutcomeFor(g.journal.state.value, second, c.ingest));
    FreshIsAnswered(c, behind, second, h.session, newLease, newGeneration, next);
    NewAckFrom(c, behind, second, h.session, newLease, newGeneration, next);
    LostState(c, g, e, second);
  }

  /** Without the lost row the journal answers from the old state, the WAL from the new one. */
  lemma LostState(c: GatewayConfig, g: State, e: W.Entry, b: BatchFrame)
    requires JournalAgrees(c.ingest, g.wal.entries, g.journal) && |g.journal.rows| == |g.wal.entries|
    ensures g.journal.state.Some?
    ensures var s := g.journal.state.value;
            AnswersAgree(c.ingest, s, FoldState(c.ingest, g.wal.entries + [e]), b) <==>
            AnswersAgree(c.ingest, s, Commit(s, OutcomeFor(s, e.frame, c.ingest)), b)
  {
    var s, t := g.journal.state.value, FoldState(c.ingest, g.wal.entries);
    SameCursorSameOutcome(c.ingest, s, t, e.frame);
    assert (g.wal.entries + [e])[..|g.wal.entries|] == g.wal.entries;
    hide OutcomeFor, MaxTime, SameDenseStep;
  }

  lemma SameCursorSameOutcome(c: IngestConfig, s: CursorState, t: CursorState, b: BatchFrame)
    requires SameCursor(s, t)
    ensures OutcomeFor(s, b, c) == OutcomeFor(t, b, c)
  {
  }
}
