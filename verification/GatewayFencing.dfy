/**
 Session fencing (internal/ingest/gateway.go): leases are handed out one at a time, each with a larger
 generation, and only the holder of the newest can write to the WAL, extend its lease or give it up.
 */
module GatewayFencing {
  import opened Protocol
  import opened Cursor
  import opened Journal
  import opened Reconcile
  import opened Gateway
  import W = Wal
  import D = Disk

  predicate NotAfter(a: Writer, b: Writer) {
    a.boot < b.boot || (a.boot == b.boot && a.generation <= b.generation)
  }

  /** Entries were written by sessions in the order in which the sessions began. */
  predicate InOrder(ws: seq<Writer>) {
    |ws| <= 1 || (InOrder(ws[..|ws| - 1]) && NotAfter(ws[|ws| - 2], ws[|ws| - 1]))
  }

  /** No writer so far is from a later process or session than `w`. */
  predicate UpTo(ws: seq<Writer>, w: Writer) {
    ws == [] || NotAfter(ws[|ws| - 1], w)
  }

  predicate Fenced(g: State) {
    && (g.activeGeneration != 0 ==> g.activeGeneration == g.nextGeneration)
    && (g.activeGeneration == 0 ==> g.activeUntil == 0)
    && g.nextGeneration == g.begun
    && |g.writers| == |g.wal.entries| && InOrder(g.writers)
    && UpTo(g.writers, Writer(g.boot, g.nextGeneration))
    && (g.wal.unsynced.Some? <==> g.wal.poisoned) && (g.attempt.Some? <==> g.wal.poisoned)
    && (g.attempt.Some? ==>
        UpTo(g.writers, g.attempt.value) && NotAfter(g.attempt.value, Writer(g.boot, g.nextGeneration)))
  }

  /** At no point of the run had the process begun 2^64 sessions. */
  ghost predicate FewSessions(c: GatewayConfig, journal: Tables, events: seq<Event>) {
    events == [] ||
    (FewSessions(c, journal, events[..|events| - 1]) && Run(c, journal, events).begun <= MAX_U64)
  }

  /** What one batch may do to the log and to the session: at most one entry, by the given generation. */
  predicate Wrote(g: State, h: State, generation: U64) {
    && h.boot == g.boot && h.begun == g.begun && h.nextGeneration == g.nextGeneration
    && h.activeLease == g.activeLease && h.activeUntil == g.activeUntil && h.activeGeneration == g.activeGeneration
    && (|| (h.wal == g.wal && h.writers == g.writers && h.attempt == g.attempt)
        || (!g.wal.poisoned && |h.wal.entries| == |g.wal.entries| + 1 && h.wal.poisoned == g.wal.poisoned
            && h.wal.unsynced == g.wal.unsynced && h.attempt == g.attempt
            && h.writers == g.writers + [Writer(g.boot, generation)])
        || (!g.wal.poisoned && h.wal.entries == g.wal.entries && h.wal.poisoned && h.wal.unsynced.Some?
            && h.writers == g.writers && h.attempt == Some(Writer(g.boot, generation))))
  }

  lemma AcceptNewWrites(c: GatewayConfig, g: State, b: BatchFrame, generation: U64, env: Env)
    ensures Wrote(g, AcceptNew(c, g, b, generation, env).0, generation)
  {
    hide OutcomeFor, ApplyTo, RowFor, W.NextEntry, D.Ready;
  }

  /** Only the active session writes; for anyone else a batch changes nothing at all. */
  lemma AcceptWrites(c: GatewayConfig, g: State, b: BatchFrame, session: Text, lease: Text, generation: U64, env: Env)
    ensures var h := Accept(c, g, b, session, lease, generation, env).0;
            Wrote(g, h, generation) && (!SessionActive(g, lease, generation, env.now) ==> h == g)
  {
    hide AcceptNew, Reconciled, LookupIn, IndexOf, AnswerStored;
    AcceptNewWrites(c, g, b, generation, env);
    var rebuilt := g.(journal := Reconciled(c.ingest, g.wal.entries, g.journal, env.faults).0);
    AcceptNewWrites(c, rebuilt, b, generation, env);
    StoredWritesNothing(g, b);
    StoredWritesNothing(rebuilt, b);
  }

  lemma StoredWritesNothing(g: State, b: BatchFrame)
    ensures forall row :: var h := AnswerStored(g, b, row).0; h == g.(acks := h.acks)
  {
  }

  lemma InOrderAppend(ws: seq<Writer>, w: Writer)
    requires InOrder(ws) && UpTo(ws, w)
    ensures InOrder(ws + [w])
  {
    assert (ws + [w])[..|ws|] == ws;
  }

  lemma WroteKeepsFence(g: State, h: State, generation: U64)
    requires Fenced(g) && Wrote(g, h, generation) && (h == g || generation == g.activeGeneration != 0)
    ensures Fenced(h)
  {
    hide InOrder;
    if h.writers != g.writers {
      InOrderAppend(g.writers, Writer(g.boot, generation));
    }
  }

  lemma CrashKeepsFence(g: State, survives: bool)
    requires Fenced(g)
    ensures Fenced(Crash(g, survives))
  {
    hide InOrder;
    if g.attempt.Some? {
      InOrderAppend(g.writers, g.attempt.value);
    }
  }

  lemma BeginKeepsFence(c: GatewayConfig, g: State, h: Hello, now: nat, fails: bool)
    requires Fenced(g) && Begin(c, g, h, now, fails).0.begun <= MAX_U64
    ensures Fenced(Begin(c, g, h, now, fails).0)
  {
    hide InOrder, HelloValid;
  }

  lemma NextIsFenced(c: GatewayConfig, g: State, e: Event)
    requires Fenced(g) && Next(c, g, e).begun <= MAX_U64
    ensures Fenced(Next(c, g, e))
  {
    hide InOrder, Accept, Reconciled, Crash, Begin;
    match e
    case Send(b, session, lease, generation, env) =>
      AcceptWrites(c, g, b, session, lease, generation, env);
      WroteKeepsFence(g, Next(c, g, e), generation);
    case BeginSession(h, now, fails) => BeginKeepsFence(c, g, h, now, fails);
    case Restart(survives) => CrashKeepsFence(g, survives);
    case _ =>
  }

  lemma {:induction false} RunIsFenced(c: GatewayConfig, journal: Tables, events: seq<Event>)
    requires FewSessions(c, journal, events)
    ensures Fenced(Run(c, journal, events))
  {
    hide Fenced, Next;
    if events == [] {
      InitialIsFenced(journal);
    } else {
      RunIsFenced(c, journal, events[..|events| - 1]);
      NextIsFenced(c, Run(c, journal, events[..|events| - 1]), events[|events| - 1]);
    }
  }

  lemma InitialIsFenced(journal: Tables)
    ensures Fenced(Initial(journal))
  {
  }

  lemma {:induction false} InOrderAt(ws: seq<Writer>, i: nat, j: nat)
    requires InOrder(ws) && i <= j < |ws|
    ensures NotAfter(ws[i], ws[j])
    decreases |ws|
  {
    if i < j {
      var before := ws[..|ws| - 1];
      if j < |ws| - 1 {
        InOrderAt(before, i, j);
      } else {
        InOrderAt(before, i, j - 1);
      }
    }
  }

  /** In WAL order the writing processes, and within a process the generations, never go back. */
  lemma WritersInOrder(c: GatewayConfig, journal: Tables, events: seq<Event>, i: nat, j: nat)
    requires FewSessions(c, journal, events) && i <= j < |Run(c, journal, events).wal.entries|
    ensures var g := Run(c, journal, events);
            |g.writers| == |g.wal.entries| && NotAfter(g.writers[i], g.writers[j])
  {
    hide Run;
    RunIsFenced(c, journal, events);
    InOrderAt(Run(c, journal, events).writers, i, j);
  }

  lemma {:induction false} FewSessionsPrefix(c: GatewayConfig, journal: Tables, events: seq<Event>, k: nat)
    requires FewSessions(c, journal, events) && k <= |events|
    ensures FewSessions(c, journal, events[..k])
  {
    hide Run;
    if k < |events| {
      FewSessionsPrefix(c, journal, events[..|events| - 1], k);
      assert events[..|events| - 1][..k] == events[..k];
    } else {
      assert events[..k] == events;
    }
  }

  /**
   A handler got its lease at step `k`, and the same process has begun another session since. Whatever
   the handler still does, at any time, changes nothing: a batch is refused as a lease conflict, and the
   newer session is neither extended nor cleared.
   */
  lemma SupersededIsPowerless(c: GatewayConfig, journal: Tables, events: seq<Event>, k: nat,
                              b: BatchFrame, session: Text, now: nat, env: Env)
    requires FewSessions(c, journal, events) && k < |events| && events[k].BeginSession?
    requires var e := events[k]; Begin(c, Run(c, journal, events[..k]), e.hello, e.now, e.journalFails).1.Some?
    requires Run(c, journal, events[..k + 1]).boot == Run(c, journal, events).boot
    requires Run(c, journal, events[..k + 1]).begun < Run(c, journal, events).begun
    ensures var g, e := Run(c, journal, events), events[k];
            var (lease, generation) := Begin(c, Run(c, journal, events[..k]), e.hello, e.now, e.journalFails).1.value;
            && Touch(c, g, lease, generation, now) == g
            && Release(g, lease, generation) == g
            && Accept(c, g, b, session, lease, generation, env) == (g, Answer(PlainAck(c, b, 0, SessionLeaseConflict), true))
  {
    hide Run, HelloValid, InOrder, AcceptUnindexed, LookupIn;
    RunIsFenced(c, journal, events);
    FewSessionsPrefix(c, journal, events, k + 1);
    RunIsFenced(c, journal, events[..k + 1]);
    RunStep(c, journal, events, k);
  }

  lemma RunStep(c: GatewayConfig, journal: Tables, events: seq<Event>, k: nat)
    requires k < |events|
    ensures Run(c, journal, events[..k + 1]) == Next(c, Run(c, journal, events[..k]), events[k])
  {
    hide Next;
    assert events[..k + 1][..k] == events[..k];
  }

  /** Event `k` began a session and gave it this lease and generation. */
  ghost predicate GrantedAt(c: GatewayConfig, journal: Tables, events: seq<Event>, k: nat, lease: Text, generation: U64) {
    && k < |events| && events[k].BeginSession?
    && var e := events[k];
       Begin(c, Run(c, journal, events[..k]), e.hello, e.now, e.journalFails).1 == Some((lease, generation))
  }

  /** Processes are counted upwards, and within a process so are its sessions. */
  predicate Later(g: State, h: State) {
    g.boot < h.boot || (g.boot == h.boot && g.begun <= h.begun)
  }

  lemma NextIsLater(c: GatewayConfig, g: State, e: Event)
    ensures Later(g, Next(c, g, e))
  {
    hide Accept, Reconciled, HelloValid;
    if e.Send? {
      AcceptWrites(c, g, e.frame, e.session, e.lease, e.generation, e.env);
    }
  }

  lemma {:induction false} RunIsLater(c: GatewayConfig, journal: Tables, events: seq<Event>, k: nat)
    requires k <= |events|
    ensures Later(Run(c, journal, events[..k]), Run(c, journal, events))
  {
    hide Next;
    if k < |events| {
      var before := events[..|events| - 1];
      RunIsLater(c, journal, before, k);
      assert before[..k] == events[..k];
      NextIsLater(c, Run(c, journal, before), events[|events| - 1]);
    } else {
      assert events[..k] == events;
    }
  }

  /** A granted session has the number of sessions that its process has begun as its generation. */
  lemma GrantedNumber(c: GatewayConfig, journal: Tables, events: seq<Event>, k: nat, lease: Text, generation: U64)
    requires FewSessions(c, journal, events) && GrantedAt(c, journal, events, k, lease, generation)
    ensures var g, h := Run(c, journal, events[..k]), Run(c, journal, events[..k + 1]);
            generation == h.begun == g.begun + 1 && h.boot == g.boot && !(g.activeLease != [] && events[k].now < g.activeUntil)
  {
    hide Run, HelloValid, InOrder;
    FewSessionsPrefix(c, journal, events, k + 1);
    RunIsFenced(c, journal, events[..k + 1]);
    RunStep(c, journal, events, k);
  }

  /**
   Two handlers of one process never coexist. If sessions were granted at steps `j` and `k` of one process, the
   earlier one was over when the later one began, and from then on it is not live at any time.
   */
  lemma OneHandlerAtATime(c: GatewayConfig, journal: Tables, events: seq<Event>, j: nat, k: nat,
                          lease: Text, generation: U64, other: Text, newer: U64, now: nat)
    requires FewSessions(c, journal, events) && j < k
    requires GrantedAt(c, journal, events, j, lease, generation) && GrantedAt(c, journal, events, k, other, newer)
    requires Run(c, journal, events[..j]).boot == Run(c, journal, events).boot
    ensures generation < newer && !SessionActive(Run(c, journal, events), lease, generation, now)
    ensures lease != [] ==> !SessionActive(Run(c, journal, events[..k]), lease, generation, events[k].now)
  {
    hide Run, HelloValid, InOrder, Begin, FewSessions;
    GrantedNumber(c, journal, events, j, lease, generation);
    GrantedNumber(c, journal, events, k, other, newer);
    RunIsFenced(c, journal, events);
    RunIsLater(c, journal, events, k + 1);
    RunIsLater(c, journal, events[..k], j + 1);
    assert events[..k][..j + 1] == events[..j + 1];
    RunIsLater(c, journal, events, j + 1);
  }
}
