/**
 The durable-ACK protocol (internal/ingest/gateway.go) as a state machine. Every operation that the
 source runs under its session mutex is one step; a crash may come between any two of them, and each
 step takes from its environment the clock, the disk and whatever fails.
 */
module Gateway {
  import opened Protocol
  import opened Digests
  import opened Cursor
  import opened Journal
  import opened Reconcile
  import W = Wal
  import D = Disk

  datatype Hello = Hello(
    producer: Text, session: Text, build: Text, provider: Text, feed: Text, broker: Text, symbol: Text, schema: Text)

  /** The configured dataset: an empty field matches anything. `lease` derives a session's lease identifier. */
  datatype GatewayConfig = GatewayConfig(ingest: IngestConfig, dataset: Hello, lease: Hello -> Text, policy: D.Policy)

  predicate Wanted(got: Text, want: Text) { want == [] || got == want }

  /** `validateHello` */
  predicate HelloValid(c: GatewayConfig, h: Hello) {
    && h.producer != [] && h.session != [] && h.symbol != [] && h.schema == SOURCE_SCHEMA_MT5
    && Wanted(h.producer, c.dataset.producer) && Wanted(h.build, c.dataset.build)
    && Wanted(h.provider, c.dataset.provider) && Wanted(h.feed, c.dataset.feed)
    && Wanted(h.broker, c.dataset.broker) && Wanted(h.symbol, c.dataset.symbol)
  }

  datatype Ack = Ack(
    session: Text, batchSequence: int, hash: Digest, ingestSequence: nat, status: AckStatus,
    cursorMsc: I64, boundary: Digest, nextFromMsc: I64, nextCount: U32)

  datatype Reply = Refused | Answer(ack: Ack, terminal: bool)

  /** Which process, and which session of it, wrote an entry. */
  datatype Writer = Writer(boot: nat, generation: int)

  /**
   The last five fields are history: how often the process has started, the sessions it has begun, who
   wrote each entry, who tried the append that failed, and the durable ACKs given out. No operation
   reads them.
   */
  datatype State = State(
    wal: W.State, journal: Tables,
    poisoned: bool, pendingSegments: nat, pendingBytes: nat,
    serving: bool,
    activeLease: Text, activeUntil: nat, activeGeneration: U64, nextGeneration: U64,
    boot: nat, begun: nat, writers: seq<Writer>, attempt: Option<Writer>, acks: seq<Ack>)

  /** A database file with any contents beside an empty WAL, before the first recovery. */
  function Initial(journal: Tables): State {
    State(W.State([], false, None), journal, false, 0, 0, false, [], 0, 0, 0, 0, 0, [], None, [])
  }

  datatype Env = Env(
    now: nat, wallS: I64, monotonicUs: U64, usageBefore: D.Usage, usageAfter: D.Usage,
    readFails: nat -> bool, faults: Faults, walFails: bool, syncHookFails: bool, applyFails: bool, commitHookFails: bool)

  // ---- Sessions ----

  predicate SessionActive(g: State, lease: Text, generation: U64, now: nat) {
    g.serving && g.activeLease == lease && g.activeGeneration == generation && now < g.activeUntil
  }

  /** The generation counter wraps around past zero. */
  function NextGeneration(n: U64): U64 {
    var next := (n + 1) % 0x1_0000_0000_0000_0000;
    if next == 0 then 1 else next
  }

  /** `releaseSession` */
  function Release(g: State, lease: Text, generation: U64): State {
    if g.activeLease == lease && g.activeGeneration == generation
    then g.(activeLease := [], activeUntil := 0, activeGeneration := 0)
    else g
  }

  /** `touchSession` */
  function Touch(c: GatewayConfig, g: State, lease: Text, generation: U64, now: nat): State {
    if g.serving && g.activeLease == lease && g.activeGeneration == generation
    then g.(activeUntil := now + c.ingest.leaseTimeout)
    else g
  }

  /** `startSession`: the lease and generation handed to the connection, or none. */
  function Begin(c: GatewayConfig, g: State, h: Hello, now: nat, journalFails: bool): (State, Option<(Text, U64)>) {
    if !HelloValid(c, h) || !g.serving || (g.activeLease != [] && now < g.activeUntil) then (g, None) else
    var lease, generation := c.lease(h), NextGeneration(g.nextGeneration);
    var started := g.(nextGeneration := generation, activeLease := lease, activeUntil := now + c.ingest.leaseTimeout,
                      activeGeneration := generation, begun := g.begun + 1);
    if journalFails || g.journal.state.None? then (Release(started, lease, generation), None)
    else (started, Some((lease, generation)))
  }

  // ---- Batches ----

  function AckFrom(r: Row, status: AckStatus): Ack {
    Ack(r.session, r.batchSequence, r.hash, r.ingestSequence, status, r.cursorMsc, r.boundary, r.nextFromMsc, r.nextCount)
  }

  function PlainAck(c: GatewayConfig, b: BatchFrame, ingestSequence: nat, status: AckStatus): Ack {
    Ack(b.sessionId, b.batchSequence, BatchHash(b), ingestSequence, status, 0, Zero, 0, WithDefaults(c.ingest).initialBatchCount)
  }

  /** The first WAL entry for a batch identity, as `findWALIdentity` scans for it. */
  function IndexOf(entries: seq<W.Entry>, key: RowKey): (i: int)
    ensures -1 <= i < |entries|
    ensures i >= 0 ==> KeyOf(entries[i].frame) == key
    ensures forall k :: 0 <= k < (if i < 0 then |entries| else i) ==> KeyOf(entries[k].frame) != key
  {
    if entries == [] then -1 else
    var before := IndexOf(entries[..|entries| - 1], key);
    if before >= 0 then before
    else if KeyOf(entries[|entries| - 1].frame) == key then |entries| - 1
    else -1
  }

  function Read(t: Tables, key: RowKey, fails: bool): Found {
    if fails then Unreadable else LookupIn(t, key)
  }

  /** History: remember the durable ACKs. */
  function Acked(g: State, a: Ack): State {
    g.(acks := g.acks + [a])
  }

  /** The batch has a row: a duplicate, or a conflict if its bytes differ. */
  function AnswerStored(g: State, b: BatchFrame, row: Row): (State, Reply) {
    if row.hash != BatchHash(b) then
      (g, Answer(AckFrom(row, SourceStateConflict).(session := b.sessionId, batchSequence := b.batchSequence, hash := BatchHash(b)), true))
    else
      var a := AckFrom(row, Duplicate);
      (Acked(g, a), Answer(a, false))
  }

  predicate ReadyForAck(c: GatewayConfig, g: State, u: D.Usage) {
    D.Ready(c.policy, u, g.pendingSegments, g.pendingBytes, g.poisoned)
  }

  /** The batch is in the WAL: the journal is next, and only then, if the disk still allows it, the ACK. */
  function Committed(c: GatewayConfig, g: State, b: BatchFrame, entry: W.Entry, outcome: Outcome, env: Env): (State, Reply) {
    var applied := ApplyTo(g.journal, entry, outcome);
    if env.applyFails || applied.None? then (g, Refused) else
    var done := g.(journal := applied.value);
    if env.commitHookFails then (done, Refused)
    else if !ReadyForAck(c, done, env.usageAfter) then
      (done, Answer(PlainAck(c, b, entry.sequence, RetryableError), false))
    else
      var a := AckFrom(RowFor(entry, outcome), outcome.status);
      (Acked(done, a), Answer(a, outcome.status == SourceStateConflict || outcome.status == SessionLeaseConflict))
  }

  /** The batch is new: WAL first, then journal, then the ACK. */
  function AcceptNew(c: GatewayConfig, g: State, b: BatchFrame, generation: U64, env: Env): (State, Reply) {
    if !ReadyForAck(c, g, env.usageBefore) then (g, Answer(PlainAck(c, b, 0, RetryableError), false))
    else if env.readFails(2) || g.journal.state.None? then (g, Refused)
    else
      var outcome := OutcomeFor(g.journal.state.value, b, c.ingest);
      var (wal, entry) := W.AppendTo(g.wal, b, env.wallS, env.monotonicUs, env.walFails);
      if entry.None? then
        var attempt := if g.wal.poisoned then g.attempt else Some(Writer(g.boot, generation));
        (g.(wal := wal, poisoned := true, attempt := attempt), Refused) else
      var logged := g.(wal := wal, writers := g.writers + [Writer(g.boot, generation)]);
      if env.syncHookFails then (logged.(poisoned := true), Refused) else
      Committed(c, logged, b, entry.value, outcome, env)
  }

  /** No row yet: the WAL may still know the batch, in which case the journal is rebuilt from it first. */
  ghost function AcceptUnindexed(c: GatewayConfig, g: State, b: BatchFrame, generation: U64, env: Env): (State, Reply) {
    var i := IndexOf(g.wal.entries, KeyOf(b));
    if i < 0 then AcceptNew(c, g, b, generation, env)
    else if g.wal.entries[i].batchHash != BatchHash(b) then (g, Answer(PlainAck(c, b, 0, SourceStateConflict), true))
    else
      var (journal, ok) := Reconciled(c.ingest, g.wal.entries, g.journal, env.faults);
      var rebuilt := g.(journal := journal);
      if !ok then (rebuilt, Refused) else
      match Read(journal, KeyOf(b), env.readFails(1))
      case Unreadable => (rebuilt, Refused)
      case Absent => AcceptNew(c, rebuilt, b, generation, env)
      case Present(row) => AnswerStored(rebuilt, b, row)
  }

  /** `acceptBatch` */
  ghost function Accept(c: GatewayConfig, g: State, b: BatchFrame, session: Text, lease: Text, generation: U64, env: Env)
    : (State, Reply)
  {
    if !SessionActive(g, lease, generation, env.now) then (g, Answer(PlainAck(c, b, 0, SessionLeaseConflict), true))
    else if |b.records| > c.ingest.maxRecords || b.requestedCount > c.ingest.maximumBatchCount then (g, Refused)
    else if b.sessionId != session || b.leaseId != lease then (g, Answer(PlainAck(c, b, 0, SessionLeaseConflict), true))
    else
      match Read(g.journal, KeyOf(b), env.readFails(0))
      case Unreadable => (g, Refused)
      case Present(row) => AnswerStored(g, b, row)
      case Absent => AcceptUnindexed(c, g, b, generation, env)
  }

  // ---- Restart ----

  /** The process dies. An append that had failed may turn out to be in the file after all. */
  function Crash(g: State, survives: bool): State {
    var wal := W.Reopened(g.wal, survives);
    g.(wal := wal, poisoned := false, pendingSegments := 0, pendingBytes := 0, serving := false,
       activeLease := [], activeUntil := 0, activeGeneration := 0, nextGeneration := 0,
       boot := g.boot + 1, begun := 0,
       writers := if |wal.entries| > |g.wal.entries| && g.attempt.Some? then g.writers + [g.attempt.value] else g.writers,
       attempt := None)
  }

  /** `Recover`: nothing is served before the journal agrees with the WAL. */
  ghost function Recover(c: GatewayConfig, g: State, faults: Faults): State {
    if g.serving then g else
    var (journal, ok) := Reconciled(c.ingest, g.wal.entries, g.journal, faults);
    g.(journal := journal, serving := ok)
  }

  // ---- Runs ----

  /** Handlers act only with the generation they were given, which is never zero. */
  type Granted = n: int | 0 < n <= MAX_U64 witness 1

  datatype Event =
    | BeginSession(hello: Hello, now: nat, journalFails: bool)
    | Send(frame: BatchFrame, session: Text, lease: Text, generation: Granted, env: Env)
    | TouchSession(lease: Text, generation: Granted, now: nat)
    | ReleaseSession(lease: Text, generation: Granted)
    | Backlog(segments: nat, bytes: nat)
    | Restart(survives: bool)
    | RecoverJournal(faults: Faults)

  ghost function Next(c: GatewayConfig, g: State, e: Event): State {
    match e
    case BeginSession(h, now, fails) => Begin(c, g, h, now, fails).0
    case Send(b, session, lease, generation, env) => Accept(c, g, b, session, lease, generation, env).0
    case TouchSession(lease, generation, now) => Touch(c, g, lease, generation, now)
    case ReleaseSession(lease, generation) => Release(g, lease, generation)
    case Backlog(segments, bytes) => g.(pendingSegments := segments, pendingBytes := bytes)
    case Restart(survives) => Crash(g, survives)
    case RecoverJournal(faults) => Recover(c, g, faults)
  }

  ghost function Run(c: GatewayConfig, journal: Tables, events: seq<Event>): State {
    if events == [] then Initial(journal)
    else Next(c, Run(c, journal, events[..|events| - 1]), events[|events| - 1])
  }
}
