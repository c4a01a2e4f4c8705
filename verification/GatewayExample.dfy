/** One run of the gateway in which two ACKs for one batch contradict each other. */
module GatewayExample {
  import opened Protocol
  import opened Digests
  import opened Counting
  import opened Cursor
  import opened Journal
  import opened Reconcile
  import opened Gateway
  import opened GatewaySafety
  import opened GatewayReplay
  import opened GatewayLag
  import W = Wal
  import D = Disk

  const HELLO: Hello := Hello([1], [1], [], [], [], [], [1], SOURCE_SCHEMA_MT5)

  function Config(): GatewayConfig {
    GatewayConfig(IngestConfig([1], 8, 0, 1, 8, 8, 10), Hello([], [], [], [], [], [], [], []), (h: Hello) => [1],
                  D.Policy(3, 2, 1, 0, 0))
  }

  /** Batch `sequence` of session [1], with one tick at `ms`. */
  function OneTick(sequence: U64, ms: I64): BatchFrame {
    BatchFrame([1], [1], sequence, 0, 1, 0, 0, 0, 0, 1, 0, 0, SOURCE_SCHEMA_MT5, [Tick(0, 0, 0, 0, 0, ms, 0, 0, 0)])
  }

  const FIRST: BatchFrame := OneTick(1, 2)
  const SECOND: BatchFrame := OneTick(2, 1)

  function Calm(): Faults { Faults(false, (k: nat) => false, false, (k: nat) => false) }

  function Weather(applyFails: bool): Env {
    Env(0, 0, 0, D.Usage(4, 4), D.Usage(4, 4), (k: nat) => false, Calm(), false, false, applyFails, false)
  }

  /**
   The gateway starts. The journal insert of the first batch fails, so that its connection is closed and its session
   released. The producer connects again, and its second batch is acknowledged. The process restarts, and the second
   batch is sent again.
   */
  function Events(): seq<Event> {
    [RecoverJournal(Calm()), BeginSession(HELLO, 0, false),
     Send(FIRST, [1], [1], 1, Weather(true)), ReleaseSession([1], 1),
     BeginSession(HELLO, 0, false), Send(SECOND, [1], [1], 2, Weather(false)),
     Restart(false), RecoverJournal(Calm()), BeginSession(HELLO, 0, false),
     Send(SECOND, [1], [1], 1, Weather(false))]
  }

  ghost function After(k: nat): State
    requires k <= 10
  {
    Run(Config(), EmptyTables(Config().ingest), Events()[..k])
  }

  lemma AfterStep(k: nat)
    requires k < 10
    ensures After(k + 1) == Next(Config(), After(k), Events()[k])
  {
    hide Next;
    assert Events()[..k + 1][..k] == Events()[..k];
  }

  // ---- Up to the first ACK ----

  /** A session has begun on an empty log. */
  function Begun(): State {
    Initial(EmptyTables(Config().ingest)).(serving := true, activeLease := [1], activeUntil := 10, activeGeneration := 1, nextGeneration := 1, begun := 1)
  }

  lemma EmptyRecovers(g: State)
    requires g == Initial(EmptyTables(Config().ingest))
    ensures Recover(Config(), g, Calm()) == g.(serving := true)
  {
    assert Matches(Config().ingest, [], g.journal);
  }

  lemma SessionBegins()
    ensures After(2) == Begun()
  {
    hide Reconciled;
    AfterStep(0);
    AfterStep(1);
    assert After(0) == Initial(EmptyTables(Config().ingest));
    EmptyRecovers(After(0));
  }

  function FirstEntry(): W.Entry { W.NextEntry([], FIRST, 0, 0) }

  function SecondEntry(): W.Entry { W.NextEntry([FirstEntry()], SECOND, 0, 0) }

  lemma FirstIsLogged()
    ensures After(3) == Logged(Begun(), FIRST, 1, Weather(true))
    ensures After(3).wal.entries == [FirstEntry()]
  {
    hide Accept, W.NextEntry;
    SessionBegins();
    AfterStep(2);
    FreshIsAnswered(Config(), Begun(), FIRST, [1], [1], 1, Weather(true));
    assert [] + [FirstEntry()] == [FirstEntry()];
  }

  /** The producer has connected again. */
  function Behind(): State {
    Logged(Begun(), FIRST, 1, Weather(true)).(activeGeneration := 2, nextGeneration := 2, begun := 2)
  }

  lemma ConnectsAgain()
    ensures After(5) == Behind() && Behind().wal.entries == [FirstEntry()]
  {
    hide Accept, W.NextEntry, Run;
    FirstIsLogged();
    AfterStep(3);
    AfterStep(4);
  }

  /** What the empty journal makes of the second batch. */
  lemma EarlyOutcome()
    ensures OutcomeFor(InitialState(Config().ingest), SECOND, Config().ingest).cursorMsc == 1
  {
    assert MaxTime(SECOND.records) == 1;
  }

  lemma SecondIsAcked()
    ensures After(6).wal == W.State([FirstEntry(), SecondEntry()], false, None)
    ensures |After(6).acks| == 1 && (After(6).acks[0].session, After(6).acks[0].batchSequence) == KeyOf(SECOND)
    ensures After(6).acks[0].cursorMsc == 1
    ensures |After(6).journal.rows| == 1
  {
    hide Accept, W.NextEntry, OutcomeFor, SOURCE_SCHEMA_MT5;
    ConnectsAgain();
    AfterStep(5);
    var g := After(5);
    NextFrame([], FIRST, 0, 0);
    NextFrame([FirstEntry()], SECOND, 0, 0);
    IndexSkips([], FirstEntry(), KeyOf(SECOND));
    assert [] + [FirstEntry()] == [FirstEntry()];
    var o := OutcomeFor(InitialState(Config().ingest), SECOND, Config().ingest);
    assert ApplyTo(g.journal, SecondEntry(), o).Some?;
    FreshIsAnswered(Config(), g, SECOND, [1], [1], 2, Weather(false));
    EarlyOutcome();
    assert [FirstEntry()] + [SecondEntry()] == [FirstEntry(), SecondEntry()];
  }

  // ---- After the restart ----

  lemma LogIsGood()
    ensures var es := [FirstEntry(), SecondEntry()];
            W.Linked(es) && UniqueIds(es) && AllStorable(es)
  {
    hide W.NextEntry;
    NextFrame([], FIRST, 0, 0);
    NextFrame([FirstEntry()], SECOND, 0, 0);
    assert W.Linked([]);
    W.LinkedExtend([], FIRST, 0, 0);
    assert [] + [FirstEntry()] == [FirstEntry()];
    W.LinkedExtend([FirstEntry()], SECOND, 0, 0);
    assert [FirstEntry()] + [SecondEntry()] == [FirstEntry(), SecondEntry()];
    assert Keys([FirstEntry(), SecondEntry()]) == [KeyOf(FIRST), KeyOf(SECOND)];
  }

  lemma JournalIsRebuilt()
    ensures var g := After(8);
            && g.wal == W.State([FirstEntry(), SecondEntry()], false, None) && g.acks == After(6).acks
            && g.journal == TablesOf(Config().ingest, g.wal.entries) && g.serving && g.activeLease == [] && g.nextGeneration == 0
  {
    hide Reconciled, TablesOf, Run, Calm, FirstEntry, SecondEntry, W.Linked, UniqueIds, AllStorable;
    SecondIsAcked();
    AfterStep(6);
    AfterStep(7);
    LogIsGood();
    var es, t := [FirstEntry(), SecondEntry()], After(6).journal;
    assert NoFaults(Calm(), 2) by { CalmIsCalm(); }
    ReconcileSucceedsIff(Config().ingest, es, t, Calm());
    SuccessfulReconcileIsTheFold(Config().ingest, es, t, Calm());
  }

  lemma CalmIsCalm()
    ensures NoFaults(Calm(), 2)
  {
  }

  lemma SessionBeginsAgain()
    ensures var g := After(9);
            && g.wal == W.State([FirstEntry(), SecondEntry()], false, None) && g.acks == After(6).acks
            && g.journal == TablesOf(Config().ingest, g.wal.entries) && SessionActive(g, [1], 1, 0)
  {
    hide Reconciled, TablesOf, Run, Calm, FirstEntry, SecondEntry;
    JournalIsRebuilt();
    AfterStep(8);
    FoldHasState(Config().ingest, [FirstEntry(), SecondEntry()]);
  }

  /** What the whole log makes of the second batch. */
  lemma LateOutcome()
    ensures RowAt(Config().ingest, [FirstEntry(), SecondEntry()], 1).cursorMsc == 2
    ensures RowAt(Config().ingest, [FirstEntry(), SecondEntry()], 1).hash == BatchHash(SECOND)
    ensures RowAt(Config().ingest, [FirstEntry(), SecondEntry()], 1).session == SECOND.sessionId
    ensures RowAt(Config().ingest, [FirstEntry(), SecondEntry()], 1).batchSequence == SECOND.batchSequence
  {
    hide W.NextEntry, BoundaryDigest;
    NextFrame([], FIRST, 0, 0);
    NextFrame([FirstEntry()], SECOND, 0, 0);
    var es := [FirstEntry(), SecondEntry()];
    assert es[..1] == [FirstEntry()] && [FirstEntry()][..0] == [];
    assert MaxTime(FIRST.records) == 2 && MaxTime(SECOND.records) == 1;
    assert FoldState(Config().ingest, []).cursorMsc == 0;
    assert FoldState(Config().ingest, es[..1]).cursorMsc == 2;
  }

  /** The same batch is acknowledged twice: once with a committed cursor of 1, and after the restart with 2. */
  lemma ContradictingAcks()
    ensures var acks := Run(Config(), EmptyTables(Config().ingest), Events()).acks;
            && |acks| == 2 && acks[0].session == acks[1].session && acks[0].batchSequence == acks[1].batchSequence
            && acks[0].cursorMsc == 1 && acks[1].cursorMsc == 2
  {
    hide W.NextEntry, TablesOf, RowAt, SOURCE_SCHEMA_MT5;
    SecondIsAcked();
    SessionBeginsAgain();
    LateOutcome();
    AfterStep(9);
    LogIsGood();
    var g := After(9);
    FoldHasState(Config().ingest, g.wal.entries);
    FoldRowsAt(Config().ingest, g.wal.entries, 1);
    RowSequence(Config().ingest, g.wal.entries, 1);
    NextFrame([FirstEntry()], SECOND, 0, 0);
    assert LookupIn(g.journal, KeyOf(SECOND)) == Present(RowAt(Config().ingest, g.wal.entries, 1));
    assert Events()[..10] == Events();
  }
}
