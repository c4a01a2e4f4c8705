/** The gateway object (internal/ingest/gateway.go): every method refines a step of the state machine. */
module GatewayServer {
  import opened Protocol
  import opened Digests
  import opened Cursor
  import opened Journal
  import opened Reconcile
  import opened Gateway
  import W = Wal
  import D = Disk

  /** The history fields of the state, which no operation reads. */
  datatype History = History(boot: nat, begun: nat, writers: seq<Writer>, attempt: Option<Writer>, acks: seq<Ack>)

  class Server {
    const config: GatewayConfig
    const wal: W.Store
    const journal: Store
    var disk: D.Machine
    var serving: bool
    var activeLease: Text
    var activeUntil: nat
    var activeGeneration: U64
    var nextGeneration: U64

    ghost var history: History

    ghost predicate Valid()
      reads this, disk
    {
      D.PolicyValid(config.policy) && disk.policy == config.policy && journal.config == config.ingest
    }

    ghost function View(): State
      reads this, wal, journal, disk
    {
      State(wal.View(), journal.View(), disk.poisoned, disk.state.pendingSegments, disk.state.pendingBytes, serving,
            activeLease, activeUntil, activeGeneration, nextGeneration,
            history.boot, history.begun, history.writers, history.attempt, history.acks)
    }

    /** `NewGateway` over a fresh WAL and a journal that may hold anything. */
    constructor (config: GatewayConfig, rows: map<RowKey, Option<Row>>, state: Option<CursorState>)
      requires D.PolicyValid(config.policy)
      ensures Valid() && this.config == config && View() == Initial(Tables(rows, state))
      ensures fresh(wal) && fresh(journal) && fresh(disk)
    {
      this.config := config;
      wal := new W.Store();
      journal := new Store(config.ingest, rows, state);
      disk := new D.Machine(config.policy);
      serving, activeLease, activeUntil, activeGeneration, nextGeneration := false, [], 0, 0, 0;
      history := History(0, 0, [], None, []);
    }

    method Recover(faults: Faults)
      requires Valid()
      modifies this`serving, journal`rows, journal`state
      ensures Valid() && View() == Gateway.Recover(config, old(View()), faults)
    {
      hide Reconciled;
      if serving {
        return;
      }
      serving := ReconcileJournal(journal, wal.entries, faults);
    }

    /** The process dies and comes up again on the same files. */
    method Restart(survives: bool)
      requires Valid()
      modifies this, wal
      ensures Valid() && fresh(disk) && View() == Crash(old(View()), survives)
    {
      hide W.Reopened, D.PolicyValid;
      ghost var before := wal.View();
      var machine := new D.Machine(config.policy);
      disk := machine;
      wal.Reopen(survives);
      ForgetSessions();
      ghost var recovered := |wal.View().entries| > |before.entries| && history.attempt.Some?;
      history := History(history.boot + 1, 0, if recovered then history.writers + [history.attempt.value] else history.writers, None, history.acks);
    }

    method ForgetSessions()
      modifies this`serving, this`activeLease, this`activeUntil, this`activeGeneration, this`nextGeneration
      ensures !serving && activeLease == [] && activeUntil == activeGeneration == nextGeneration == 0
    {
      serving, activeLease, activeUntil, activeGeneration, nextGeneration := false, [], 0, 0, 0;
    }

    method SetPendingPublication(segments: nat, bytes: nat, usage: D.Usage)
      requires Valid()
      modifies disk`state
      ensures Valid() && View() == old(View()).(pendingSegments := segments, pendingBytes := bytes)
    {
      disk.SetPendingPublication(segments, bytes, usage);
    }

    method StartSession(h: Hello, now: nat, journalFails: bool) returns (granted: Option<(Text, U64)>)
      requires Valid()
      modifies this`activeLease, this`activeUntil, this`activeGeneration, this`nextGeneration, this`history
      ensures Valid() && (View(), granted) == Begin(config, old(View()), h, now, journalFails)
    {
      hide HelloValid, NextGeneration;
      if !HelloValid(config, h) {
        return None;
      }
      var lease := config.lease(h);
      if !serving {
        return None;
      }
      if activeLease != [] && now < activeUntil {
        return None;
      }
      var generation := AdvanceGeneration();
      activeLease := lease;
      activeUntil := now + config.ingest.leaseTimeout;
      activeGeneration := generation;
      history := history.(begun := history.begun + 1);
      if journalFails || journal.state.None? {
        ReleaseSession(lease, generation);
        return None;
      }
      return Some((lease, generation));
    }

    method AdvanceGeneration() returns (generation: U64)
      modifies this`nextGeneration
      ensures generation == nextGeneration == NextGeneration(old(nextGeneration))
    {
      nextGeneration := (nextGeneration + 1) % 0x1_0000_0000_0000_0000;
      if nextGeneration == 0 {
        nextGeneration := nextGeneration + 1;
      }
      return nextGeneration;
    }

    method ReleaseSession(lease: Text, generation: U64)
      requires Valid()
      modifies this`activeLease, this`activeUntil, this`activeGeneration
      ensures Valid() && View() == Release(old(View()), lease, generation)
    {
      if activeLease == lease && activeGeneration == generation {
        activeLease, activeUntil, activeGeneration := [], 0, 0;
      }
    }

    method TouchSession(lease: Text, generation: U64, now: nat)
      requires Valid()
      modifies this`activeUntil
      ensures Valid() && View() == Touch(config, old(View()), lease, generation, now)
    {
      if serving && activeLease == lease && activeGeneration == generation {
        activeUntil := now + config.ingest.leaseTimeout;
      }
    }

    method FindWalIdentity(session: Text, sequence: int, hash: Digest) returns (found: bool, same: bool)
      ensures var i := IndexOf(wal.entries, (session, sequence));
              found == (i >= 0) && same == (i >= 0 && wal.entries[i].batchHash == hash)
    {
      var key := (session, sequence);
      for k := 0 to |wal.entries|
        invariant forall j :: 0 <= j < k ==> KeyOf(wal.entries[j].frame) != key
      {
        var entry := wal.entries[k];
        if KeyOf(entry.frame) == key {
          return true, entry.batchHash == hash;
        }
      }
      return false, false;
    }

    method AnswerFromRow(b: BatchFrame, row: Row) returns (reply: Reply)
      requires Valid()
      modifies this`history
      ensures Valid() && (View(), reply) == AnswerStored(old(View()), b, row)
    {
      var hash := BatchHash(b);
      if row.hash != hash {
        return Answer(Ack(b.sessionId, b.batchSequence, hash, row.ingestSequence, SourceStateConflict, row.cursorMsc,
                          row.boundary, row.nextFromMsc, row.nextCount), true);
      }
      var ack := AckFrom(row, Duplicate);
      history := history.(acks := history.acks + [ack]);
      return Answer(ack, false);
    }

    method AcceptNewBatch(b: BatchFrame, generation: U64, env: Env) returns (reply: Reply)
      requires Valid()
      modifies this`history, wal, journal`rows, journal`state, disk
      ensures Valid() && (View(), reply) == AcceptNew(config, old(View()), b, generation, env)
    {
      hide OutcomeFor, ApplyTo, W.NextEntry, RowFor, D.Ready;
      var ready := disk.ReadyForAck(env.usageBefore);
      if !ready {
        return Answer(PlainAck(config, b, 0, RetryableError), false);
      }
      if env.readFails(2) || journal.state.None? {
        return Refused;
      }
      var outcome := OutcomeForBatch(journal.state.value, b, config.ingest);
      ghost var wasPoisoned := wal.poisoned;
      var entry := wal.Append(b, env.wallS, env.monotonicUs, env.walFails);
      if entry.None? {
        disk.MarkPoisoned(env.usageAfter);
        if !wasPoisoned {
          history := history.(attempt := Some(Writer(history.boot, generation)));
        }
        return Refused;
      }
      history := history.(writers := history.writers + [Writer(history.boot, generation)]);
      if env.syncHookFails {
        disk.MarkPoisoned(env.usageAfter);
        return Refused;
      }
      reply := CommitAndAnswer(b, entry.value, outcome, env);
    }

    /** The second half of a new batch: journal commit, one more look at the disk, the ACK. */
    method CommitAndAnswer(b: BatchFrame, entry: W.Entry, outcome: Outcome, env: Env) returns (reply: Reply)
      requires Valid()
      modifies this`history, journal`rows, journal`state, disk`state
      ensures Valid() && (View(), reply) == Committed(config, old(View()), b, entry, outcome, env)
    {
      hide ApplyTo, RowFor, D.Ready;
      var stored := journal.Apply(entry, outcome, env.applyFails);
      if stored.None? || env.commitHookFails {
        return Refused;
      }
      var ready := disk.ReadyForAck(env.usageAfter);
      if !ready {
        return Answer(PlainAck(config, b, entry.sequence, RetryableError), false);
      }
      var ack := AckFrom(stored.value, outcome.status);
      history := history.(acks := history.acks + [ack]);
      return Answer(ack, outcome.status == SourceStateConflict || outcome.status == SessionLeaseConflict);
    }

    method AcceptBatch(b: BatchFrame, session: Text, lease: Text, generation: U64, env: Env) returns (reply: Reply)
      requires Valid()
      modifies this`history, wal, journal`rows, journal`state, disk
      ensures Valid() && (View(), reply) == Accept(config, old(View()), b, session, lease, generation, env)
    {
      hide AcceptNew, Reconciled, LookupIn, IndexOf, AnswerStored;
      if !(serving && activeLease == lease && activeGeneration == generation && env.now < activeUntil) {
        return Answer(PlainAck(config, b, 0, SessionLeaseConflict), true);
      }
      if |b.records| > config.ingest.maxRecords || b.requestedCount > config.ingest.maximumBatchCount {
        return Refused;
      }
      if b.sessionId != session || b.leaseId != lease {
        return Answer(PlainAck(config, b, 0, SessionLeaseConflict), true);
      }
      var stored := journal.Lookup(b.sessionId, b.batchSequence);
      if env.readFails(0) || stored.Unreadable? {
        return Refused;
      }
      if stored.Absent? {
        var found, same := FindWalIdentity(b.sessionId, b.batchSequence, BatchHash(b));
        if found {
          if !same {
            return Answer(PlainAck(config, b, 0, SourceStateConflict), true);
          }
          var ok := ReconcileJournal(journal, wal.entries, env.faults);
          if !ok {
            return Refused;
          }
          stored := journal.Lookup(b.sessionId, b.batchSequence);
          if env.readFails(1) || stored.Unreadable? {
            return Refused;
          }
        }
      }
      if stored.Present? {
        reply := AnswerFromRow(b, stored.row);
      } else {
        reply := AcceptNewBatch(b, generation, env);
      }
    }
  }
}
