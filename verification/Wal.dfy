/** The write-ahead log (internal/wal/wal.go), unpruned: its first entry has sequence 1. */
module Wal {
  import opened Protocol
  import opened Digests

  datatype Entry = Entry(
    sequence: nat, wallS: I64, monotonicUs: U64, previous: Digest, frame: BatchFrame,
    batchHash: Digest, entryHash: Digest)

  function LastHash(entries: seq<Entry>): Digest {
    if entries == [] then Zero else entries[|entries| - 1].entryHash
  }

  /** The entry that `Append` writes after `entries`. */
  function NextEntry(entries: seq<Entry>, frame: BatchFrame, wallS: I64, monotonicUs: U64): Entry {
    var sequence, previous, batchHash := |entries| + 1, LastHash(entries), BatchHash(frame);
    Entry(sequence, wallS, monotonicUs, previous, frame, batchHash,
          WalEntryHash(sequence, previous, wallS, monotonicUs, batchHash, frame))
  }

  /** Entries numbered from 1, each hashed over its predecessor. */
  predicate Linked(entries: seq<Entry>) {
    entries == [] ||
    var before, e := entries[..|entries| - 1], entries[|entries| - 1];
    Linked(before) && e == NextEntry(before, e.frame, e.wallS, e.monotonicUs)
  }

  lemma {:induction false} LinkedAt(entries: seq<Entry>, i: nat)
    requires Linked(entries) && i < |entries|
    ensures entries[i].sequence == i + 1 && entries[i].batchHash == BatchHash(entries[i].frame)
    ensures entries[i].previous == LastHash(entries[..i])
  {
    if i < |entries| - 1 {
      LinkedAt(entries[..|entries| - 1], i);
      assert entries[..|entries| - 1][..i] == entries[..i];
    }
  }

  lemma LinkedExtend(entries: seq<Entry>, frame: BatchFrame, wallS: I64, monotonicUs: U64)
    requires Linked(entries)
    ensures Linked(entries + [NextEntry(entries, frame, wallS, monotonicUs)])
  {
    var e := NextEntry(entries, frame, wallS, monotonicUs);
    assert (entries + [e])[..|entries|] == entries;
  }

  /**
   What is in memory, and what an append that failed may have left in the file: after a failed write
   or sync the store is poisoned, and only reopening the file shows whether the entry is there.
   */
  datatype State = State(entries: seq<Entry>, poisoned: bool, unsynced: Option<Entry>)

  function AppendTo(s: State, frame: BatchFrame, wallS: I64, monotonicUs: U64, diskFails: bool): (State, Option<Entry>) {
    var e := NextEntry(s.entries, frame, wallS, monotonicUs);
    if s.poisoned then (s, None)
    else if diskFails then (s.(poisoned := true, unsynced := Some(e)), None)
    else (s.(entries := s.entries + [e]), Some(e))
  }

  /** `Start` on the same files: an unsynced entry is recovered whole, or its partial tail is cut off. */
  function Reopened(s: State, survives: bool): State {
    if survives && s.unsynced.Some? then State(s.entries + [s.unsynced.value], false, None)
    else State(s.entries, false, None)
  }

  class Store {
    var entries: seq<Entry>
    var poisoned: bool
    var unsynced: Option<Entry>

    function View(): State
      reads this
    {
      State(entries, poisoned, unsynced)
    }

    constructor ()
      ensures View() == State([], false, None)
    {
      entries, poisoned, unsynced := [], false, None;
    }

    method Append(frame: BatchFrame, wallS: I64, monotonicUs: U64, diskFails: bool) returns (entry: Option<Entry>)
      modifies this
      ensures (View(), entry) == AppendTo(old(View()), frame, wallS, monotonicUs, diskFails)
    {
      if poisoned {
        return None;
      }
      var sequence := |entries| + 1;
      var previous := LastHash(entries);
      var batchHash := BatchHash(frame);
      var entryHash := WalEntryHash(sequence, previous, wallS, monotonicUs, batchHash, frame);
      var next := Entry(sequence, wallS, monotonicUs, previous, frame, batchHash, entryHash);
      if diskFails {
        poisoned := true;
        unsynced := Some(next);
        return None;
      }
      entries := entries + [next];
      return Some(next);
    }

    method Reopen(survives: bool)
      modifies this
      ensures View() == Reopened(old(View()), survives)
    {
      if survives && unsynced.Some? {
        entries := entries + [unsynced.value];
      }
      poisoned, unsynced := false, None;
    }
  }
}
