/** The rebuildable index of the WAL (internal/journal/journal.go) and what it should hold. */
module Journal {
  import opened Protocol
  import opened Digests
  import opened Cursor
  import opened Counting
  import W = Wal

  type RowKey = (Text, int)

  datatype Row = BatchRow(
    session: Text, batchSequence: int, hash: Digest, ingestSequence: nat, status: AckStatus,
    cursorMsc: I64, boundary: Digest, nextFromMsc: I64, nextCount: U32, frame: BatchFrame)

  /** The two tables. A row or the state that fails its decoding checks is `None`. */
  datatype Tables = Tables(rows: map<RowKey, Option<Row>>, state: Option<CursorState>)

  datatype Found = Absent | Unreadable | Present(row: Row)

  function KeyOf(b: BatchFrame): RowKey { (b.sessionId, b.batchSequence) }

  /** SQLite integers are signed 64-bit. */
  predicate FitsSqlite(n: int) { n <= MAX_I64 }

  predicate Storable(e: W.Entry) { FitsSqlite(e.frame.batchSequence) && FitsSqlite(e.sequence) }

  function LookupIn(t: Tables, key: RowKey): Found {
    if !FitsSqlite(key.1) then Unreadable
    else if key !in t.rows then Absent
    else if t.rows[key].None? || !FitsSqlite(t.rows[key].value.ingestSequence) then Unreadable
    else Present(t.rows[key].value)
  }

  function RowFor(e: W.Entry, o: Outcome): Row {
    BatchRow(e.frame.sessionId, e.frame.batchSequence, e.batchHash, e.sequence, o.status, o.cursorMsc, o.boundary,
        o.nextFromMsc, o.nextCount, e.frame)
  }

  function StateFor(s: CursorState, e: W.Entry, o: Outcome): CursorState {
    Commit(s, o).(lastSequence := e.sequence, lastEntryHash := e.entryHash)
  }

  predicate SequenceTaken(t: Tables, sequence: int) {
    exists key :: key in t.rows && t.rows[key].Some? && t.rows[key].value.ingestSequence == sequence
  }

  /** `Apply`: one transaction that inserts the row and moves the state, or does nothing. */
  function ApplyTo(t: Tables, e: W.Entry, o: Outcome): Option<Tables> {
    if !Storable(e) || KeyOf(e.frame) in t.rows || SequenceTaken(t, e.sequence) || t.state.None? then None
    else Some(Tables(t.rows[KeyOf(e.frame) := Some(RowFor(e, o))], Some(StateFor(t.state.value, e, o))))
  }

  function EmptyTables(c: IngestConfig): Tables {
    Tables(map[], Some(InitialState(c)))
  }

  class Store {
    const config: IngestConfig
    var rows: map<RowKey, Option<Row>>
    var state: Option<CursorState>

    function View(): Tables
      reads this
    {
      Tables(rows, state)
    }

    /** A database file that may hold anything; `initialize` adds a missing state. */
    constructor (config: IngestConfig, rows: map<RowKey, Option<Row>>, state: Option<CursorState>)
      ensures this.config == config && View() == Tables(rows, state)
    {
      this.config, this.rows, this.state := config, rows, state;
    }

    method Lookup(session: Text, batchSequence: int) returns (found: Found)
      ensures found == LookupIn(View(), (session, batchSequence))
    {
      var key := (session, batchSequence);
      if !FitsSqlite(batchSequence) {
        return Unreadable;
      }
      if key !in rows {
        return Absent;
      }
      if rows[key].None? || !FitsSqlite(rows[key].value.ingestSequence) {
        return Unreadable;
      }
      return Present(rows[key].value);
    }

    method Count() returns (n: nat)
      ensures n == |View().rows|
    {
      return |rows|;
    }

    method Apply(e: W.Entry, o: Outcome, fails: bool) returns (stored: Option<Row>)
      modifies this`rows, this`state
      ensures var next := ApplyTo(old(View()), e, o);
              if fails || next.None? then stored == None && View() == old(View())
              else stored == Some(RowFor(e, o)) && View() == next.value
    {
      if !Storable(e) || fails {
        return None;
      }
      if KeyOf(e.frame) in rows || SequenceTaken(View(), e.sequence) || state.None? {
        return None;
      }
      var row := RowFor(e, o);
      rows := rows[KeyOf(e.frame) := Some(row)];
      state := Some(StateFor(state.value, e, o));
      return Some(row);
    }

    method Reset(fails: bool) returns (ok: bool)
      modifies this`rows, this`state
      ensures ok == !fails
      ensures View() == if ok then EmptyTables(config) else old(View())
    {
      if fails {
        return false;
      }
      rows := map[];
      state := Some(InitialState(config));
      return true;
    }
  }

  // ---- What the WAL says the tables should hold ----

  function FoldState(c: IngestConfig, entries: seq<W.Entry>): CursorState {
    if entries == [] then InitialState(c) else
    var before, e := FoldState(c, entries[..|entries| - 1]), entries[|entries| - 1];
    StateFor(before, e, OutcomeFor(before, e.frame, c))
  }

  /** The row of entry `i`: the answer its batch was due, given only the entries before it. */
  function RowAt(c: IngestConfig, entries: seq<W.Entry>, i: nat): Row
    requires i < |entries|
  {
    RowFor(entries[i], OutcomeFor(FoldState(c, entries[..i]), entries[i].frame, c))
  }

  function FoldRows(c: IngestConfig, entries: seq<W.Entry>): map<RowKey, Option<Row>> {
    if entries == [] then map[] else
    var n := |entries| - 1;
    FoldRows(c, entries[..n])[KeyOf(entries[n].frame) := Some(RowAt(c, entries, n))]
  }

  function TablesOf(c: IngestConfig, entries: seq<W.Entry>): Tables {
    Tables(FoldRows(c, entries), Some(FoldState(c, entries)))
  }

  function Keys(entries: seq<W.Entry>): (ks: seq<RowKey>)
    ensures |ks| == |entries| && forall i :: 0 <= i < |entries| ==> ks[i] == KeyOf(entries[i].frame)
  {
    seq(|entries|, i requires 0 <= i < |entries| => KeyOf(entries[i].frame))
  }

  /** No two entries are for the same batch of the same session. */
  ghost predicate UniqueIds(entries: seq<W.Entry>) {
    AllDistinct(Keys(entries))
  }

  lemma UniquePrefix(entries: seq<W.Entry>, n: nat)
    requires UniqueIds(entries) && n <= |entries|
    ensures UniqueIds(entries[..n])
  {
    assert Keys(entries[..n]) == Keys(entries)[..n];
  }

  predicate AllStorable(entries: seq<W.Entry>) {
    forall i :: 0 <= i < |entries| ==> Storable(entries[i])
  }

  lemma RowAtPrefix(c: IngestConfig, entries: seq<W.Entry>, n: nat, i: nat)
    requires i < n <= |entries|
    ensures RowAt(c, entries[..n], i) == RowAt(c, entries, i)
  {
    assert entries[..n][..i] == entries[..i];
  }

  lemma {:induction false} FoldKeys(c: IngestConfig, entries: seq<W.Entry>)
    ensures FoldRows(c, entries).Keys == Elements(Keys(entries))
  {
    hide RowAt;
    if entries != [] {
      var n := |entries| - 1;
      FoldKeys(c, entries[..n]);
      assert Keys(entries) == Keys(entries[..n]) + [KeyOf(entries[n].frame)];
    }
  }

  /** When no identity repeats, the folded table has one row per entry, its own. */
  lemma {:induction false} FoldRowsAt(c: IngestConfig, entries: seq<W.Entry>, i: nat)
    requires UniqueIds(entries) && i < |entries|
    ensures KeyOf(entries[i].frame) in FoldRows(c, entries)
    ensures FoldRows(c, entries)[KeyOf(entries[i].frame)] == Some(RowAt(c, entries, i))
  {
    hide RowAt;
    var n := |entries| - 1;
    if i < n {
      UniquePrefix(entries, n);
      FoldRowsAt(c, entries[..n], i);
      RowAtPrefix(c, entries, n, i);
      assert Keys(entries)[i] != Keys(entries)[n];
    }
  }

  lemma FoldSize(c: IngestConfig, entries: seq<W.Entry>)
    requires UniqueIds(entries)
    ensures |FoldRows(c, entries)| == |entries|
  {
    FoldKeys(c, entries);
    DistinctSize(Keys(entries));
    assert |FoldRows(c, entries)| == |FoldRows(c, entries).Keys|;
  }
}
