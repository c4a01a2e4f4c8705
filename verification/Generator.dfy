/** The part generator (internal/parquet/generator.go): a streaming sink that cuts the rows of a day into parts. */
module Generators {
  import opened Protocol
  import opened Digests
  import opened Replay
  import opened PhysicalRows
  import opened Parts

  datatype Limits = Limits(maxRows: nat, maxBytes: nat)

  type Size = n: nat | 0 < n witness 1

  /** What the Parquet writer makes of a list of physical rows: a preimage for the file's SHA-256, and its length. */
  datatype Writer = Writer(content: seq<PhysicalRow> -> seq<Field>, size: seq<PhysicalRow> -> Size)

  function FileOf(w: Writer, rows: seq<PhysicalRow>): PartFile {
    PartFile(rows, Sha256(w.content(rows)), w.size(rows))
  }

  // ---- Rows of one part ----

  predicate Packable(rows: seq<ReplayRow>) {
    rows == [] || (Packable(rows[..|rows| - 1]) && RowValid(rows[|rows| - 1]) && rows[|rows| - 1].streamSequence < MAX_U64)
  }

  /** The physical rows that carry `rows` on from chain hash `start`. */
  function Packed(start: Digest, rows: seq<ReplayRow>): (ps: seq<PhysicalRow>)
    requires Packable(rows)
    ensures |ps| == |rows|
  {
    if rows == [] then [] else
    var n := |rows| - 1;
    Packed(start, rows[..n]) + [Physical(rows[n], ChainFrom(start, rows[..n])).value]
  }

  lemma PackedStep(start: Digest, rows: seq<ReplayRow>, row: ReplayRow)
    requires Packable(rows) && RowValid(row) && row.streamSequence < MAX_U64
    ensures Packable(rows + [row])
    ensures Packed(start, rows + [row]) == Packed(start, rows) + [Physical(row, ChainFrom(start, rows)).value]
  {
    hide RowValid, Physical;
    assert (rows + [row])[..|rows|] == rows;
  }

  /** The summary of a part with these rows. */
  function ArtifactFor(w: Writer, scope: ReplayScope, partSequence: nat, start: Digest, rows: seq<ReplayRow>): Artifact
    requires rows != [] && Packable(rows)
  {
    var f := FileOf(w, Packed(start, rows));
    var first, last := rows[0].streamSequence, rows[|rows| - 1].streamSequence;
    Artifact(partSequence, PartKey(scope.replayContractId, scope.conversionId, scope.dayDefinitionId, scope.date, first, last, f.sha),
             f.sha, f.bytes, |rows|, ByteTotal(rows), first, last,
             start, RowChainStep(first, start, rows[0]), ChainFrom(start, rows))
  }

  lemma PhysicalParts(row: ReplayRow, previous: Digest)
    requires RowValid(row) && row.streamSequence < MAX_U64
    ensures var p := Physical(row, previous);
            && p.Some? && p.value.streamSequence == row.streamSequence && p.value.previous == previous
            && p.value.chain == RowChainStep(row.streamSequence, previous, row) && p.value.scope == row.scope
  {
    hide RowValid;
  }

  lemma ScanPacked(s: Scan, row: ReplayRow, sequence: nat, scope: ReplayScope)
    requires RowValid(row) && row.streamSequence == sequence < MAX_U64 && row.scope == scope
    ensures ScanRow(s, Physical(row, s.previous).value, sequence, scope)
            == Some(Scan(RowChainStep(row.streamSequence, s.previous, row), s.total + CanonicalLength(row)))
  {
    hide RowValid, CanonicalLength, Canonical, RowChainStep, Physical, Logical, ScopeValid;
    PhysicalParts(row, s.previous);
    PhysicalRoundTrip(row, s.previous);
    SameStep(Logical(Physical(row, s.previous).value).value, row, s.previous);
  }

  /** What was packed scans cleanly. */
  lemma {:induction false} PackedScans(start: Digest, rows: seq<ReplayRow>, a: Artifact, scope: ReplayScope)
    requires Packable(rows) && StreamFrom(a.first, rows) && AllInScope(rows, scope) && a.previous == start
    ensures ScanRows(Packed(start, rows), a, scope) == Some(Scan(ChainFrom(start, rows), ByteTotal(rows)))
  {
    hide RowValid, CanonicalLength, RowChainStep, Physical, ScanRow;
    if rows != [] {
      var n := |rows| - 1;
      PackedScans(start, rows[..n], a, scope);
      ScanPacked(Scan(ChainFrom(start, rows[..n]), ByteTotal(rows[..n])), rows[n], a.first + n, scope);
      assert Packed(start, rows)[..n] == Packed(start, rows[..n]);
    }
  }

  /** The check after writing cannot fail. */
  lemma PackedVerifies(w: Writer, scope: ReplayScope, partSequence: nat, start: Digest, rows: seq<ReplayRow>)
    requires rows != [] && Packable(rows) && StreamFrom(rows[0].streamSequence, rows) && AllInScope(rows, scope) && ScopeValid(scope)
    requires partSequence == 0 ==> start == Zero
    ensures PartOk(FileOf(w, Packed(start, rows)), ArtifactFor(w, scope, partSequence, start, rows), scope)
  {
    hide ScopeValid, RowValid, RowChainStep, CanonicalLength, ScanRows, StreamFrom, ChainFrom, ByteTotal, AllInScope, Packable, Packed;
    var a := ArtifactFor(w, scope, partSequence, start, rows);
    PackedScans(start, rows, a, scope);
    StreamFromAt(a.first, rows, |rows| - 1);
    PackedEnds(start, rows);
  }

  lemma {:induction false} PackedEnds(start: Digest, rows: seq<ReplayRow>)
    requires rows != [] && Packable(rows)
    ensures var ps := Packed(start, rows);
            && ps[0].streamSequence == rows[0].streamSequence && ps[0].chain == RowChainStep(rows[0].streamSequence, start, rows[0])
            && ps[|ps| - 1].streamSequence == rows[|rows| - 1].streamSequence
  {
    hide RowValid, RowChainStep, Physical;
    var n := |rows| - 1;
    PhysicalParts(rows[n], ChainFrom(start, rows[..n]));
    if n > 0 {
      PackedEnds(start, rows[..n]);
      assert rows[..n][0] == rows[0];
    } else {
      assert rows[..0] == [];
    }
  }

  // ---- Cutting ----

  predicate WithinLimits(l: Limits, part: seq<ReplayRow>) {
    0 < |part| <= l.maxRows && ByteTotal(part) <= l.maxBytes
  }

  /** One more row would not fit. */
  predicate FullFor(l: Limits, part: seq<ReplayRow>, row: ReplayRow) {
    |part| >= l.maxRows || ByteTotal(part) + CanonicalLength(row) > l.maxBytes
  }

  predicate AllWithin(l: Limits, parts: seq<seq<ReplayRow>>) {
    forall i :: 0 <= i < |parts| ==> WithinLimits(l, parts[i])
  }

  predicate FullBefore(l: Limits, parts: seq<seq<ReplayRow>>, i: nat)
    requires 0 < i < |parts|
  {
    parts[i] != [] && FullFor(l, parts[i - 1], parts[i][0])
  }

  /** Every part was closed only because its successor's first row did not fit. */
  predicate Greedy(l: Limits, parts: seq<seq<ReplayRow>>) {
    forall i :: 0 < i < |parts| ==> FullBefore(l, parts, i)
  }

  function Concat(parts: seq<seq<ReplayRow>>): seq<ReplayRow> {
    if parts == [] then [] else Concat(parts[..|parts| - 1]) + parts[|parts| - 1]
  }

  lemma ConcatStep(parts: seq<seq<ReplayRow>>, part: seq<ReplayRow>)
    ensures Concat(parts + [part]) == Concat(parts) + part
  {
    assert (parts + [part])[..|parts|] == parts;
  }

  /** The summaries of the parts so far: each begins where the one before ended. */
  predicate Summaries(w: Writer, scope: ReplayScope, parts: seq<seq<ReplayRow>>, artifacts: seq<Artifact>) {
    |parts| == |artifacts| &&
    (parts == [] ||
     var n := |parts| - 1;
     && Summaries(w, scope, parts[..n], artifacts[..n]) && parts[n] != [] && Packable(parts[n])
     && parts[n][0].streamSequence == |Concat(parts[..n])| && StreamFrom(parts[n][0].streamSequence, parts[n])
     && AllInScope(parts[n], scope)
     && artifacts[n] == ArtifactFor(w, scope, n, ChainFrom(Zero, Concat(parts[..n])), parts[n]))
  }

  datatype Generated = Generated(parts: seq<Artifact>, rowCount: nat, canonicalBytes: nat, root: Digest)

  class Generator {
    const limits: Limits
    const scope: ReplayScope
    const writer: Writer
    var rows: seq<PhysicalRow>
    var replayRows: seq<ReplayRow>
    var chains: seq<Digest>
    var canonicalBytes: nat
    var rowCount: nat
    var rowChainRoot: Digest
    var parts: seq<Artifact>
    var closed: bool
    ghost var flushed: seq<seq<ReplayRow>>

    /** Every row written so far. */
    ghost function Written(): seq<ReplayRow>
      reads this
    {
      Concat(flushed) + replayRows
    }

    /** The chain hash at which the open part begins. */
    ghost function Start(): Digest
      reads this
    {
      ChainFrom(Zero, Concat(flushed))
    }

    ghost predicate ValidOpenPart()
      reads this
    {
      && ScopeValid(scope) && 0 < limits.maxRows && 0 < limits.maxBytes
      && Packable(replayRows) && rows == Packed(Start(), replayRows) && |chains| == |replayRows|
      && (replayRows != [] ==>
          && chains[0] == RowChainStep(replayRows[0].streamSequence, Start(), replayRows[0]) && chains[|chains| - 1] == rowChainRoot
          && replayRows[0].streamSequence == |Concat(flushed)| && WithinLimits(limits, replayRows))
      && rowChainRoot == ChainFrom(Start(), replayRows)
      && StreamFrom(|Concat(flushed)|, replayRows) && AllInScope(replayRows, scope)
      && rowCount == |Concat(flushed)| + |replayRows| && canonicalBytes == ByteTotal(replayRows)
    }

    /** All parts, with the open one as the last. */
    ghost function AllParts(): seq<seq<ReplayRow>>
      reads this
    {
      if replayRows == [] then flushed else flushed + [replayRows]
    }

    ghost predicate Valid()
      reads this
    {
      && ValidOpenPart() && Summaries(writer, scope, flushed, parts)
      && AllWithin(limits, flushed) && Greedy(limits, AllParts()) && (replayRows == [] && !closed ==> flushed == [])
      && |parts| <= MAX_U32 + 1
    }

    constructor (limits: Limits, scope: ReplayScope, writer: Writer)
      requires ScopeValid(scope) && 0 < limits.maxRows && 0 < limits.maxBytes
      ensures Valid() && !closed && Written() == [] && this.limits == limits && this.scope == scope && this.writer == writer
    {
      this.limits, this.scope, this.writer := limits, scope, writer;
      rows, replayRows, chains, canonicalBytes, rowCount, rowChainRoot, parts, closed := [], [], [], 0, 0, Zero, [], false;
      flushed := [];
    }

    /** `flushPart`: write the open part, check it, and start a new one. */
    method FlushPart(ioFails: bool) returns (ok: bool)
      requires Valid()
      modifies this
      ensures closed == old(closed) && Written() == old(Written())
      ensures rowCount == old(rowCount) && rowChainRoot == old(rowChainRoot)
      ensures ok == (old(replayRows) == [] || (|old(parts)| <= MAX_U32 && !ioFails))
      ensures !ok ==> Valid() && replayRows == old(replayRows) && flushed == old(flushed) && parts == old(parts)
      ensures ok ==> replayRows == [] && flushed == old(AllParts()) && ValidOpenPart() && Summaries(writer, scope, flushed, parts)
      ensures ok ==> AllWithin(limits, flushed) && Greedy(limits, flushed) && |parts| <= MAX_U32 + 1
    {
      hide ScopeValid, RowValid, RowChainStep, CanonicalLength, StreamFrom, ChainFrom, ByteTotal, Packed, Packable, Greedy,
           AllInScope, PartOk, Concat, AllWithin, WithinLimits, Summaries;
      if |rows| == 0 {
        return true;
      }
      if |parts| > MAX_U32 || ioFails {
        return false;
      }
      var artifact := WritePart();
      ghost var was := flushed;
      SummariesStep(writer, scope, flushed, parts, replayRows);
      AllWithinStep(limits, flushed, replayRows);
      ConcatStep(flushed, replayRows);
      ChainFromConcat(Zero, Concat(was), replayRows);
      flushed := flushed + [replayRows];
      parts := parts + [artifact];
      rows, replayRows, chains, canonicalBytes := [], [], [], 0;
      NothingPacked(Start(), |Concat(flushed)|, scope);
      assert Concat(flushed) + [] == Concat(flushed);
      return true;
    }

    /** `writeAndVerifyPart`, when the file system does not fail: the check of the written file passes. */
    method WritePart() returns (artifact: Artifact)
      requires Valid() && replayRows != []
      ensures artifact == ArtifactFor(writer, scope, |parts|, Start(), replayRows)
    {
      hide ScopeValid, RowValid, CanonicalLength, StreamFrom, ByteTotal, Packable, AllInScope, PartOk, Concat, Summaries, AllWithin, Greedy;
      var file := FileOf(writer, rows);
      PackedEnds(Start(), replayRows);
      NoFlushedNoHash(flushed);
      SummariesLength(writer, scope, flushed, parts);
      artifact := Artifact(
        |parts|,
        PartKey(scope.replayContractId, scope.conversionId, scope.dayDefinitionId, scope.date, rows[0].streamSequence,
                rows[|rows| - 1].streamSequence, file.sha),
        file.sha, file.bytes, |rows|, canonicalBytes, rows[0].streamSequence, rows[|rows| - 1].streamSequence,
        rows[0].previous, chains[0], chains[|chains| - 1]);
      PackedStart(Start(), replayRows);
      PackedVerifies(writer, scope, |parts|, Start(), replayRows);
      var ok := VerifyPartFile(file, artifact, scope);
      assert ok;
    }

    method WriteRow(row: ReplayRow, ioFails: bool) returns (ok: bool)
      requires Valid()
      modifies this
      ensures Valid() && closed == old(closed)
      ensures Written() == if ok then old(Written()) + [row] else old(Written())
      ensures ok ==> !closed && row.scope == scope && row.streamSequence == |old(Written())| && RowValid(row) && CanonicalLength(row) <= limits.maxBytes
      ensures !ioFails && |old(parts)| <= MAX_U32 ==>
                (ok <==> && !closed && row.scope == scope && row.streamSequence == |old(Written())| && RowValid(row)
                         && row.streamSequence < MAX_U64 && CanonicalLength(row) <= limits.maxBytes)
    {
      hide ScopeValid, RowValid, RowChainStep, CanonicalLength, StreamFrom, ChainFrom, ByteTotal, Packed, Packable, Greedy,
           AllInScope, Concat, Summaries, AllWithin, Physical;
      if closed || row.scope != scope || row.streamSequence != rowCount {
        return false;
      }
      var physical := Physical(row, rowChainRoot);
      PhysicalSome(row, rowChainRoot);
      if physical.None? {
        return false;
      }
      var rowBytes := CanonicalLength(row);
      if rowBytes > limits.maxBytes {
        return false;
      }
      if |rows| > 0 && (|rows| >= limits.maxRows || canonicalBytes > limits.maxBytes - rowBytes) {
        ghost var part := replayRows;
        var flushedOk := FlushPart(ioFails);
        if !flushedOk {
          return false;
        }
        AppendFirst(row, physical.value, part);
      } else {
        AppendMore(row, physical.value);
      }
      return true;
    }

    /** The row opens a new part. */
    method AppendFirst(row: ReplayRow, physical: PhysicalRow, ghost part: seq<ReplayRow>)
      requires ValidOpenPart() && Summaries(writer, scope, flushed, parts) && AllWithin(limits, flushed) && Greedy(limits, flushed)
      requires |parts| <= MAX_U32 + 1
      requires replayRows == [] && flushed != [] && part == flushed[|flushed| - 1] && FullFor(limits, part, row) && !closed
      requires Physical(row, rowChainRoot) == Some(physical) && row.streamSequence == rowCount && row.scope == scope
      requires CanonicalLength(row) <= limits.maxBytes
      modifies this
      ensures Valid() && closed == old(closed) && Written() == old(Written()) + [row]
    {
      hide ScopeValid, RowValid, RowChainStep, CanonicalLength, StreamFrom, ChainFrom, ByteTotal, Packed, Packable, Greedy,
           AllInScope, Concat, Summaries, AllWithin, Physical, FullFor;
      GreedyStep(limits, flushed, [row]);
      Append(row, physical);
      assert replayRows == [row];
    }

    /** The row joins the open part, or is the first of all. */
    method AppendMore(row: ReplayRow, physical: PhysicalRow)
      requires Valid() && !closed && (replayRows != [] ==> !FullFor(limits, replayRows, row))
      requires Physical(row, rowChainRoot) == Some(physical) && row.streamSequence == rowCount && row.scope == scope
      requires CanonicalLength(row) <= limits.maxBytes
      modifies this
      ensures Valid() && closed == old(closed) && Written() == old(Written()) + [row]
    {
      hide ScopeValid, RowValid, RowChainStep, CanonicalLength, StreamFrom, ChainFrom, ByteTotal, Packed, Packable, Greedy,
           AllInScope, Concat, Summaries, AllWithin, Physical;
      GreedyReplace(limits, flushed, replayRows, row);
      Append(row, physical);
    }

    /** The common end of `WriteRow`. */
    method Append(row: ReplayRow, physical: PhysicalRow)
      requires ValidOpenPart() && Physical(row, rowChainRoot) == Some(physical) && row.streamSequence == rowCount && row.scope == scope
      requires CanonicalLength(row) <= limits.maxBytes && (replayRows != [] ==> !FullFor(limits, replayRows, row))
      modifies this`rows, this`replayRows, this`chains, this`canonicalBytes, this`rowChainRoot, this`rowCount
      ensures ValidOpenPart() && replayRows == old(replayRows) + [row]
    {
      hide ScopeValid, RowValid, RowChainStep, CanonicalLength, StreamFrom, ChainFrom, ByteTotal, Packed, Packable, AllInScope, Concat, Physical;
      PhysicalSome(row, rowChainRoot);
      PhysicalParts(row, rowChainRoot);
      PackedStep(Start(), replayRows, row);
      ChainStep(Start(), replayRows, row);
      StreamStep(|Concat(flushed)|, replayRows, row);
      TotalsStep(replayRows, row, scope);
      NothingPacked(Start(), |Concat(flushed)|, scope);
      rows := rows + [physical];
      replayRows := replayRows + [row];
      chains := chains + [physical.chain];
      canonicalBytes := canonicalBytes + CanonicalLength(row);
      rowChainRoot := physical.chain;
      rowCount := rowCount + 1;
    }

    /** Flush the last part and report what has been written. */
    method Close(ioFails: bool) returns (result: Option<Generated>)
      requires Valid()
      modifies this
      ensures closed && Written() == old(Written())
      ensures result.Some? ==> Cut(limits, scope, writer, Written(), flushed, result.value)
      ensures !old(closed) && !ioFails && |old(parts)| <= MAX_U32 ==> result.Some?
    {
      hide ScopeValid, RowValid, RowChainStep, CanonicalLength, StreamFrom, ChainFrom, ByteTotal, Packed, Packable, Greedy,
           AllInScope, Concat, Summaries, AllWithin, WithinLimits;
      if closed {
        return None;
      }
      var ok := FlushPart(ioFails);
      closed := true;
      if !ok {
        return None;
      }
      var total := TotalBytes();
      NothingPacked(Start(), |Concat(flushed)|, scope);
      WrittenIsStream(writer, scope, flushed, parts);
      assert Concat(flushed) + [] == Concat(flushed);
      return Some(Generated(parts, rowCount, total, rowChainRoot));
    }

    method TotalBytes() returns (total: nat)
      requires Summaries(writer, scope, flushed, parts)
      ensures total == ByteTotal(Concat(flushed))
    {
      hide ScopeValid, RowValid, CanonicalLength, StreamFrom, ChainFrom, ByteTotal, Packed, Packable, AllInScope, Concat, Summaries;
      total := 0;
      SummariesLength(writer, scope, flushed, parts);
      TotalUpTo(writer, scope, flushed, parts, 0);
      for i := 0 to |parts|
        invariant total == ByteTotal(Concat(flushed[..i]))
      {
        TotalUpTo(writer, scope, flushed, parts, i + 1);
        total := total + parts[i].canonicalBytes;
      }
      assert flushed[..|flushed|] == flushed;
    }
  }

  /**
   What a closed generator has made of the rows written to it: parts that concatenate to exactly these rows, none
   empty, all within both limits, each full; their summaries; and the row count, byte count and chain root of the rows.
   */
  ghost predicate Cut(l: Limits, scope: ReplayScope, w: Writer, rows: seq<ReplayRow>, parts: seq<seq<ReplayRow>>, g: Generated) {
    && Concat(parts) == rows && StreamFrom(0, rows) && AllWithin(l, parts) && Greedy(l, parts)
    && Summaries(w, scope, parts, g.parts) && |g.parts| <= MAX_U32 + 1 && ScopeValid(scope)
    && g.rowCount == |rows| && g.canonicalBytes == ByteTotal(rows) && g.root == ChainFrom(Zero, rows)
  }

  // ---- Steps of the invariant ----

  lemma PhysicalSome(row: ReplayRow, previous: Digest)
    ensures Physical(row, previous).Some? <==> RowValid(row) && row.streamSequence < MAX_U64
  {
    hide RowValid;
  }

  lemma NothingPacked(start: Digest, first: nat, scope: ReplayScope)
    ensures Packable([]) && Packed(start, []) == [] && ChainFrom(start, []) == start && StreamFrom(first, [])
    ensures AllInScope([], scope) && ByteTotal([]) == 0
  {
  }

  lemma NoFlushedNoHash(flushed: seq<seq<ReplayRow>>)
    ensures flushed == [] ==> ChainFrom(Zero, Concat(flushed)) == Zero
  {
  }

  lemma SummariesLength(w: Writer, scope: ReplayScope, parts: seq<seq<ReplayRow>>, artifacts: seq<Artifact>)
    requires Summaries(w, scope, parts, artifacts)
    ensures |parts| == |artifacts|
  {
  }

  lemma PackedStart(start: Digest, rows: seq<ReplayRow>)
    requires rows != [] && Packable(rows)
    ensures Packed(start, rows)[0].previous == start
  {
    hide RowValid, Physical;
    var n := |rows| - 1;
    if n > 0 {
      PackedStart(start, rows[..n]);
    } else {
      assert rows[..0] == [];
      PhysicalParts(rows[0], ChainFrom(start, rows[..0]));
    }
  }

  lemma SummariesStep(w: Writer, scope: ReplayScope, parts: seq<seq<ReplayRow>>, artifacts: seq<Artifact>, part: seq<ReplayRow>)
    requires Summaries(w, scope, parts, artifacts) && part != [] && Packable(part)
    requires part[0].streamSequence == |Concat(parts)| && StreamFrom(part[0].streamSequence, part) && AllInScope(part, scope)
    ensures Summaries(w, scope, parts + [part], artifacts + [ArtifactFor(w, scope, |artifacts|, ChainFrom(Zero, Concat(parts)), part)])
  {
    hide ArtifactFor, Packable, StreamFrom, AllInScope, Concat, ChainFrom;
    SummariesLength(w, scope, parts, artifacts);
    var a := ArtifactFor(w, scope, |artifacts|, ChainFrom(Zero, Concat(parts)), part);
    assert (parts + [part])[..|parts|] == parts && (artifacts + [a])[..|artifacts|] == artifacts;
  }

  lemma AllWithinStep(l: Limits, parts: seq<seq<ReplayRow>>, part: seq<ReplayRow>)
    requires AllWithin(l, parts) && WithinLimits(l, part)
    ensures AllWithin(l, parts + [part])
  {
    hide WithinLimits;
  }

  lemma GreedyStep(l: Limits, parts: seq<seq<ReplayRow>>, part: seq<ReplayRow>)
    requires Greedy(l, parts) && parts != [] && part != [] && FullFor(l, parts[|parts| - 1], part[0])
    ensures Greedy(l, parts + [part])
  {
    hide FullFor;
    var all := parts + [part];
    forall i | 0 < i < |all| ensures FullBefore(l, all, i) {
      if i < |parts| {
        assert FullBefore(l, parts, i);
      }
    }
  }

  /** Adding a row to the last part, or opening the first, keeps the parts greedy. */
  lemma GreedyReplace(l: Limits, parts: seq<seq<ReplayRow>>, part: seq<ReplayRow>, row: ReplayRow)
    requires Greedy(l, if part == [] then parts else parts + [part]) && (part == [] ==> parts == [])
    ensures Greedy(l, parts + [part + [row]])
  {
    hide FullFor;
    var all := parts + [part + [row]];
    forall i | 0 < i < |all| ensures FullBefore(l, all, i) {
      assert FullBefore(l, parts + [part], i);
    }
  }

  lemma {:induction false} TotalUpTo(w: Writer, scope: ReplayScope, parts: seq<seq<ReplayRow>>, artifacts: seq<Artifact>, k: nat)
    requires Summaries(w, scope, parts, artifacts) && k <= |parts|
    ensures k == 0 ==> ByteTotal(Concat(parts[..k])) == 0
    ensures k > 0 ==> ByteTotal(Concat(parts[..k])) == ByteTotal(Concat(parts[..k - 1])) + artifacts[k - 1].canonicalBytes
    decreases |parts|
  {
    hide ByteTotal, Packable, StreamFrom, AllInScope, ChainFrom;
    if k == 0 {
      NothingPacked(Zero, 0, scope);
    } else if k < |parts| {
      var n := |parts| - 1;
      TotalUpTo(w, scope, parts[..n], artifacts[..n], k);
      assert parts[..n][..k] == parts[..k] && parts[..n][..k - 1] == parts[..k - 1];
    } else {
      assert parts[..k] == parts;
      TotalConcat(Concat(parts[..k - 1]), parts[k - 1]);
    }
  }

  lemma {:induction false} TotalConcat(a: seq<ReplayRow>, b: seq<ReplayRow>)
    ensures ByteTotal(a + b) == ByteTotal(a) + ByteTotal(b)
  {
    hide CanonicalLength;
    if b == [] {
      assert a + b == a;
    } else {
      TotalConcat(a, b[..|b| - 1]);
      assert (a + b)[..|a + b| - 1] == a + b[..|b| - 1];
    }
  }

  lemma {:induction false} WrittenIsStream(w: Writer, scope: ReplayScope, parts: seq<seq<ReplayRow>>, artifacts: seq<Artifact>)
    requires Summaries(w, scope, parts, artifacts)
    ensures StreamFrom(0, Concat(parts))
  {
    hide RowValid, ArtifactFor, Packable, AllInScope, ChainFrom;
    if parts != [] {
      var n := |parts| - 1;
      WrittenIsStream(w, scope, parts[..n], artifacts[..n]);
      StreamConcat(Concat(parts[..n]), parts[n]);
    }
  }
}
