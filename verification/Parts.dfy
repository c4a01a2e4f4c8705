/**
 Parts of a replay stream: the check of one part file (internal/parquet/generator.go), part manifests and the
 part-set root (internal/protocol/replay.go), and the checks made when a day's parts are put together
 (internal/archive/replay_manifest.go). A Parquet file stands for its list of physical rows.
 */
module Parts {
  import opened Protocol
  import opened Digests
  import opened Replay
  import opened PhysicalRows

  /** The bytes of "ticks-parquet-v1". */
  const REPLAY_FORMAT: Text :=
    [0x74, 0x69, 0x63, 0x6b, 0x73, 0x2d, 0x70, 0x61, 0x72, 0x71, 0x75, 0x65, 0x74, 0x2d, 0x76, 0x31]

  datatype PartKey = PartKey(contract: Text, conversion: Text, dayDefinition: Text, date: Text, first: nat, last: nat, sha: Digest)

  datatype PartFile = PartFile(rows: seq<PhysicalRow>, sha: Digest, bytes: nat)

  datatype Artifact = Artifact(
    partSequence: nat, key: PartKey, sha: Digest, bytes: nat, rowCount: nat, canonicalBytes: nat,
    first: nat, last: nat, previous: Digest, firstHash: Digest, lastHash: Digest)

  /** `ReplayPartObjectKey` */
  function ObjectKeyFor(scope: ReplayScope, first: nat, last: nat, sha: Digest): Option<PartKey> {
    if !ScopeValid(scope) || sha == Zero || last < first then None
    else Some(PartKey(scope.replayContractId, scope.conversionId, scope.dayDefinitionId, scope.date, first, last, sha))
  }

  // ---- One part file ----

  function ByteTotal(rows: seq<ReplayRow>): nat {
    if rows == [] then 0 else ByteTotal(rows[..|rows| - 1]) + CanonicalLength(rows[|rows| - 1])
  }

  /** Where the row loop stands: the chain hash and the canonical bytes so far. */
  datatype Scan = Scan(previous: Digest, total: nat)

  /** What the loop checks of one physical row. */
  function ScanRow(s: Scan, p: PhysicalRow, sequence: nat, scope: ReplayScope): Option<Scan> {
    var row := Logical(p);
    if sequence > MAX_U64 || p.streamSequence != sequence || p.previous != s.previous || row.None?
       || row.value.scope != scope || !RowValid(row.value)
       || p.chain != RowChainStep(p.streamSequence, s.previous, row.value) then None
    else Some(Scan(p.chain, s.total + CanonicalLength(row.value)))
  }

  function ScanRows(rows: seq<PhysicalRow>, a: Artifact, scope: ReplayScope): Option<Scan> {
    if rows == [] then Some(Scan(a.previous, 0)) else
    var n := |rows| - 1;
    var before := ScanRows(rows[..n], a, scope);
    if before.None? then None else ScanRow(before.value, rows[n], a.first + n, scope)
  }

  /** What `VerifyPartFile` accepts. */
  predicate PartOk(f: PartFile, a: Artifact, scope: ReplayScope) {
    && ScopeValid(scope) && f.sha == a.sha && f.bytes == a.bytes && ObjectKeyFor(scope, a.first, a.last, f.sha) == Some(a.key)
    && |f.rows| == a.rowCount && f.rows != [] && (a.partSequence == 0 ==> a.previous == Zero)
    && f.rows[0].streamSequence == a.first && f.rows[|f.rows| - 1].streamSequence == a.last && f.rows[0].chain == a.firstHash
    && ScanRows(f.rows, a, scope) == Some(Scan(a.lastHash, a.canonicalBytes))
  }

  lemma {:induction false} ScanStops(rows: seq<PhysicalRow>, more: seq<PhysicalRow>, a: Artifact, scope: ReplayScope)
    requires ScanRows(rows, a, scope).None?
    ensures ScanRows(rows + more, a, scope).None?
  {
    hide ScanRow;
    if more == [] {
      assert rows + more == rows;
    } else {
      ScanStops(rows, more[..|more| - 1], a, scope);
      assert (rows + more)[..|rows + more| - 1] == rows + more[..|more| - 1];
    }
  }

  method VerifyPartFile(f: PartFile, a: Artifact, scope: ReplayScope) returns (ok: bool)
    ensures ok == PartOk(f, a, scope)
  {
    hide ScanRow, ScopeValid;
    if !ScopeValid(scope) {
      return false;
    }
    var key := ObjectKeyFor(scope, a.first, a.last, f.sha);
    if key.None? || f.sha != a.sha || f.bytes != a.bytes || a.key != key.value {
      return false;
    }
    if |f.rows| != a.rowCount || |f.rows| == 0 {
      return false;
    }
    if a.partSequence == 0 && a.previous != Zero {
      return false;
    }
    var scan := Scan(a.previous, 0);
    for index := 0 to |f.rows|
      invariant ScanRows(f.rows[..index], a, scope) == Some(scan)
    {
      assert f.rows[..index + 1][..index] == f.rows[..index];
      var next := ScanPhysicalRow(scan, f.rows[index], a.first + index, scope);
      if next.None? {
        ScanStops(f.rows[..index + 1], f.rows[index + 1..], a, scope);
        assert f.rows == f.rows[..index + 1] + f.rows[index + 1..];
        return false;
      }
      scan := next.value;
    }
    assert f.rows[..|f.rows|] == f.rows;
    return f.rows[0].streamSequence == a.first && f.rows[|f.rows| - 1].streamSequence == a.last
           && scan == Scan(a.lastHash, a.canonicalBytes) && f.rows[0].chain == a.firstHash;
  }

  /** The loop body. */
  method ScanPhysicalRow(s: Scan, p: PhysicalRow, sequence: nat, scope: ReplayScope) returns (next: Option<Scan>)
    ensures next == ScanRow(s, p, sequence, scope)
  {
    hide RowValid, RowChainStep;
    if sequence > MAX_U64 || p.streamSequence != sequence {
      return None;
    }
    if p.previous != s.previous {
      return None;
    }
    var row := Logical(p);
    if row.None? || row.value.scope != scope || !RowValid(row.value) {
      return None;
    }
    var hash := RowChainStep(p.streamSequence, s.previous, row.value);
    if p.chain != hash {
      return None;
    }
    return Some(Scan(hash, s.total + CanonicalLength(row.value)));
  }

  /** The replay rows of a part file, in order. */
  function Unpacked(rows: seq<PhysicalRow>): Option<seq<ReplayRow>> {
    if rows == [] then Some([]) else
    var before, row := Unpacked(rows[..|rows| - 1]), Logical(rows[|rows| - 1]);
    if before.None? || row.None? then None else Some(before.value + [row.value])
  }

  predicate AllInScope(rows: seq<ReplayRow>, scope: ReplayScope) {
    rows == [] || (AllInScope(rows[..|rows| - 1], scope) && rows[|rows| - 1].scope == scope)
  }

  lemma ChainStep(start: Digest, rows: seq<ReplayRow>, row: ReplayRow)
    ensures ChainFrom(start, rows + [row]) == RowChainStep(row.streamSequence, ChainFrom(start, rows), row)
  {
    assert (rows + [row])[..|rows|] == rows;
  }

  lemma StreamStep(first: nat, rows: seq<ReplayRow>, row: ReplayRow)
    requires StreamFrom(first, rows)
    ensures StreamFrom(first, rows + [row]) <==> row.streamSequence == first + |rows| && RowValid(row)
  {
    hide RowValid;
    assert (rows + [row])[..|rows|] == rows;
  }

  lemma TotalsStep(rows: seq<ReplayRow>, row: ReplayRow, scope: ReplayScope)
    ensures ByteTotal(rows + [row]) == ByteTotal(rows) + CanonicalLength(row)
    ensures AllInScope(rows + [row], scope) <==> AllInScope(rows, scope) && row.scope == scope
  {
    hide CanonicalLength;
    assert (rows + [row])[..|rows|] == rows;
  }

  /** The row loop establishes a stream in the right scope whose chain runs from the part's first anchor to the hash it ends in. */
  lemma {:induction false} ScanMeans(rows: seq<PhysicalRow>, a: Artifact, scope: ReplayScope)
    requires ScanRows(rows, a, scope).Some?
    ensures Unpacked(rows).Some?
    ensures var rs := Unpacked(rows).value;
            && |rs| == |rows| && StreamFrom(a.first, rs) && AllInScope(rs, scope)
            && ScanRows(rows, a, scope).value == Scan(ChainFrom(a.previous, rs), ByteTotal(rs))
  {
    hide RowValid, RowChainStep, CanonicalLength, Logical, StreamFrom, ChainFrom, ByteTotal, AllInScope;
    if rows == [] {
      NoRows(a, scope);
    } else {
      var n := |rows| - 1;
      ScanMeans(rows[..n], a, scope);
      var before, row := Unpacked(rows[..n]).value, Logical(rows[n]).value;
      LogicalSequence(rows[n]);
      ChainStep(a.previous, before, row);
      StreamStep(a.first, before, row);
      TotalsStep(before, row, scope);
    }
  }

  lemma NoRows(a: Artifact, scope: ReplayScope)
    ensures StreamFrom(a.first, []) && AllInScope([], scope) && ChainFrom(a.previous, []) == a.previous && ByteTotal([]) == 0
  {
  }

  lemma LogicalSequence(p: PhysicalRow)
    requires Logical(p).Some?
    ensures Logical(p).value.streamSequence == p.streamSequence
  {
  }

  // ---- Part manifests ----

  datatype Conversion = Conversion(
    contract: Text, format: Text, conversion: Text, build: Text, lockHash: Digest, writerHash: Digest, platform: Text)

  datatype PartManifest = PartManifest(
    scope: ReplayScope, conversion: Conversion, artifact: Artifact, predecessor: Option<Digest>, sha: Digest)

  /** `PartManifest.Validate` */
  predicate ManifestValid(p: PartManifest) {
    var a, c := p.artifact, p.conversion;
    && a.sha != Zero && a.bytes != 0 && a.rowCount != 0 && a.firstHash != Zero && a.lastHash != Zero && ScopeValid(p.scope)
    && IsName(c.build) && IsName(c.platform) && c.format == REPLAY_FORMAT && c.lockHash != Zero && c.writerHash != Zero
    && c.contract == p.scope.replayContractId && c.conversion == p.scope.conversionId
    && a.first <= a.last && a.canonicalBytes != 0 && a.last - a.first == a.rowCount - 1
    && ObjectKeyFor(p.scope, a.first, a.last, a.sha) == Some(a.key)
    && (if a.partSequence == 0 then p.predecessor.None? && a.previous == Zero
        else p.predecessor.Some? && p.predecessor.value != Zero && a.previous != Zero)
  }

  function ArtifactFields(a: Artifact): seq<Field> {
    [FU32(a.partSequence), Str(a.key.contract), Str(a.key.conversion), Str(a.key.dayDefinition), Str(a.key.date), FU64(a.key.first),
     FU64(a.key.last), Hash(a.key.sha), Hash(a.sha), FU64(a.bytes), FU64(a.rowCount), FU64(a.canonicalBytes), FU64(a.first),
     FU64(a.last), Hash(a.previous), Hash(a.firstHash), Hash(a.lastHash)]
  }

  /** `PartManifestDigest`: over every field but the digest itself. */
  function PartDigest(p: PartManifest): Digest {
    var s, c := p.scope, p.conversion;
    Sha256([Tag(PartManifestDomain), Str(s.datasetId), Str(s.dayDefinitionId), Str(s.date), Str(s.replayContractId),
            Str(s.conversionId), Str(s.rawManifestKey), Hash(s.rawManifestSha), Str(c.format), Str(c.build), Hash(c.lockHash),
            Hash(c.writerHash), Str(c.platform), Hash(if p.predecessor.Some? then p.predecessor.value else Zero)]
           + ArtifactFields(p.artifact))
  }

  /** `strictPartDigest` succeeds. */
  predicate Strict(p: PartManifest) {
    ManifestValid(p) && (p.sha == Zero || p.sha == PartDigest(p))
  }

  predicate ConversionOk(scope: ReplayScope, c: Conversion) {
    && c.contract == scope.replayContractId && c.conversion == scope.conversionId && c.format == REPLAY_FORMAT
    && c.build != [] && c.platform != [] && c.lockHash != Zero && c.writerHash != Zero
  }

  /** `validateArtifactSummary` */
  predicate SummaryOk(scope: ReplayScope, a: Artifact) {
    && ObjectKeyFor(scope, a.first, a.last, a.sha) == Some(a.key) && a.sha != Zero
    && a.bytes != 0 && a.rowCount != 0 && a.canonicalBytes != 0
    && a.first <= a.last && a.last - a.first == a.rowCount - 1 && a.firstHash != Zero && a.lastHash != Zero
    && (a.partSequence == 0 ==> a.first == 0) && (a.partSequence > 0 ==> a.previous != Zero)
  }

  /** `BuildPartManifest` */
  function BuildPart(scope: ReplayScope, c: Conversion, a: Artifact, previous: Option<PartManifest>): Option<PartManifest> {
    if !ScopeValid(scope) || !ConversionOk(scope, c) || !SummaryOk(scope, a) then None
    else if a.partSequence == 0 && (previous.Some? || a.previous != Zero) then None
    else if a.partSequence != 0 &&
            !(previous.Some? && previous.value.artifact.partSequence != MAX_U32
              && previous.value.artifact.partSequence + 1 == a.partSequence && Strict(previous.value)
              && previous.value.scope == scope && previous.value.conversion == c
              && a.previous == previous.value.artifact.lastHash) then None
    else
      var p := PartManifest(scope, c, a, if a.partSequence == 0 then None else Some(PartDigest(previous.value)), Zero);
      if !ManifestValid(p) then None else Some(p.(sha := PartDigest(p)))
  }

  // ---- The parts of a day ----

  /** Part `b` directly continues part `a`. */
  predicate Continues(a: PartManifest, b: PartManifest) {
    && b.predecessor == Some(PartDigest(a)) && b.artifact.previous == a.artifact.lastHash
    && a.artifact.last != MAX_U64 && b.artifact.first == a.artifact.last + 1
  }

  /** The checks of `PartSetRoot` on the first `n` parts. */
  predicate SetOk(parts: seq<PartManifest>, n: nat)
    requires n <= |parts|
  {
    n == 0 ||
    var p := parts[n - 1];
    && SetOk(parts, n - 1) && ManifestValid(p) && p.artifact.partSequence == n - 1
    && p.scope == parts[0].scope && p.conversion == parts[0].conversion
    && (if n == 1 then p.artifact.first == 0 && p.artifact.previous == Zero else Continues(parts[n - 2], p))
  }

  function SetFields(parts: seq<PartManifest>): seq<Field> {
    if parts == [] then [] else
    var p := parts[|parts| - 1];
    SetFields(parts[..|parts| - 1]) + [FU32(p.artifact.partSequence), Hash(PartDigest(p)), FU64(p.artifact.first), FU64(p.artifact.last)]
  }

  function SetRoot(parts: seq<PartManifest>): Option<Digest> {
    if parts == [] then Some(Zero)
    else if !SetOk(parts, |parts|) then None
    else Some(Sha256([Tag(PartSet), FU32(|parts|)] + SetFields(parts)))
  }

  lemma {:induction false} SetOkStops(parts: seq<PartManifest>, n: nat, k: nat)
    requires n <= k <= |parts| && !SetOk(parts, n)
    ensures !SetOk(parts, k)
  {
    hide ManifestValid, Continues;
    if n < k {
      SetOkStops(parts, n, k - 1);
    }
  }

  method PartSetRoot(parts: seq<PartManifest>) returns (root: Option<Digest>)
    ensures root == SetRoot(parts)
  {
    hide ManifestValid, PartDigest;
    if |parts| == 0 {
      return Some(Zero);
    }
    var fields: seq<Field> := [];
    for i := 0 to |parts|
      invariant SetOk(parts, i) && fields == SetFields(parts[..i])
    {
      assert parts[..i + 1][..i] == parts[..i];
      var part := parts[i];
      if !ManifestValid(part) || part.artifact.partSequence != i
         || (i > 0 && (part.scope != parts[0].scope || part.conversion != parts[0].conversion)) {
        SetOkStops(parts, i + 1, |parts|);
        return None;
      }
      var digest := PartDigest(part);
      if i > 0 {
        var before := parts[i - 1];
        if part.predecessor != Some(PartDigest(before)) || part.artifact.previous != before.artifact.lastHash
           || before.artifact.last == MAX_U64 || part.artifact.first != before.artifact.last + 1 {
          SetOkStops(parts, i + 1, |parts|);
          return None;
        }
      } else if part.artifact.first != 0 || part.artifact.previous != Zero {
        SetOkStops(parts, i + 1, |parts|);
        return None;
      }
      fields := fields + [FU32(part.artifact.partSequence), Hash(digest), FU64(part.artifact.first), FU64(part.artifact.last)];
    }
    assert parts[..|parts|] == parts;
    return Some(Sha256([Tag(PartSet), FU32(|parts|)] + fields));
  }

  /** The checks of `validatePartSet` on the first `n` parts. */
  predicate DayOk(parts: seq<PartManifest>, scope: ReplayScope, c: Conversion, n: nat)
    requires n <= |parts|
  {
    n == 0 ||
    var p := parts[n - 1];
    && DayOk(parts, scope, c, n - 1) && Strict(p) && p.artifact.partSequence == n - 1 && p.scope == scope && p.conversion == c
    && (if n == 1 then p.artifact.first == 0 && p.predecessor.None? && p.artifact.previous == Zero else Continues(parts[n - 2], p))
  }

  lemma {:induction false} DayOkStops(parts: seq<PartManifest>, scope: ReplayScope, c: Conversion, n: nat, k: nat)
    requires n <= k <= |parts| && !DayOk(parts, scope, c, n)
    ensures !DayOk(parts, scope, c, k)
  {
    hide Strict, Continues;
    if n < k {
      DayOkStops(parts, scope, c, n, k - 1);
    }
  }

  /** The day's own checks include those of the root. */
  lemma {:induction false} DayOkIsSetOk(parts: seq<PartManifest>, scope: ReplayScope, c: Conversion, n: nat)
    requires n <= |parts| && DayOk(parts, scope, c, n)
    ensures SetOk(parts, n) && (n > 0 ==> parts[0].scope == scope && parts[0].conversion == c)
  {
    hide ManifestValid, Continues, PartDigest;
    if n > 0 {
      DayOkIsSetOk(parts, scope, c, n - 1);
    }
  }

  method ValidatePartSet(parts: seq<PartManifest>, scope: ReplayScope, c: Conversion) returns (root: Option<Digest>)
    ensures root == if DayOk(parts, scope, c, |parts|) then SetRoot(parts) else None
    ensures DayOk(parts, scope, c, |parts|) ==> root.Some?
  {
    hide ManifestValid, PartDigest, SetOk, Strict;
    var previousLast := 0;
    for index := 0 to |parts|
      invariant DayOk(parts, scope, c, index) && (index > 0 ==> previousLast == parts[index - 1].artifact.last)
    {
      var part := parts[index];
      if !Strict(part) || part.artifact.partSequence != index || part.scope != scope || part.conversion != c {
        DayOkStops(parts, scope, c, index + 1, |parts|);
        return None;
      }
      if index == 0 {
        if part.artifact.first != 0 || part.predecessor != None || part.artifact.previous != Zero {
          DayOkStops(parts, scope, c, index + 1, |parts|);
          return None;
        }
      } else {
        if previousLast == MAX_U64 || part.artifact.first != previousLast + 1 || part.predecessor == None
           || part.artifact.previous != parts[index - 1].artifact.lastHash
           || part.predecessor.value != PartDigest(parts[index - 1]) {
          DayOkStops(parts, scope, c, index + 1, |parts|);
          return None;
        }
      }
      previousLast := part.artifact.last;
    }
    DayOkIsSetOk(parts, scope, c, |parts|);
    root := PartSetRoot(parts);
  }

  // ---- Local checks compose ----

  /** All rows of the first `n` files. */
  function AllRows(files: seq<PartFile>, n: nat): Option<seq<ReplayRow>>
    requires n <= |files|
  {
    if n == 0 then Some([]) else
    var before, here := AllRows(files, n - 1), Unpacked(files[n - 1].rows);
    if before.None? || here.None? then None else Some(before.value + here.value)
  }

  lemma {:induction false} StreamConcat(left: seq<ReplayRow>, right: seq<ReplayRow>)
    requires StreamFrom(0, left) && StreamFrom(|left|, right)
    ensures StreamFrom(0, left + right)
  {
    hide RowValid;
    if right == [] {
      assert left + right == left;
    } else {
      var n := |right| - 1;
      StreamConcat(left, right[..n]);
      assert (left + right)[..|left| + n] == left + right[..n];
    }
  }

  /**
   If every part file passes its own check against its manifest, and the manifests pass the part-set checks, then the
   concatenated rows are the stream 0, 1, 2, … and their chain root is the last part's last hash.
   */
  lemma {:induction false} LocalChecksCompose(parts: seq<PartManifest>, files: seq<PartFile>, n: nat)
    requires |files| == |parts| && n <= |parts| && SetOk(parts, n)
    requires forall i :: 0 <= i < n ==> PartOk(files[i], parts[i].artifact, parts[i].scope)
    ensures AllRows(files, n).Some?
    ensures var rows := AllRows(files, n).value;
            && StreamFrom(0, rows)
            && (if n == 0 then rows == [] else |rows| == parts[n - 1].artifact.last + 1 && ChainFrom(Zero, rows) == parts[n - 1].artifact.lastHash)
  {
    hide ManifestValid, PartDigest, PartOk, StreamFrom, ChainFrom, Unpacked, ScanRows;
    if n == 0 {
      NoRows(Artifact(0, PartKey([], [], [], [], 0, 0, Zero), Zero, 0, 0, 0, 0, 0, Zero, Zero, Zero), ReplayScope([], [], [], [], [], [], Zero));
    } else {
      LocalChecksCompose(parts, files, n - 1);
      var f, p := files[n - 1], parts[n - 1];
      PartMeans(f, p.artifact, p.scope);
      var before, here := AllRows(files, n - 1).value, Unpacked(f.rows).value;
      if n == 1 {
        EmptyChain();
      }
      StreamConcat(before, here);
      ChainFromConcat(Zero, before, here);
    }
  }

  lemma EmptyChain()
    ensures ChainFrom(Zero, []) == Zero
  {
  }

  lemma PartMeans(f: PartFile, a: Artifact, scope: ReplayScope)
    requires PartOk(f, a, scope)
    ensures Unpacked(f.rows).Some?
    ensures var rows := Unpacked(f.rows).value;
            && rows != [] && |rows| == a.rowCount && StreamFrom(a.first, rows) && a.last == a.first + |rows| - 1
            && ChainFrom(a.previous, rows) == a.lastHash && ByteTotal(rows) == a.canonicalBytes && AllInScope(rows, scope)
  {
    hide ScopeValid, RowValid, ScanRow, ScanRows, StreamFrom, ChainFrom, Unpacked, ByteTotal;
    ScanMeans(f.rows, a, scope);
    LastSequence(f.rows, a, scope);
  }

  lemma LastSequence(rows: seq<PhysicalRow>, a: Artifact, scope: ReplayScope)
    requires rows != [] && ScanRows(rows, a, scope).Some?
    ensures rows[|rows| - 1].streamSequence == a.first + |rows| - 1
  {
    hide RowValid, RowChainStep;
  }

  /** The root computed from the manifests alone is the root of the rows. */
  lemma PartsHaveTheRowsRoot(parts: seq<PartManifest>, files: seq<PartFile>)
    requires |files| == |parts| > 0 && SetRoot(parts).Some?
    requires forall i :: 0 <= i < |parts| ==> PartOk(files[i], parts[i].artifact, parts[i].scope)
    ensures AllRows(files, |files|).Some?
    ensures StreamFrom(0, AllRows(files, |files|).value)
    ensures ChainFrom(Zero, AllRows(files, |files|).value) == parts[|parts| - 1].artifact.lastHash
  {
    hide SetOk, PartOk, StreamFrom, ChainFrom, AllRows, SetFields;
    LocalChecksCompose(parts, files, |parts|);
  }
}
