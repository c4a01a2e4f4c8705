/** Replay rows and their hash chain (internal/protocol/replay.go). */
module Replay {
  import opened Protocol
  import opened Digests

  predicate IsName(t: Text) { 0 < |t| <= MAX_STRING_BYTES }

  predicate ScopeValid(s: ReplayScope) {
    && IsName(s.datasetId) && IsName(s.dayDefinitionId) && IsName(s.date) && IsName(s.replayContractId)
    && IsName(s.conversionId) && IsName(s.rawManifestKey) && s.rawManifestSha != Zero
  }

  /** The one reason each marker code is allowed to carry. */
  function ReasonFor(code: MarkerCode): MarkerReason {
    match code
    case SEGMENT_START => INITIAL
    case AMBIGUOUS_OVERLAP => NO_UNIQUE_OVERLAP
    case SOURCE_HISTORY_CHANGED => SAME_POSITION_PAYLOAD_CHANGED
    case SOURCE_ERROR => SOURCE_REPORTED_ERROR
    case GAP => WAL_SEQUENCE_GAP
    case TIMESTAMP_REGRESSION => TIME_MSC_REGRESSION
    case SCOPE_BOUNDARY => SCOPE_CHANGED
  }

  /** The checks `CanonicalBytes` makes before it returns the bytes of a row. */
  predicate RowValid(r: ReplayRow) {
    && ScopeValid(r.scope)
    && r.segmentId != Zero
    && match r
       case Data(_, _, _, key, sha, _, producer, session, batchSequence, ordinal, capture, record, fp, observation,
                 _, _, _, _, _, _) =>
         && sha != Zero && key == WalKey(sha)
         && IsName(producer) && IsName(session)
         && fp == Fingerprint(record)
         && observation == ObservationHash(producer, session, batchSequence, ordinal, capture, fp)
       case Marker(_, _, _, key, sha, code, reason, detail, _, _, _, _) =>
         && reason == ReasonFor(code)
         && DetailLength(detail) <= MAX_STRING_BYTES
         && (if key == NO_KEY then sha == Zero else sha != Zero && key == WalKey(sha))
  }

  /**
   What the canonical bytes of a row say. Every field is written except the scope's raw manifest
   key and the capture sequence inside the record, so those two are blanked.
   */
  function Canonical(r: ReplayRow): ReplayRow {
    var blank := r.(scope := r.scope.(rawManifestKey := []));
    if r.Data? then blank.(record := r.record.(captureSequence := 0)) else blank
  }

  function KeyLength(k: ObjectKey): nat {
    match k
    case WalKey(_) => 84
    case OtherKey(name) => |name|
  }

  /** Length of the canonical bytes: fixed-width fields plus the strings. */
  function CanonicalLength(r: ReplayRow): nat {
    |r.scope.datasetId| + |r.scope.dayDefinitionId| + |r.scope.date| + |r.scope.replayContractId|
    + |r.scope.conversionId| + KeyLength(r.rawKey) +
    if r.Data? then 380 + |r.producerInstanceId| + |r.producerSessionId|
    else 302 + CodeLength(r.code) + ReasonLength(r.reason) + DetailLength(r.detail)
  }

  function SegmentId(scope: ReplayScope, gatewaySequence: int, recordOrdinal: int, code: MarkerCode,
                     predecessor: Digest): Digest {
    Sha256([Tag(ContinuitySegment), Str(scope.datasetId), Str(scope.dayDefinitionId), Str(scope.date),
            Str(scope.replayContractId), Str(scope.conversionId), Str(scope.rawManifestKey),
            Hash(scope.rawManifestSha), FU64(gatewaySequence), FU32(recordOrdinal), Code(code), Hash(predecessor)])
  }

  function RowChainStep(sequence: int, previous: Digest, row: ReplayRow): Digest {
    Sha256([Tag(RowChain), FU64(sequence), Hash(previous), FU32(CanonicalLength(row)), Row(Canonical(row))])
  }

  /** The hash chain over rows, whatever they are. */
  function ChainFrom(start: Digest, rows: seq<ReplayRow>): Digest {
    if rows == [] then start
    else
      var last := |rows| - 1;
      RowChainStep(rows[last].streamSequence, ChainFrom(start, rows[..last]), rows[last])
  }

  /** Rows numbered from `first` on, each of which has canonical bytes. */
  predicate StreamFrom(first: nat, rows: seq<ReplayRow>) {
    rows == [] ||
    var last := |rows| - 1;
    StreamFrom(first, rows[..last]) && rows[last].streamSequence == first + last && RowValid(rows[last])
  }

  lemma {:induction false} StreamFromAt(first: nat, rows: seq<ReplayRow>, i: nat)
    requires StreamFrom(first, rows) && i < |rows|
    ensures rows[i].streamSequence == first + i && RowValid(rows[i])
  {
    if i < |rows| - 1 {
      StreamFromAt(first, rows[..|rows| - 1], i);
    }
  }

  /** `RowChainRoot`: the loop over a complete stream, failing on a misnumbered or invalid row. */
  method RowChainRoot(rows: seq<ReplayRow>) returns (root: Option<Digest>)
    ensures root == if StreamFrom(0, rows) then Some(ChainFrom(Zero, rows)) else None
  {
    var hash := Zero;
    for index := 0 to |rows|
      invariant StreamFrom(0, rows[..index])
      invariant hash == ChainFrom(Zero, rows[..index])
    {
      assert rows[..index + 1][..index] == rows[..index];
      if rows[index].streamSequence != index || !RowValid(rows[index]) {
        if StreamFrom(0, rows) {
          StreamFromAt(0, rows, index);
        }
        return None;
      }
      hash := RowChainStep(rows[index].streamSequence, hash, rows[index]);
    }
    assert rows[..|rows|] == rows;
    return Some(hash);
  }

  lemma {:induction false} ChainFromConcat(start: Digest, left: seq<ReplayRow>, right: seq<ReplayRow>)
    ensures ChainFrom(start, left + right) == ChainFrom(ChainFrom(start, left), right)
  {
    if right == [] {
      assert left + right == left;
    } else {
      var last := |right| - 1;
      assert (left + right)[..|left + right| - 1] == left + right[..last];
      ChainFromConcat(start, left, right[..last]);
    }
  }
}
