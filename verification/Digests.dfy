/**
 Idealised SHA-256. The source hashes a byte string that its `writer` builds field by field
 behind a domain tag; here a digest keeps that list of fields. Two digests are equal exactly
 when their preimages are, and no hash is the all-zero array `Zero`.

 A batch frame enters a hash as the decoded message: module Wire proves that frames and
 messages determine each other.
 */
module Digests {
  import opened Protocol
  import opened Decimal

  /** A scope-relative object key. `WalKey` is the content-addressed key of a sealed WAL object. */
  datatype ObjectKey = WalKey(object: Digest) | OtherKey(name: Text)

  const NO_KEY: ObjectKey := OtherKey([])

  /** The domain-separation prefixes. */
  datatype Domain =
    | SourcePayload | Observation | Batch | WalEntry | Boundary
    | RowChain | ContinuitySegment
    | PartManifestDomain | PartSet | RawSet | RawDayManifest

  datatype MarkerCode =
    SEGMENT_START | AMBIGUOUS_OVERLAP | SOURCE_HISTORY_CHANGED | SOURCE_ERROR | GAP | TIMESTAMP_REGRESSION | SCOPE_BOUNDARY

  datatype MarkerReason =
    | INITIAL | NO_UNIQUE_OVERLAP | SAME_POSITION_PAYLOAD_CHANGED | SOURCE_REPORTED_ERROR
    | WAL_SEQUENCE_GAP | TIME_MSC_REGRESSION | SCOPE_CHANGED

  /** The detail texts a marker can carry. */
  datatype MarkerDetail =
    | FirstOccurrence       // first accepted source occurrence
    | BatchSequenceGap      // producer batch sequence gap
    | CopyTicksError(code: int) // copy_ticks_error=<code>
    | TimeMovedBackwards    // source time_msc moved backwards
    | OnePayloadChanged     // one changed payload has exact surrounding fingerprint evidence
    | NoProvableOverlap     // no uniquely provable suffix/prefix overlap
    | ManyPositions         // longest suffix/prefix candidate has multiple positions

  datatype Field =
    | Tag(tag: Domain)
    | FU32(u32: int)
    | FU64(u64: int)
    | FI64(i64: int)
    | Str(text: Text)
    | Code(marker: MarkerCode)
    | Key(key: ObjectKey)
    | Hash(digest: Digest)
    | Frame(frame: BatchFrame)
    | Row(row: ReplayRow)

  datatype ReplayScope = ReplayScope(
    datasetId: Text, dayDefinitionId: Text, date: Text, replayContractId: Text, conversionId: Text,
    rawManifestKey: Text, rawManifestSha: Digest)

  /** One row of the replay stream: a source occurrence, or a marker that opens a continuity segment. */
  datatype ReplayRow =
    | Data(
        scope: ReplayScope, streamSequence: nat, segmentId: Digest,
        rawKey: ObjectKey, rawSha: Digest,
        gatewaySequence: int, producerInstanceId: Text, producerSessionId: Text,
        batchSequence: int, recordOrdinal: int, captureSequence: U64, record: Tick,
        fingerprint: Digest, observation: Digest,
        fetchWallStartS: int, fetchWallEndS: int, fetchMonotonicStartUs: int, fetchMonotonicEndUs: int,
        copyTicksError: int, sourceStatusFlags: int)
    | Marker(
        scope: ReplayScope, streamSequence: nat, segmentId: Digest,
        rawKey: ObjectKey, rawSha: Digest,
        code: MarkerCode, reason: MarkerReason, detail: MarkerDetail,
        referenceGatewaySequence: int, referenceRecordOrdinal: int,
        predecessor: Digest, segmentStartHash: Digest)

  datatype Digest = Zero | Sha256(preimage: seq<Field>)

  function CodeLength(c: MarkerCode): nat {
    match c
    case SEGMENT_START => 13
    case AMBIGUOUS_OVERLAP => 17
    case SOURCE_HISTORY_CHANGED => 22
    case SOURCE_ERROR => 12
    case GAP => 3
    case TIMESTAMP_REGRESSION => 20
    case SCOPE_BOUNDARY => 14
  }

  function ReasonLength(r: MarkerReason): nat {
    match r
    case INITIAL => 7
    case NO_UNIQUE_OVERLAP => 17
    case SAME_POSITION_PAYLOAD_CHANGED => 29
    case SOURCE_REPORTED_ERROR => 21
    case WAL_SEQUENCE_GAP => 16
    case TIME_MSC_REGRESSION => 19
    case SCOPE_CHANGED => 13
  }

  function DetailLength(d: MarkerDetail): nat {
    match d
    case FirstOccurrence => 32
    case BatchSequenceGap => 27
    case CopyTicksError(code) => 17 + |FormatInt(code)|
    case TimeMovedBackwards => 31
    case OnePayloadChanged => 62
    case NoProvableOverlap => 42
    case ManyPositions => 54
  }

  /** Identity of a tick's payload; the capture sequence is not part of it. */
  function Fingerprint(t: Tick): Digest {
    Sha256([Tag(SourcePayload), FI64(t.time), FU64(t.bidBits), FU64(t.askBits),
            FU64(t.lastBits), FU64(t.volume), FI64(t.timeMsc), FU32(t.flags), FU64(t.volumeRealBits)])
  }

  function ObservationHash(producer: Text, session: Text, batchSequence: int, ordinal: int, capture: int,
                           fingerprint: Digest): Digest {
    Sha256([Tag(Observation), Str(producer), Str(session), FU64(batchSequence), FU32(ordinal), FU64(capture),
            Hash(fingerprint)])
  }

  function BatchHash(frame: BatchFrame): Digest {
    Sha256([Tag(Batch), Frame(frame)])
  }

  function WalEntryHash(sequence: int, previous: Digest, wallS: int, monotonicUs: int, batchHash: Digest,
                        frame: BatchFrame): Digest {
    Sha256([Tag(WalEntry), FU64(sequence), Hash(previous), FI64(wallS), FU64(monotonicUs), Hash(batchHash),
            Frame(frame)])
  }

  function FingerprintFields(records: seq<Tick>): seq<Field> {
    seq(|records|, i requires 0 <= i < |records| => Hash(Fingerprint(records[i])))
  }

  function BoundaryDigest(cursorMsc: int, previous: Digest, records: seq<Tick>): Digest {
    Sha256([Tag(Boundary), FI64(cursorMsc), Hash(previous), FU32(|records|)] + FingerprintFields(records))
  }
}
