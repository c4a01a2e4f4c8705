/** The flat rows of a Parquet part and their way back to replay rows (internal/parquet/row.go). */
module PhysicalRows {
  import opened Protocol
  import opened Digests
  import opened Replay

  const KIND_DATA: U8 := 1
  const KIND_MARKER: U8 := 2

  datatype DataPart = DataPart(
    rawKey: ObjectKey, rawSha: Digest, gatewaySequence: int, producerInstanceId: Text, producerSessionId: Text,
    batchSequence: int, recordOrdinal: int, captureSequence: U64,
    time: I64, bidBits: U64, askBits: U64, lastBits: U64, volume: U64, timeMsc: I64, flags: U32, volumeRealBits: U64,
    fingerprint: Digest, observation: Digest,
    fetchWallStartS: int, fetchWallEndS: int, fetchMonotonicStartUs: int, fetchMonotonicEndUs: int,
    copyTicksError: int, sourceStatusFlags: int)

  datatype MarkerPart = MarkerPart(
    rawKey: ObjectKey, rawSha: Digest, code: MarkerCode, reason: MarkerReason, detail: MarkerDetail,
    referenceGatewaySequence: int, referenceRecordOrdinal: int, predecessor: Digest, segmentStartHash: Digest)

  datatype PhysicalRow = PhysicalRow(
    kind: U8, streamSequence: nat, scope: ReplayScope, segmentId: Digest, previous: Digest, chain: Digest,
    data: Option<DataPart>, marker: Option<MarkerPart>)

  /** `makeParquetRow`: the physical row together with the chain hash after it. */
  function Physical(row: ReplayRow, previous: Digest): Option<PhysicalRow> {
    if !RowValid(row) || row.streamSequence >= MAX_U64 then None else
    var next := RowChainStep(row.streamSequence, previous, row);
    match row
    case Data(scope, sequence, segment, key, sha, gateway, producer, session, batch, ordinal, capture, t, fp, obs,
              wallStart, wallEnd, monoStart, monoEnd, error, flags) =>
      Some(PhysicalRow(KIND_DATA, sequence, scope, segment, previous, next,
             Some(DataPart(key, sha, gateway, producer, session, batch, ordinal, capture,
                           t.time, t.bidBits, t.askBits, t.lastBits, t.volume, t.timeMsc, t.flags, t.volumeRealBits,
                           fp, obs, wallStart, wallEnd, monoStart, monoEnd, error, flags)), None))
    case Marker(scope, sequence, segment, key, sha, code, reason, detail, gateway, ordinal, predecessor, start) =>
      Some(PhysicalRow(KIND_MARKER, sequence, scope, segment, previous, next, None,
             Some(MarkerPart(key, sha, code, reason, detail, gateway, ordinal, predecessor, start))))
  }

  /** `replayRow`: the record's own capture sequence is not stored and comes back as the row's. */
  function Logical(p: PhysicalRow): Option<ReplayRow> {
    if p.kind == KIND_DATA && p.data.Some? && p.marker.None? then
      var d := p.data.value;
      Some(Data(p.scope, p.streamSequence, p.segmentId, d.rawKey, d.rawSha, d.gatewaySequence, d.producerInstanceId,
                d.producerSessionId, d.batchSequence, d.recordOrdinal, d.captureSequence,
                Tick(d.time, d.bidBits, d.askBits, d.lastBits, d.volume, d.timeMsc, d.flags, d.volumeRealBits, d.captureSequence),
                d.fingerprint, d.observation, d.fetchWallStartS, d.fetchWallEndS, d.fetchMonotonicStartUs,
                d.fetchMonotonicEndUs, d.copyTicksError, d.sourceStatusFlags))
    else if p.kind == KIND_MARKER && p.data.None? && p.marker.Some? then
      var m := p.marker.value;
      Some(Marker(p.scope, p.streamSequence, p.segmentId, m.rawKey, m.rawSha, m.code, m.reason, m.detail,
                  m.referenceGatewaySequence, m.referenceRecordOrdinal, m.predecessor, m.segmentStartHash))
    else None
  }

  /** Two rows with the same canonical bytes. */
  predicate SameBytes(a: ReplayRow, b: ReplayRow) {
    && Canonical(a) == Canonical(b) && CanonicalLength(a) == CanonicalLength(b) && a.streamSequence == b.streamSequence
    && a.scope == b.scope && RowValid(a) == RowValid(b)
  }

  /**
   The round trip: what is read back has the canonical bytes of what was written, and is the very row exactly
   when the record carried the row's capture sequence.
   */
  lemma PhysicalRoundTrip(row: ReplayRow, previous: Digest)
    requires Physical(row, previous).Some?
    ensures var back := Logical(Physical(row, previous).value);
            && back.Some? && SameBytes(back.value, row)
            && (back.value == row <==> row.Marker? || row.record.captureSequence == row.captureSequence)
  {
    if row.Data? {
      var back := Logical(Physical(row, previous).value).value;
      assert back == row.(record := row.record.(captureSequence := row.captureSequence));
    }
  }

  /** The bytes of "1970-01-01". */
  const FIRST_DAY: Text := [0x31, 0x39, 0x37, 0x30, 0x2D, 0x30, 0x31, 0x2D, 0x30, 0x31]

  /** A row whose record carries another capture sequence than the row does. */
  function Renumbered(): ReplayRow {
    var sha, t := Sha256([]), Tick(0, 0, 0, 0, 0, 0, 0, 0, 2);
    var fp := Fingerprint(t);
    Data(ReplayScope([0x64], [0x75], FIRST_DAY, [0x72], [0x63], [0x6D], sha), 0, sha, WalKey(sha), sha, 1, [1], [1], 1, 0, 1, t, fp,
         ObservationHash([1], [1], 1, 0, 1, fp), 0, 0, 0, 0, 0, 0)
  }

  /** It is valid and can be written, and comes back as another row. */
  lemma RenumberedExample()
    ensures Physical(Renumbered(), Zero).Some? && Logical(Physical(Renumbered(), Zero).value) != Some(Renumbered())
  {
    PhysicalRoundTrip(Renumbered(), Zero);
  }

  /** The other way: a physical row that reads as a valid row and carries the right chain hash is the one that would be written. */
  lemma LogicalRoundTrip(p: PhysicalRow)
    requires Logical(p).Some? && RowValid(Logical(p).value) && p.streamSequence < MAX_U64
    ensures Physical(Logical(p).value, p.previous) == Some(p)
            <==> p.chain == RowChainStep(p.streamSequence, p.previous, Logical(p).value)
  {
    hide RowValid, RowChainStep;
    var back := Physical(Logical(p).value, p.previous).value;
    if p.data.Some? {
      assert back.data.value == p.data.value;
    } else {
      assert back.marker.value == p.marker.value;
    }
    assert back == p.(chain := back.chain);
  }

  lemma SameStep(a: ReplayRow, b: ReplayRow, previous: Digest)
    requires SameBytes(a, b)
    ensures RowChainStep(a.streamSequence, previous, a) == RowChainStep(b.streamSequence, previous, b)
  {
  }
}
