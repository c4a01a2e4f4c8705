/** Integer widths and the batch message of the wire protocol (internal/protocol/protocol.go). */
module Protocol {

  type U8 = x: int | 0 <= x < 0x100
  type U16 = x: int | 0 <= x < 0x1_0000
  type U32 = x: int | 0 <= x < 0x1_0000_0000
  type U64 = x: int | 0 <= x < 0x1_0000_0000_0000_0000
  type I32 = x: int | -0x8000_0000 <= x < 0x8000_0000
  type I64 = x: int | -0x8000_0000_0000_0000 <= x < 0x8000_0000_0000_0000

  const MAX_U32 := 0xFFFF_FFFF
  const MAX_U64 := 0xFFFF_FFFF_FFFF_FFFF
  const MAX_I64 := 0x7FFF_FFFF_FFFF_FFFF
  const MAX_RECORDS := 4096
  const MAX_STRING_BYTES := 255

  /** A Go string, as the bytes it holds. */
  type Text = seq<U8>

  /** The bytes of "mt5.mqltick.v1". */
  const SOURCE_SCHEMA_MT5: Text :=
    [0x6d, 0x74, 0x35, 0x2e, 0x6d, 0x71, 0x6c, 0x74, 0x69, 0x63, 0x6b, 0x2e, 0x76, 0x31]

  datatype Tick = Tick(
    time: I64, bidBits: U64, askBits: U64, lastBits: U64, volume: U64,
    timeMsc: I64, flags: U32, volumeRealBits: U64, captureSequence: U64)

  datatype BatchFrame = BatchFrame(
    leaseId: Text, sessionId: Text, batchSequence: U64,
    requestedFromMsc: I64, requestedCount: U32,
    fetchWallStartS: I64, fetchWallEndS: I64, fetchMonotonicStartUs: U64, fetchMonotonicEndUs: U64,
    returnedCount: I32, copyTicksError: I32, sourceStatusFlags: U32,
    schemaId: Text, records: seq<Tick>)

  datatype Option<+T> = None | Some(value: T)
}
