/** Wire frames and messages (internal/protocol/protocol.go): every accepted frame is the encoding of its message. */
module Wire {
  import opened Protocol
  import opened Fields
  import opened Texts

  const HELLO := 1
  const RESUME := 2
  const BATCH := 3
  const ACK := 4
  const ERROR := 5

  const PROTOCOL_VERSION := 1
  const HEADER_LENGTH := 16
  const MIN_FRAME_BYTES := 20
  const MAX_FRAME_BYTES := 1_048_576

  /** The bytes of "TICK". */
  const MAGIC: Bytes := [0x54, 0x49, 0x43, 0x4B]

  /** UTF-8 validity and CRC32C are left open. */
  datatype Codec = Codec(utf8: Utf8, crc: Bytes -> U32)

  /** A message is its fields in wire order. The batch, which the other modules work on, has named fields. */
  datatype Message = Plain(kind: int, atoms: Atoms) | Batch(frame: BatchFrame)

  function TypeOf(m: Message): int { if m.Batch? then BATCH else m.kind }

  // ---- Layouts ----

  function Strings(n: nat, rest: Layout): Layout { if n == 0 then rest else Then(KString, Strings(n - 1, rest)) }

  function LayoutOf(kind: int): Layout {
    if kind == HELLO then Strings(12, Then(KU8, Then(KI64, Then(KU32, End))))
    else if kind == RESUME then
      Then(KU16, Strings(2, Then(KI64, Then(KHash, Then(KU64, Then(KHash, Then(KI64,
           Then(KU32, Then(KU32, Then(KU32, Then(KU32, End)))))))))))
    else if kind == ACK then
      Then(KString, Then(KU64, Then(KHash, Then(KU64, Then(KU8, Then(KI64, Then(KHash, Then(KI64, Then(KU32, Then(KU32, End))))))))))
    else
      Then(KU16, Then(KU8, Then(KU16, Then(KU64, Then(KString, End)))))
  }

  const TICK_LAYOUT: Layout :=
    Then(KI64, Then(KU64, Then(KU64, Then(KU64, Then(KU64, Then(KI64, Then(KU32, Then(KU64, Then(KU64, End)))))))))

  const BATCH_LAYOUT: Layout :=
    Then(KString, Then(KString, Then(KU64, Then(KI64, Then(KU32, Then(KI64, Then(KI64, Then(KU64, Then(KU64, Then(KI32,
         Then(KI32, Then(KU32, Then(KString, Then(KU32, End))))))))))))))

  function Nth(atoms: Atoms, i: nat): int {
    if atoms.Nil? then 0
    else if i > 0 then Nth(atoms.tail, i - 1)
    else if atoms.head.Num? then atoms.head.n else 0
  }

  /** The checks on single fields that the encoder and the decoder share. */
  predicate FieldRules(kind: int, atoms: Atoms) {
    && (kind == HELLO ==> Nth(atoms, 12) == 1 || Nth(atoms, 12) == 2)
    && (kind == RESUME ==> Nth(atoms, 0) == PROTOCOL_VERSION)
    && (kind == ACK ==> 1 <= Nth(atoms, 4) <= 9)
    && (kind == ERROR ==> 1 <= Nth(atoms, 0) <= 10 && Nth(atoms, 1) <= 1)
  }

  predicate CountRules(b: BatchFrame) {
    && |b.records| <= MAX_RECORDS
    && (b.returnedCount >= 0 ==> b.returnedCount == |b.records|) && (b.returnedCount < 0 ==> b.records == [])
  }

  /** What the encoder demands of a message. */
  predicate EncoderRules(c: Codec, m: Message) {
    match m
    case Plain(kind, atoms) => kind in {HELLO, RESUME, ACK, ERROR} && AtomsOk(c.utf8, LayoutOf(kind), atoms) && FieldRules(kind, atoms)
    case Batch(b) => CountRules(b) && AtomsOk(c.utf8, BATCH_LAYOUT, HeadAtoms(b))
  }

  /** What only the decoder demands. */
  predicate DecoderRules(m: Message) {
    match m
    case Plain(kind, atoms) => kind == ERROR ==> Nth(atoms, 2) <= ERROR
    case Batch(b) => b.schemaId == SOURCE_SCHEMA_MT5
  }

  // ---- The batch ----

  /** The fixed fields of a batch, and its record count. */
  function HeadAtoms(b: BatchFrame): Atoms {
    Cons(Blob(b.leaseId), Cons(Blob(b.sessionId), Cons(Num(b.batchSequence), Cons(Num(b.requestedFromMsc),
    Cons(Num(b.requestedCount), Cons(Num(b.fetchWallStartS), Cons(Num(b.fetchWallEndS), Cons(Num(b.fetchMonotonicStartUs),
    Cons(Num(b.fetchMonotonicEndUs), Cons(Num(b.returnedCount), Cons(Num(b.copyTicksError), Cons(Num(b.sourceStatusFlags),
    Cons(Blob(b.schemaId), Cons(Num(|b.records|), Nil))))))))))))))
  }

  function TickAtoms(t: Tick): Atoms {
    Cons(Num(t.time), Cons(Num(t.bidBits), Cons(Num(t.askBits), Cons(Num(t.lastBits), Cons(Num(t.volume), Cons(Num(t.timeMsc),
    Cons(Num(t.flags), Cons(Num(t.volumeRealBits), Cons(Num(t.captureSequence), Nil)))))))))
  }

  function EncodeRecords(ts: seq<Tick>): Bytes {
    if ts == [] then [] else EncodeAtoms(TICK_LAYOUT, TickAtoms(ts[0])) + EncodeRecords(ts[1..])
  }

  /** One unfolding of a layout. */
  lemma OneField(utf8: Utf8, l: Layout, atoms: Atoms)
    requires l.Then?
    ensures AtomsOk(utf8, l, atoms) <==> atoms.Cons? && AtomOk(utf8, l.kind, atoms.head) && AtomsOk(utf8, l.rest, atoms.tail)
  {
  }

  lemma NoField(utf8: Utf8, atoms: Atoms)
    ensures AtomsOk(utf8, End, atoms) <==> atoms.Nil?
  {
  }

  function TickFrom(atoms: Atoms): Option<Tick> {
    match atoms
    case Cons(Num(time), Cons(Num(bid), Cons(Num(ask), Cons(Num(last), Cons(Num(volume), Cons(Num(timeMsc),
         Cons(Num(flags), Cons(Num(volumeReal), Cons(Num(capture), Nil))))))))) =>
      if IsI64(time) && IsU64(bid) && IsU64(ask) && IsU64(last) && IsU64(volume) && IsI64(timeMsc) && IsU32(flags)
         && IsU64(volumeReal) && IsU64(capture)
      then Some(Tick(time, bid, ask, last, volume, timeMsc, flags, volumeReal, capture)) else None
    case _ => None
  }

  predicate IsU32(n: int) { 0 <= n < 0x1_0000_0000 }
  predicate IsU64(n: int) { 0 <= n < 0x1_0000_0000_0000_0000 }
  predicate IsI32(n: int) { -0x8000_0000 <= n < 0x8000_0000 }
  predicate IsI64(n: int) { -0x8000_0000_0000_0000 <= n < 0x8000_0000_0000_0000 }

  /** The batch with these fixed fields and records. */
  function BatchFrom(atoms: Atoms, records: seq<Tick>): Option<BatchFrame> {
    match atoms
    case Cons(Blob(lease), Cons(Blob(session), Cons(Num(sequence), Cons(Num(from), Cons(Num(count), Cons(Num(wallStart),
         Cons(Num(wallEnd), Cons(Num(monoStart), Cons(Num(monoEnd), Cons(Num(returned), Cons(Num(error), Cons(Num(flags),
         Cons(Blob(schema), Cons(Num(n), Nil)))))))))))))) =>
      if IsU64(sequence) && IsI64(from) && IsU32(count) && IsI64(wallStart) && IsI64(wallEnd) && IsU64(monoStart)
         && IsU64(monoEnd) && IsI32(returned) && IsI32(error) && IsU32(flags)
      then Some(BatchFrame(lease, session, sequence, from, count, wallStart, wallEnd, monoStart, monoEnd, returned, error, flags,
                           schema, records)) else None
    case _ => None
  }

  /** The record count among the fixed fields. */
  function CountOf(atoms: Atoms): int { Nth(atoms, 13) }

  lemma TickFields(utf8: Utf8, atoms: Atoms)
    requires AtomsOk(utf8, TICK_LAYOUT, atoms)
    ensures TickFrom(atoms).Some? && TickAtoms(TickFrom(atoms).value) == atoms
  {
    hide AtomsOk;
    var l := TICK_LAYOUT;
    OneField(utf8, l, atoms);
    var a1 := atoms.tail; OneField(utf8, l.rest, a1);
    var a2 := a1.tail; OneField(utf8, l.rest.rest, a2);
    var a3 := a2.tail; OneField(utf8, l.rest.rest.rest, a3);
    var a4 := a3.tail; OneField(utf8, l.rest.rest.rest.rest, a4);
    var l5 := l.rest.rest.rest.rest.rest;
    var a5 := a4.tail; OneField(utf8, l5, a5);
    var a6 := a5.tail; OneField(utf8, l5.rest, a6);
    var a7 := a6.tail; OneField(utf8, l5.rest.rest, a7);
    var a8 := a7.tail; OneField(utf8, l5.rest.rest.rest, a8);
    NoField(utf8, a8.tail);
  }

  lemma TickIsOk(utf8: Utf8, t: Tick)
    ensures AtomsOk(utf8, TICK_LAYOUT, TickAtoms(t)) && TickFrom(TickAtoms(t)) == Some(t)
  {
    hide AtomsOk;
    var l, a := TICK_LAYOUT, TickAtoms(t);
    var l5, a5 := l.rest.rest.rest.rest.rest, a.tail.tail.tail.tail.tail;
    NoField(utf8, Nil);
    OneField(utf8, l5.rest.rest.rest, a5.tail.tail.tail);
    OneField(utf8, l5.rest.rest, a5.tail.tail);
    OneField(utf8, l5.rest, a5.tail);
    OneField(utf8, l5, a5);
    OneField(utf8, l.rest.rest.rest.rest, a.tail.tail.tail.tail);
    OneField(utf8, l.rest.rest.rest, a.tail.tail.tail);
    OneField(utf8, l.rest.rest, a.tail.tail);
    OneField(utf8, l.rest, a.tail);
    OneField(utf8, l, a);
  }

  lemma HeadFields(utf8: Utf8, atoms: Atoms, records: seq<Tick>)
    requires AtomsOk(utf8, BATCH_LAYOUT, atoms) && CountOf(atoms) == |records|
    ensures BatchFrom(atoms, records).Some? && HeadAtoms(BatchFrom(atoms, records).value) == atoms
  {
    hide AtomsOk;
    var l := BATCH_LAYOUT;
    OneField(utf8, l, atoms);
    var a1 := atoms.tail; OneField(utf8, l.rest, a1);
    var a2 := a1.tail; OneField(utf8, l.rest.rest, a2);
    var a3 := a2.tail; OneField(utf8, l.rest.rest.rest, a3);
    var a4 := a3.tail; OneField(utf8, l.rest.rest.rest.rest, a4);
    var l5 := l.rest.rest.rest.rest.rest;
    var a5 := a4.tail; OneField(utf8, l5, a5);
    var a6 := a5.tail; OneField(utf8, l5.rest, a6);
    var a7 := a6.tail; OneField(utf8, l5.rest.rest, a7);
    var a8 := a7.tail; OneField(utf8, l5.rest.rest.rest, a8);
    var a9 := a8.tail; OneField(utf8, l5.rest.rest.rest.rest, a9);
    var l10 := l5.rest.rest.rest.rest.rest;
    var a10 := a9.tail; OneField(utf8, l10, a10);
    var a11 := a10.tail; OneField(utf8, l10.rest, a11);
    var a12 := a11.tail; OneField(utf8, l10.rest.rest, a12);
    var a13 := a12.tail; OneField(utf8, l10.rest.rest.rest, a13);
    NoField(utf8, a13.tail);
    NthSteps(atoms, 5);
    NthSteps(a5, 5);
    NthSteps(a10, 3);
  }

  /** Follow the first few tails at once. */
  lemma NthSteps(atoms: Atoms, n: nat)
    requires n == 3 || n == 5
    requires atoms.Cons? && atoms.tail.Cons? && atoms.tail.tail.Cons? && atoms.tail.tail.tail.Cons?
    requires n == 5 ==> atoms.tail.tail.tail.tail.Cons? && atoms.tail.tail.tail.tail.tail.Cons?
    ensures n == 3 ==> Nth(atoms, 3) == Nth(atoms.tail.tail.tail, 0)
    ensures n == 5 ==> forall i: nat :: i >= 5 ==> Nth(atoms, i) == Nth(atoms.tail.tail.tail.tail.tail, i - 5)
  {
    if n == 5 {
      forall i: nat | i >= 5 ensures Nth(atoms, i) == Nth(atoms.tail.tail.tail.tail.tail, i - 5) {
        assert Nth(atoms, i) == Nth(atoms.tail, i - 1) == Nth(atoms.tail.tail, i - 2) == Nth(atoms.tail.tail.tail, i - 3)
               == Nth(atoms.tail.tail.tail.tail, i - 4);
      }
    } else {
      assert Nth(atoms, 3) == Nth(atoms.tail, 2) == Nth(atoms.tail.tail, 1);
    }
  }

  lemma HeadReads(b: BatchFrame)
    ensures BatchFrom(HeadAtoms(b), b.records) == Some(b) && CountOf(HeadAtoms(b)) == |b.records|
  {
    var a := HeadAtoms(b);
    var a5 := a.tail.tail.tail.tail.tail;
    NthSteps(a, 5);
    NthSteps(a5, 5);
    NthSteps(a5.tail.tail.tail.tail.tail, 3);
  }

  // ---- Payloads ----

  function Payload(m: Message): Bytes {
    match m
    case Plain(kind, atoms) => EncodeAtoms(LayoutOf(kind), atoms)
    case Batch(b) => EncodeAtoms(BATCH_LAYOUT, HeadAtoms(b)) + EncodeRecords(b.records)
  }

  function ReadRecords(utf8: Utf8, d: Bytes, p: nat, n: nat): Parsed<seq<Tick>>
    decreases n
  {
    if n == 0 then Got([], p) else
    var first := ReadAtoms(utf8, TICK_LAYOUT, d, p);
    if first.Bad? || TickFrom(first.value).None? then Bad else
    var more := ReadRecords(utf8, d, first.pos, n - 1);
    if more.Bad? then Bad else Got([TickFrom(first.value).value] + more.value, more.pos)
  }

  /** `decodeBatch` */
  function ReadBatch(utf8: Utf8, d: Bytes): Option<BatchFrame> {
    var head := ReadAtoms(utf8, BATCH_LAYOUT, d, 0);
    if head.Bad? || CountOf(head.value) < 0 || CountOf(head.value) > MAX_RECORDS then None else
    var records := ReadRecords(utf8, d, head.pos, CountOf(head.value));
    if records.Bad? || records.pos != |d| then None else
    var b := BatchFrom(head.value, records.value);
    if b.None? || b.value.schemaId != SOURCE_SCHEMA_MT5 || !CountRules(b.value) then None else b
  }

  /** `DecodeMessage` */
  function ReadMessage(utf8: Utf8, kind: int, d: Bytes): Option<Message> {
    if kind == BATCH then
      var b := ReadBatch(utf8, d);
      if b.None? then None else Some(Batch(b.value))
    else if kind in {HELLO, RESUME, ACK, ERROR} then
      var atoms := ReadAtoms(utf8, LayoutOf(kind), d, 0);
      if atoms.Bad? || atoms.pos != |d| || !FieldRules(kind, atoms.value) || !DecoderRules(Plain(kind, atoms.value)) then None
      else Some(Plain(kind, atoms.value))
    else None
  }

  lemma {:induction false} RecordsRead(utf8: Utf8, ts: seq<Tick>, d: Bytes, p: nat)
    requires At(d, p, EncodeRecords(ts))
    ensures ReadRecords(utf8, d, p, |ts|) == Got(ts, p + |EncodeRecords(ts)|)
  {
    hide EncodeAtoms, ReadAtoms, TickAtoms, TickFrom, At;
    if ts != [] {
      var first := EncodeAtoms(TICK_LAYOUT, TickAtoms(ts[0]));
      AtSplit(d, p, first, EncodeRecords(ts[1..]));
      TickIsOk(utf8, ts[0]);
      AtomsRead(utf8, TICK_LAYOUT, TickAtoms(ts[0]), d, p);
      RecordsRead(utf8, ts[1..], d, p + |first|);
      assert ts == [ts[0]] + ts[1..];
    }
  }

  lemma {:induction false} RecordsWrite(utf8: Utf8, d: Bytes, p: nat, n: nat)
    requires p <= |d| && ReadRecords(utf8, d, p, n).Got?
    ensures var r := ReadRecords(utf8, d, p, n);
            |r.value| == n && At(d, p, EncodeRecords(r.value)) && r.pos == p + |EncodeRecords(r.value)| <= |d|
    decreases n
  {
    hide EncodeAtoms, ReadAtoms, TickAtoms, TickFrom;
    if n > 0 {
      var first := ReadAtoms(utf8, TICK_LAYOUT, d, p);
      AtomsWrite(utf8, TICK_LAYOUT, d, p);
      TickFields(utf8, first.value);
      RecordsWrite(utf8, d, first.pos, n - 1);
      var more := ReadRecords(utf8, d, first.pos, n - 1).value;
      AtJoin(d, p, EncodeAtoms(TICK_LAYOUT, first.value), EncodeRecords(more));
      assert ([TickFrom(first.value).value] + more)[1..] == more;
    }
  }

  predicate Legal(c: Codec, m: Message) {
    EncoderRules(c, m) && DecoderRules(m)
  }

  lemma BatchReads(c: Codec, b: BatchFrame)
    requires Legal(c, Batch(b))
    ensures ReadBatch(c.utf8, Payload(Batch(b))) == Some(b)
  {
    hide EncodeAtoms, ReadAtoms, HeadAtoms, BatchFrom, EncodeRecords, ReadRecords, AtomsOk, SOURCE_SCHEMA_MT5;
    var d := Payload(Batch(b));
    var head := EncodeAtoms(BATCH_LAYOUT, HeadAtoms(b));
    Whole(d);
    AtSplit(d, 0, head, EncodeRecords(b.records));
    AtomsRead(c.utf8, BATCH_LAYOUT, HeadAtoms(b), d, 0);
    HeadReads(b);
    RecordsRead(c.utf8, b.records, d, |head|);
  }

  lemma Whole(d: Bytes)
    ensures At(d, 0, d)
  {
    assert d[0..|d|] == d;
  }

  lemma BatchWrites(c: Codec, d: Bytes)
    requires ReadBatch(c.utf8, d).Some?
    ensures var m := Batch(ReadBatch(c.utf8, d).value);
            Legal(c, m) && Payload(m) == d
  {
    hide EncodeAtoms, ReadAtoms, HeadAtoms, EncodeRecords, ReadRecords, AtomsOk, SOURCE_SCHEMA_MT5;
    var head := ReadAtoms(c.utf8, BATCH_LAYOUT, d, 0);
    AtomsWrite(c.utf8, BATCH_LAYOUT, d, 0);
    var records := ReadRecords(c.utf8, d, head.pos, CountOf(head.value));
    RecordsWrite(c.utf8, d, head.pos, CountOf(head.value));
    HeadFields(c.utf8, head.value, records.value);
    AtJoin(d, 0, EncodeAtoms(BATCH_LAYOUT, head.value), EncodeRecords(records.value));
    assert d[0..|d|] == d;
  }

  lemma MessageReads(c: Codec, m: Message)
    requires Legal(c, m)
    ensures ReadMessage(c.utf8, TypeOf(m), Payload(m)) == Some(m)
  {
    hide EncodeAtoms, ReadAtoms, ReadBatch, AtomsOk, LayoutOf, FieldRules, HeadAtoms, EncodeRecords, CountRules, SOURCE_SCHEMA_MT5;
    if m.Batch? {
      BatchReads(c, m.frame);
    } else {
      Whole(Payload(m));
      AtomsRead(c.utf8, LayoutOf(m.kind), m.atoms, Payload(m), 0);
    }
  }

  lemma MessageWrites(c: Codec, kind: int, d: Bytes)
    requires ReadMessage(c.utf8, kind, d).Some?
    ensures var m := ReadMessage(c.utf8, kind, d).value;
            Legal(c, m) && TypeOf(m) == kind && Payload(m) == d
  {
    hide EncodeAtoms, ReadAtoms, ReadBatch, AtomsOk, LayoutOf, FieldRules, HeadAtoms, EncodeRecords, CountRules, SOURCE_SCHEMA_MT5;
    if kind == BATCH {
      BatchWrites(c, d);
    } else {
      AtomsWrite(c.utf8, LayoutOf(kind), d, 0);
      assert d[0..|d|] == d;
    }
  }

  // ---- Frames ----

  datatype Frame = Frame(kind: int, payload: Bytes)

  function Header(kind: nat, length: nat): (h: Bytes)
    ensures |h| == 16
  {
    MAGIC + LittleEndian(PROTOCOL_VERSION, 2) + LittleEndian(kind, 2) + LittleEndian(length, 4) + LittleEndian(HEADER_LENGTH, 4)
  }

  function EncodeFrame(c: Codec, kind: int, payload: Bytes): Option<Bytes> {
    if kind < HELLO || kind > ERROR || |payload| > MAX_FRAME_BYTES - MIN_FRAME_BYTES then None else
    var body := Header(kind, 20 + |payload|) + payload;
    Some(body + LittleEndian(c.crc(body), 4))
  }

  /** The number in bytes `from` to `to`. */
  function NumberIn(raw: Bytes, from: nat, to: nat): nat
    requires from <= to <= |raw|
  {
    FromLittleEndian(raw[from..to])
  }

  function DecodeFrame(c: Codec, raw: Bytes): Option<Frame> {
    if |raw| < 16 then None else
    var length := NumberIn(raw, 8, 12);
    if length > MAX_FRAME_BYTES || length < MIN_FRAME_BYTES || |raw| != length then None
    else if raw[..4] != MAGIC || NumberIn(raw, 12, 16) != HEADER_LENGTH || NumberIn(raw, 4, 6) != PROTOCOL_VERSION then None
    else if NumberIn(raw, 6, 8) < HELLO || NumberIn(raw, 6, 8) > ERROR then None
    else if NumberIn(raw, |raw| - 4, |raw|) != c.crc(raw[..|raw| - 4]) then None
    else Some(Frame(NumberIn(raw, 6, 8), raw[16..|raw| - 4]))
  }

  lemma HeaderParts(h: Bytes, kind: nat, length: nat)
    requires |h| >= 16 && h[..16] == Header(kind, length) && kind < 0x1_0000 && length < 0x1_0000_0000
    ensures h[..4] == MAGIC && NumberIn(h, 4, 6) == PROTOCOL_VERSION && NumberIn(h, 6, 8) == kind
    ensures NumberIn(h, 8, 12) == length && NumberIn(h, 12, 16) == HEADER_LENGTH
  {
    hide LittleEndian, FromLittleEndian, Pow256;
    Widths();
    NumberReads(PROTOCOL_VERSION, 2);
    NumberReads(kind, 2);
    NumberReads(length, 4);
    NumberReads(HEADER_LENGTH, 4);
    var g := Header(kind, length);
    assert h[..4] == h[..16][..4] == g[..4] == MAGIC;
    assert h[4..6] == h[..16][4..6] == g[4..6] == LittleEndian(PROTOCOL_VERSION, 2);
    assert h[6..8] == h[..16][6..8] == g[6..8] == LittleEndian(kind, 2);
    assert h[8..12] == h[..16][8..12] == g[8..12] == LittleEndian(length, 4);
    assert h[12..16] == h[..16][12..16] == g[12..16] == LittleEndian(HEADER_LENGTH, 4);
  }

  lemma HeaderIs(h: Bytes)
    requires |h| >= 16 && h[..4] == MAGIC && NumberIn(h, 4, 6) == PROTOCOL_VERSION && NumberIn(h, 12, 16) == HEADER_LENGTH
    ensures h[..16] == Header(NumberIn(h, 6, 8), NumberIn(h, 8, 12))
  {
    hide LittleEndian, FromLittleEndian;
    BytesRead(h[4..6]);
    BytesRead(h[6..8]);
    BytesRead(h[8..12]);
    BytesRead(h[12..16]);
    assert h[..16] == h[..4] + h[4..6] + h[6..8] + h[8..12] + h[12..16];
  }

  lemma FrameReads(c: Codec, kind: int, payload: Bytes)
    requires EncodeFrame(c, kind, payload).Some?
    ensures DecodeFrame(c, EncodeFrame(c, kind, payload).value) == Some(Frame(kind, payload))
  {
    hide LittleEndian, FromLittleEndian, Header, Pow256;
    var raw := EncodeFrame(c, kind, payload).value;
    var h := Header(kind, 20 + |payload|);
    var body := h + payload;
    assert raw[..16] == h;
    HeaderParts(raw, kind, 20 + |payload|);
    assert raw[..|raw| - 4] == body && raw[|raw| - 4..] == LittleEndian(c.crc(body), 4) && raw[|raw| - 4..|raw|] == raw[|raw| - 4..];
    Widths();
    NumberReads(c.crc(body), 4);
    assert raw[16..|raw| - 4] == payload;
  }

  lemma FrameWrites(c: Codec, raw: Bytes)
    requires DecodeFrame(c, raw).Some?
    ensures var f := DecodeFrame(c, raw).value;
            EncodeFrame(c, f.kind, f.payload) == Some(raw)
  {
    hide LittleEndian, FromLittleEndian, Header;
    HeaderIs(raw);
    var f, n := DecodeFrame(c, raw).value, |raw| - 4;
    var body := raw[..n];
    assert body == raw[..16] + raw[16..n];
    BytesRead(raw[n..|raw|]);
    assert raw == body + raw[n..|raw|];
  }

  // ---- Messages as frames ----

  /** `EncodeMessage` */
  function EncodeMessage(c: Codec, m: Message): Option<Bytes> {
    if !EncoderRules(c, m) then None else EncodeFrame(c, TypeOf(m), Payload(m))
  }

  /** `DecodeFrame`, then `DecodeMessage` */
  function DecodeBytes(c: Codec, raw: Bytes): Option<Message> {
    var f := DecodeFrame(c, raw);
    if f.None? then None else ReadMessage(c.utf8, f.value.kind, f.value.payload)
  }

  /** A message that meets the rules of both sides, and fits a frame, decodes back to itself. */
  lemma WireRoundTrip(c: Codec, m: Message)
    requires Legal(c, m) && |Payload(m)| <= MAX_FRAME_BYTES - MIN_FRAME_BYTES
    ensures EncodeMessage(c, m).Some? && DecodeBytes(c, EncodeMessage(c, m).value) == Some(m)
  {
    hide ReadMessage, DecodeFrame, Payload, AtomsOk, FieldRules, CountRules, LayoutOf, HeadAtoms, SOURCE_SCHEMA_MT5;
    FrameReads(c, TypeOf(m), Payload(m));
    MessageReads(c, m);
  }

  /** What the encoder accepts decodes back to itself exactly if it meets the rules of the decoder too. */
  lemma RoundTripIff(c: Codec, m: Message)
    requires EncodeMessage(c, m).Some?
    ensures DecodeBytes(c, EncodeMessage(c, m).value) == Some(m) <==> DecoderRules(m)
  {
    hide DecodeBytes, DecoderRules, EncoderRules, Payload;
    if DecoderRules(m) {
      WireRoundTrip(c, m);
    } else if DecodeBytes(c, EncodeMessage(c, m).value) == Some(m) {
      WireIsCanonical(c, EncodeMessage(c, m).value);
    }
  }

  /** The most bytes that fields of a layout can take. */
  function Room(l: Layout): nat {
    match l
    case End => 0
    case Then(k, rest) => (if k == KString then MAX_STRING_BYTES + 2 else if k == KHash then 32 else Width(k)) + Room(rest)
  }

  lemma {:induction false} FieldsTakeRoom(utf8: Utf8, l: Layout, atoms: Atoms)
    requires AtomsOk(utf8, l, atoms)
    ensures |EncodeAtoms(l, atoms)| <= Room(l)
  {
    hide LittleEndian;
    if l.Then? {
      FieldsTakeRoom(utf8, l.rest, atoms.tail);
    }
  }

  lemma RoomTaken()
    ensures Room(TICK_LAYOUT) == 68 && Room(BATCH_LAYOUT) == 839
  {
    var t, b := TICK_LAYOUT.rest.rest.rest, BATCH_LAYOUT.rest.rest.rest.rest.rest;
    assert Room(t.rest.rest.rest) == 20 && Room(t) == 44;
    var b5 := b.rest.rest.rest.rest.rest;
    assert Room(b5.rest.rest) == 261 && Room(b5) == 269;
    assert Room(b) == 305;
  }

  lemma {:induction false} RecordsTakeRoom(utf8: Utf8, ts: seq<Tick>)
    ensures |EncodeRecords(ts)| <= 68 * |ts|
  {
    hide EncodeAtoms, AtomsOk, Room;
    if ts != [] {
      RecordsTakeRoom(utf8, ts[1..]);
      TickIsOk(utf8, ts[0]);
      FieldsTakeRoom(utf8, TICK_LAYOUT, TickAtoms(ts[0]));
      RoomTaken();
    }
  }

  /** A batch that meets the encoder's rules always fits a frame. */
  lemma BatchFits(c: Codec, b: BatchFrame)
    requires EncoderRules(c, Batch(b))
    ensures EncodeMessage(c, Batch(b)).Some?
  {
    hide EncodeAtoms, AtomsOk, Room, EncodeRecords, HeadAtoms;
    FieldsTakeRoom(c.utf8, BATCH_LAYOUT, HeadAtoms(b));
    RoomTaken();
    RecordsTakeRoom(c.utf8, b.records);
  }

  /** A batch that names no schema is encoded, and does not decode back to itself. */
  lemma NoSchemaExample(c: Codec)
    requires c.utf8([])
    ensures var m := Batch(BatchFrame([], [], 0, 0, 0, 0, 0, 0, 0, 0, 0, 0, [], []));
            EncodeMessage(c, m).Some? && DecodeBytes(c, EncodeMessage(c, m).value) != Some(m)
  {
    hide DecodeBytes, EncodeMessage, AtomsOk;
    var b := BatchFrame([], [], 0, 0, 0, 0, 0, 0, 0, 0, 0, 0, [], []);
    HeadIsOk(c.utf8, b);
    BatchFits(c, b);
    RoundTripIff(c, Batch(b));
  }

  lemma HeadIsOk(utf8: Utf8, b: BatchFrame)
    requires |b.records| <= MAX_RECORDS
    requires forall t :: t in [b.leaseId, b.sessionId, b.schemaId] ==> |t| <= MAX_STRING_BYTES && utf8(t)
    ensures AtomsOk(utf8, BATCH_LAYOUT, HeadAtoms(b))
  {
    hide AtomsOk;
    var ts := [b.leaseId, b.sessionId, b.schemaId];
    assert ts[0] in ts && ts[1] in ts && ts[2] in ts;
    var l, a := BATCH_LAYOUT, HeadAtoms(b);
    var l5, a5 := l.rest.rest.rest.rest.rest, a.tail.tail.tail.tail.tail;
    var l10, a10 := l5.rest.rest.rest.rest.rest, a5.tail.tail.tail.tail.tail;
    NoField(utf8, Nil);
    OneField(utf8, l10.rest.rest.rest, a10.tail.tail.tail);
    OneField(utf8, l10.rest.rest, a10.tail.tail);
    OneField(utf8, l10.rest, a10.tail);
    OneField(utf8, l10, a10);
    OneField(utf8, l5.rest.rest.rest.rest, a5.tail.tail.tail.tail);
    OneField(utf8, l5.rest.rest.rest, a5.tail.tail.tail);
    OneField(utf8, l5.rest.rest, a5.tail.tail);
    OneField(utf8, l5.rest, a5.tail);
    OneField(utf8, l5, a5);
    OneField(utf8, l.rest.rest.rest.rest, a.tail.tail.tail.tail);
    OneField(utf8, l.rest.rest.rest, a.tail.tail.tail);
    OneField(utf8, l.rest.rest, a.tail.tail);
    OneField(utf8, l.rest, a.tail);
    OneField(utf8, l, a);
  }

  /**
   Every accepted frame is the encoding of the message it decodes to. So frames and messages determine each other, and
   comparing an accepted frame with its re-encoding, as later readers of the WAL do, never finds a difference.
   */
  lemma WireIsCanonical(c: Codec, raw: Bytes)
    requires DecodeBytes(c, raw).Some?
    ensures Legal(c, DecodeBytes(c, raw).value) && EncodeMessage(c, DecodeBytes(c, raw).value) == Some(raw)
  {
    hide ReadMessage, DecodeFrame, EncodeFrame, Payload, AtomsOk, FieldRules, CountRules, LayoutOf, HeadAtoms, SOURCE_SCHEMA_MT5;
    var f := DecodeFrame(c, raw).value;
    FrameWrites(c, raw);
    MessageWrites(c, f.kind, f.payload);
  }

  lemma WireInjective(c: Codec, a: Bytes, b: Bytes)
    requires DecodeBytes(c, a).Some? && DecodeBytes(c, a) == DecodeBytes(c, b)
    ensures a == b
  {
    hide DecodeBytes, EncodeMessage;
    WireIsCanonical(c, a);
    WireIsCanonical(c, b);
  }

  lemma {:induction false} RecordsAppend(ts: seq<Tick>, t: Tick)
    ensures EncodeRecords(ts + [t]) == EncodeRecords(ts) + EncodeAtoms(TICK_LAYOUT, TickAtoms(t))
  {
    hide EncodeAtoms, TickAtoms;
    if ts == [] {
      assert ([] + [t])[1..] == [];
    } else {
      RecordsAppend(ts[1..], t);
      assert (ts + [t])[1..] == ts[1..] + [t];
    }
  }

  /** `encodePayload` for a batch: the checks, the fixed fields, the record loop. */
  method EncodeBatch(c: Codec, b: BatchFrame) returns (payload: Option<Bytes>)
    ensures payload == if EncoderRules(c, Batch(b)) then Some(Payload(Batch(b))) else None
  {
    hide EncodeAtoms, HeadAtoms, TickAtoms, AtomsOk, EncodeRecords;
    if !CountRules(b) || !AtomsOk(c.utf8, BATCH_LAYOUT, HeadAtoms(b)) {
      return None;
    }
    var w := new Writer();
    w.WriteFields(c.utf8, BATCH_LAYOUT, HeadAtoms(b));
    NoRecords();
    for i := 0 to |b.records|
      invariant w.out == EncodeAtoms(BATCH_LAYOUT, HeadAtoms(b)) + EncodeRecords(b.records[..i])
    {
      RecordsAppend(b.records[..i], b.records[i]);
      assert b.records[..i + 1] == b.records[..i] + [b.records[i]];
      TickIsOk(c.utf8, b.records[i]);
      w.WriteFields(c.utf8, TICK_LAYOUT, TickAtoms(b.records[i]));
    }
    assert b.records[..|b.records|] == b.records;
    return Some(w.out);
  }

  lemma NoRecords()
    ensures EncodeRecords([]) == []
  {
  }

  /** `decodeBatch` on a reader: the fixed fields, then the record loop, then nothing left. */
  method DecodeBatch(utf8: Utf8, d: Bytes) returns (b: Option<BatchFrame>)
    ensures b == ReadBatch(utf8, d)
  {
    hide ReadAtoms, BatchFrom, SOURCE_SCHEMA_MT5, Nth;
    var r := new Reader(d);
    var head := r.ReadFields(utf8, BATCH_LAYOUT);
    if head.None? {
      return None;
    }
    var count := CountOf(head.value);
    if count < 0 || count > MAX_RECORDS {
      return None;
    }
    var records := DecodeRecords(utf8, r, count);
    if records.None? || r.off != |d| {
      return None;
    }
    b := BatchFrom(head.value, records.value);
    if b.None? || b.value.schemaId != SOURCE_SCHEMA_MT5 || !CountRules(b.value) {
      return None;
    }
  }

  /** The record loop. */
  method DecodeRecords(utf8: Utf8, r: Reader, count: nat) returns (records: Option<seq<Tick>>)
    requires r.Valid()
    modifies r`off
    ensures r.Valid()
    ensures if records.Some? then ReadRecords(utf8, r.data, old(r.off), count) == Got(records.value, r.off)
            else ReadRecords(utf8, r.data, old(r.off), count).Bad?
  {
    hide ReadAtoms, TickFrom;
    var ts: seq<Tick> := [];
    assert ReadRecords(utf8, r.data, r.off, 0) == Got([], r.off);
    for i := 0 to count
      invariant r.Valid() && ReadRecords(utf8, r.data, old(r.off), i) == Got(ts, r.off)
    {
      RecordsStep(utf8, r.data, old(r.off), i);
      var fields := r.ReadFields(utf8, TICK_LAYOUT);
      if fields.None? || TickFrom(fields.value).None? {
        RecordsStop(utf8, r.data, old(r.off), i + 1, count);
        return None;
      }
      ts := ts + [TickFrom(fields.value).value];
    }
    return Some(ts);
  }

  /** Reading one record more. */
  lemma {:induction false} RecordsStep(utf8: Utf8, d: Bytes, p: nat, n: nat)
    requires ReadRecords(utf8, d, p, n).Got?
    ensures var before := ReadRecords(utf8, d, p, n);
            var next := ReadAtoms(utf8, TICK_LAYOUT, d, before.pos);
            ReadRecords(utf8, d, p, n + 1) ==
            if next.Bad? || TickFrom(next.value).None? then Bad else Got(before.value + [TickFrom(next.value).value], next.pos)
    decreases n
  {
    hide ReadAtoms, TickFrom;
    if n == 0 {
      var next := ReadAtoms(utf8, TICK_LAYOUT, d, p);
      if next.Got? && TickFrom(next.value).Some? {
        assert ReadRecords(utf8, d, next.pos, 0) == Got([], next.pos);
        assert [TickFrom(next.value).value] + [] == [] + [TickFrom(next.value).value];
      }
    } else {
      var first := ReadAtoms(utf8, TICK_LAYOUT, d, p);
      RecordsStep(utf8, d, first.pos, n - 1);
      var t := TickFrom(first.value).value;
      var more := ReadRecords(utf8, d, first.pos, n - 1);
      var next := ReadAtoms(utf8, TICK_LAYOUT, d, more.pos);
      if next.Got? && TickFrom(next.value).Some? {
        assert [t] + (more.value + [TickFrom(next.value).value]) == ([t] + more.value) + [TickFrom(next.value).value];
      }
    }
  }

  lemma {:induction false} RecordsStop(utf8: Utf8, d: Bytes, p: nat, n: nat, k: nat)
    requires n <= k && ReadRecords(utf8, d, p, n).Bad?
    ensures ReadRecords(utf8, d, p, k).Bad?
    decreases n
  {
    hide ReadAtoms, TickFrom;
    if n > 0 {
      var first := ReadAtoms(utf8, TICK_LAYOUT, d, p);
      if first.Got? && TickFrom(first.value).Some? {
        RecordsStop(utf8, d, first.pos, n - 1, k - 1);
      }
    }
  }
}
