/** The fields of wire messages and their bytes (internal/protocol/protocol.go, `writer` and `reader`). */
module Fields {
  import opened Protocol
  import opened Texts

  type Bytes = seq<U8>

  // ---- Little-endian numbers ----

  function Pow256(k: nat): nat { if k == 0 then 1 else 256 * Pow256(k - 1) }

  function LittleEndian(n: nat, k: nat): (b: Bytes)
    ensures |b| == k
  {
    if k == 0 then [] else [n % 256] + LittleEndian(n / 256, k - 1)
  }

  function FromLittleEndian(b: Bytes): nat {
    if b == [] then 0 else b[0] + 256 * FromLittleEndian(b[1..])
  }

  lemma {:induction false} NumberReads(n: nat, k: nat)
    requires n < Pow256(k)
    ensures FromLittleEndian(LittleEndian(n, k)) == n
  {
    if k > 0 {
      NumberReads(n / 256, k - 1);
      assert LittleEndian(n, k)[1..] == LittleEndian(n / 256, k - 1);
    }
  }

  lemma {:induction false} BytesRead(b: Bytes)
    ensures FromLittleEndian(b) < Pow256(|b|) && LittleEndian(FromLittleEndian(b), |b|) == b
  {
    if b != [] {
      BytesRead(b[1..]);
      var n := FromLittleEndian(b[1..]);
      DivideBy256(b[0], n);
      assert b == [b[0]] + b[1..];
    }
  }

  lemma DivideBy256(low: U8, n: nat)
    ensures (low + 256 * n) % 256 == low && (low + 256 * n) / 256 == n
  {
  }

  lemma Widths()
    ensures Pow256(1) == 0x100 && Pow256(2) == 0x1_0000 && Pow256(4) == 0x1_0000_0000 && Pow256(8) == 0x1_0000_0000_0000_0000
  {
    assert Pow256(3) == 0x100_0000;
    assert Pow256(5) == 0x100_0000_0000;
    assert Pow256(6) == 0x1_0000_0000_0000;
    assert Pow256(7) == 0x100_0000_0000_0000;
  }

  // ---- One field ----

  datatype Kind = KU8 | KU16 | KU32 | KU64 | KI32 | KI64 | KHash | KString

  datatype Atom = Num(n: int) | Blob(b: Bytes)

  /** Whether bytes are valid UTF-8 is left open. */
  type Utf8 = Bytes -> bool

  predicate AtomOk(utf8: Utf8, k: Kind, a: Atom) {
    match k
    case KU8 => a.Num? && 0 <= a.n < 0x100
    case KU16 => a.Num? && 0 <= a.n < 0x1_0000
    case KU32 => a.Num? && 0 <= a.n < 0x1_0000_0000
    case KU64 => a.Num? && 0 <= a.n < 0x1_0000_0000_0000_0000
    case KI32 => a.Num? && -0x8000_0000 <= a.n < 0x8000_0000
    case KI64 => a.Num? && -0x8000_0000_0000_0000 <= a.n < 0x8000_0000_0000_0000
    case KHash => a.Blob? && |a.b| == 32
    case KString => a.Blob? && |a.b| <= MAX_STRING_BYTES && utf8(a.b)
  }

  /** Width of a number, zero for the others. */
  function Width(k: Kind): nat {
    match k
    case KU8 => 1
    case KU16 => 2
    case KU32 => 4
    case KI32 => 4
    case KU64 => 8
    case KI64 => 8
    case _ => 0
  }

  predicate Signed(k: Kind) { k == KI32 || k == KI64 }

  /** A signed number is written as its two's complement. */
  function Raw(k: Kind, n: int): int {
    if Signed(k) && n < 0 then n + Pow256(Width(k)) else n
  }

  function Cooked(k: Kind, n: nat): int {
    if Signed(k) && n >= Pow256(Width(k)) / 2 then n - Pow256(Width(k)) else n
  }

  function EncodeAtom(k: Kind, a: Atom): Bytes {
    if Width(k) > 0 then
      if a.Num? && Raw(k, a.n) >= 0 then LittleEndian(Raw(k, a.n), Width(k)) else []
    else if a.Blob? then (if k == KString then LittleEndian(|a.b|, 2) else []) + a.b
    else []
  }

  /** `take` */
  function Take(d: Bytes, p: nat, size: nat): Parsed<Bytes> {
    if p + size > |d| then Bad else Got(d[p..p + size], p + size)
  }

  function ReadString(utf8: Utf8, d: Bytes, p: nat): Parsed<Atom> {
    var size := Take(d, p, 2);
    if size.Bad? || FromLittleEndian(size.value) > MAX_STRING_BYTES then Bad else
    var text := Take(d, size.pos, FromLittleEndian(size.value));
    if text.Bad? || !utf8(text.value) then Bad else Got(Blob(text.value), text.pos)
  }

  function ReadAtom(utf8: Utf8, k: Kind, d: Bytes, p: nat): Parsed<Atom> {
    if k == KString then ReadString(utf8, d, p) else
    var b := Take(d, p, if k == KHash then 32 else Width(k));
    if b.Bad? then Bad
    else if k == KHash then Got(Blob(b.value), b.pos)
    else Got(Num(Cooked(k, FromLittleEndian(b.value))), b.pos)
  }

  lemma SignRoundTrip(utf8: Utf8, k: Kind, n: int)
    requires Width(k) > 0 && AtomOk(utf8, k, Num(n))
    ensures 0 <= Raw(k, n) < Pow256(Width(k)) && Cooked(k, Raw(k, n)) == n
  {
    Widths();
  }

  lemma SignBack(utf8: Utf8, k: Kind, n: nat)
    requires Width(k) > 0 && n < Pow256(Width(k))
    ensures AtomOk(utf8, k, Num(Cooked(k, n))) && Raw(k, Cooked(k, n)) == n
  {
    Widths();
  }

  /** A field that may be written is read back. */
  lemma AtomReads(utf8: Utf8, k: Kind, a: Atom, d: Bytes, p: nat)
    requires AtomOk(utf8, k, a) && At(d, p, EncodeAtom(k, a))
    ensures ReadAtom(utf8, k, d, p) == Got(a, p + |EncodeAtom(k, a)|)
  {
    hide LittleEndian, FromLittleEndian, Pow256, Raw, Cooked;
    if Width(k) > 0 {
      SignRoundTrip(utf8, k, a.n);
      NumberReads(Raw(k, a.n), Width(k));
    } else if k == KString {
      Widths();
      NumberReads(|a.b|, 2);
      AtSplit(d, p, LittleEndian(|a.b|, 2), a.b);
    } else {
      assert [] + a.b == a.b;
    }
  }

  /** A field that was read may be written, and is written as the bytes it was read from. */
  lemma AtomWrites(utf8: Utf8, k: Kind, d: Bytes, p: nat)
    requires ReadAtom(utf8, k, d, p).Got?
    ensures var r := ReadAtom(utf8, k, d, p);
            AtomOk(utf8, k, r.value) && At(d, p, EncodeAtom(k, r.value)) && r.pos == p + |EncodeAtom(k, r.value)|
  {
    hide LittleEndian, FromLittleEndian, Pow256, Raw, Cooked;
    if Width(k) > 0 {
      var b := d[p..p + Width(k)];
      BytesRead(b);
      SignBack(utf8, k, FromLittleEndian(b));
    } else if k == KString {
      StringWrites(utf8, d, p);
    } else {
      assert [] + d[p..p + 32] == d[p..p + 32];
    }
  }

  lemma StringWrites(utf8: Utf8, d: Bytes, p: nat)
    requires ReadString(utf8, d, p).Got?
    ensures var r := ReadString(utf8, d, p);
            AtomOk(utf8, KString, r.value) && At(d, p, EncodeAtom(KString, r.value)) && r.pos == p + |EncodeAtom(KString, r.value)|
  {
    hide LittleEndian, FromLittleEndian;
    var size := d[p..p + 2];
    BytesRead(size);
    AtJoin(d, p, size, d[p + 2..p + 2 + FromLittleEndian(size)]);
  }

  // ---- Fields in a row ----

  datatype Layout = End | Then(kind: Kind, rest: Layout)

  datatype Atoms = Nil | Cons(head: Atom, tail: Atoms)

  predicate AtomsOk(utf8: Utf8, l: Layout, atoms: Atoms) {
    match l
    case End => atoms.Nil?
    case Then(k, rest) => atoms.Cons? && AtomOk(utf8, k, atoms.head) && AtomsOk(utf8, rest, atoms.tail)
  }

  function EncodeAtoms(l: Layout, atoms: Atoms): Bytes {
    if l.End? || atoms.Nil? then [] else EncodeAtom(l.kind, atoms.head) + EncodeAtoms(l.rest, atoms.tail)
  }

  function ReadAtoms(utf8: Utf8, l: Layout, d: Bytes, p: nat): Parsed<Atoms> {
    match l
    case End => Got(Nil, p)
    case Then(k, rest) =>
      var a := ReadAtom(utf8, k, d, p);
      if a.Bad? then Bad else
      var more := ReadAtoms(utf8, rest, d, a.pos);
      if more.Bad? then Bad else Got(Cons(a.value, more.value), more.pos)
  }

  lemma {:induction false} AtomsRead(utf8: Utf8, l: Layout, atoms: Atoms, d: Bytes, p: nat)
    requires AtomsOk(utf8, l, atoms) && At(d, p, EncodeAtoms(l, atoms))
    ensures ReadAtoms(utf8, l, d, p) == Got(atoms, p + |EncodeAtoms(l, atoms)|)
  {
    hide AtomOk, EncodeAtom, ReadAtom, At;
    if l.Then? {
      AtSplit(d, p, EncodeAtom(l.kind, atoms.head), EncodeAtoms(l.rest, atoms.tail));
      AtomReads(utf8, l.kind, atoms.head, d, p);
      AtomsRead(utf8, l.rest, atoms.tail, d, p + |EncodeAtom(l.kind, atoms.head)|);
    }
  }

  lemma {:induction false} AtomsWrite(utf8: Utf8, l: Layout, d: Bytes, p: nat)
    requires p <= |d| && ReadAtoms(utf8, l, d, p).Got?
    ensures var r := ReadAtoms(utf8, l, d, p);
            AtomsOk(utf8, l, r.value) && At(d, p, EncodeAtoms(l, r.value)) && r.pos == p + |EncodeAtoms(l, r.value)| <= |d|
  {
    hide AtomOk, EncodeAtom, ReadAtom;
    if l.Then? {
      AtomWrites(utf8, l.kind, d, p);
      var a := ReadAtom(utf8, l.kind, d, p);
      AtomsWrite(utf8, l.rest, d, a.pos);
      AtJoin(d, p, EncodeAtom(l.kind, a.value), EncodeAtoms(l.rest, ReadAtoms(utf8, l.rest, d, a.pos).value));
    }
  }

  // ---- The writer and the reader ----

  class Writer {
    var out: Bytes

    constructor ()
      ensures out == []
    {
      out := [];
    }

    method WriteNumber(n: nat, width: nat)
      modifies this
      ensures out == old(out) + LittleEndian(n, width)
    {
      var rest := n;
      for i := 0 to width
        invariant out + LittleEndian(rest, width - i) == old(out) + LittleEndian(n, width)
      {
        assert out + LittleEndian(rest, width - i) == (out + [rest % 256]) + LittleEndian(rest / 256, width - i - 1);
        out := out + [rest % 256];
        rest := rest / 256;
      }
      assert out + [] == out;
    }

    method WriteAtom(utf8: Utf8, k: Kind, a: Atom) returns (ok: bool)
      requires k != KString ==> AtomOk(utf8, k, a)
      requires k == KString ==> a.Blob?
      modifies this
      ensures ok == AtomOk(utf8, k, a) && out == if ok then old(out) + EncodeAtom(k, a) else old(out)
    {
      hide LittleEndian;
      if k == KString {
        if !utf8(a.b) || |a.b| > MAX_STRING_BYTES {
          return false;
        }
        WriteNumber(|a.b|, 2);
        out := out + a.b;
      } else if k == KHash {
        out := out + a.b;
      } else {
        SignRoundTrip(utf8, k, a.n);
        WriteNumber(Raw(k, a.n), Width(k));
      }
      return true;
    }

    /** Fields in the order of a layout. */
    method WriteFields(utf8: Utf8, l: Layout, atoms: Atoms)
      requires AtomsOk(utf8, l, atoms)
      modifies this
      ensures out == old(out) + EncodeAtoms(l, atoms)
      decreases l
    {
      hide AtomOk, EncodeAtom;
      if l.Then? {
        OkShape(utf8, l.kind, atoms.head);
        var _ := WriteAtom(utf8, l.kind, atoms.head);
        WriteFields(utf8, l.rest, atoms.tail);
      }
    }
  }

  lemma OkShape(utf8: Utf8, k: Kind, a: Atom)
    requires AtomOk(utf8, k, a)
    ensures k == KString ==> a.Blob?
  {
  }

  class Reader {
    const data: Bytes
    var off: nat

    ghost predicate Valid()
      reads this
    {
      off <= |data|
    }

    constructor (data: Bytes)
      ensures Valid() && this.data == data && off == 0
    {
      this.data, off := data, 0;
    }

    method TakeBytes(size: nat) returns (b: Option<Bytes>)
      requires Valid()
      modifies this`off
      ensures Valid() && (if b.Some? then Take(data, old(off), size) == Got(b.value, off) else Take(data, old(off), size).Bad? && off == old(off))
    {
      if off + size > |data| {
        return None;
      }
      b := Some(data[off..off + size]);
      off := off + size;
    }

    method ReadField(utf8: Utf8, k: Kind) returns (a: Option<Atom>)
      requires Valid()
      modifies this`off
      ensures Valid() && (if a.Some? then ReadAtom(utf8, k, data, old(off)) == Got(a.value, off) else ReadAtom(utf8, k, data, old(off)).Bad?)
    {
      hide Take, FromLittleEndian;
      if k == KString {
        var size := TakeBytes(2);
        if size.None? || FromLittleEndian(size.value) > MAX_STRING_BYTES {
          return None;
        }
        var text := TakeBytes(FromLittleEndian(size.value));
        if text.None? || !utf8(text.value) {
          return None;
        }
        return Some(Blob(text.value));
      }
      var b := TakeBytes(if k == KHash then 32 else Width(k));
      if b.None? {
        return None;
      }
      if k == KHash {
        return Some(Blob(b.value));
      }
      return Some(Num(Cooked(k, FromLittleEndian(b.value))));
    }

    /** Fields in the order of a layout. */
    method ReadFields(utf8: Utf8, l: Layout) returns (atoms: Option<Atoms>)
      requires Valid()
      modifies this`off
      ensures Valid() && (if atoms.Some? then ReadAtoms(utf8, l, data, old(off)) == Got(atoms.value, off) else ReadAtoms(utf8, l, data, old(off)).Bad?)
      decreases l
    {
      hide ReadAtom;
      if l.End? {
        return Some(Nil);
      }
      var a := ReadField(utf8, l.kind);
      if a.None? {
        return None;
      }
      var more := ReadFields(utf8, l.rest);
      if more.None? {
        return None;
      }
      return Some(Cons(a.value, more.value));
    }
  }
}
