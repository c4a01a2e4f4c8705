/**
 Canonical JSON values, their printed form, and what the parser reads (internal/protocol/canonical_json.go).
 A document is a sequence of Unicode code points, which is what bytes that pass the UTF-8 check stand for.
 */
module Json {
  import opened Protocol
  import opened Decimal
  import opened Texts

  type Code = c: int | 0 <= c < 0x11_0000 && !(0xD800 <= c < 0xE000) witness 0

  type Document = seq<Code>

  /** An object is kept as its members in ascending order of their keys. */
  datatype Value =
    | Null
    | Bool(b: bool)
    | Int(n: int)
    | Str(s: seq<Code>)
    | Arr(items: seq<Value>)
    | Obj(members: seq<Member>)

  datatype Member = Member(key: seq<Code>, value: Value)

  // ---- Order of keys ----

  /** Code point order, which is the byte order of UTF-8. */
  predicate Less(a: seq<Code>, b: seq<Code>) {
    b != [] && (a == [] || a[0] < b[0] || (a[0] == b[0] && Less(a[1..], b[1..])))
  }

  predicate KeysAscend(ms: seq<Member>) {
    ms == [] ||
    var n := |ms| - 1;
    KeysAscend(ms[..n]) && (n > 0 ==> Less(ms[n - 1].key, ms[n].key))
  }

  /** The values that the source can print: 64-bit integers, objects with distinct keys. */
  predicate Printable(v: Value) {
    match v
    case Int(n) => -0x8000_0000_0000_0000 <= n <= MAX_U64
    case Arr(items) => forall i :: 0 <= i < |items| ==> Printable(items[i])
    case Obj(ms) => KeysAscend(ms) && forall i :: 0 <= i < |ms| ==> Printable(ms[i].value)
    case _ => true
  }

  // ---- Characters ----

  const QUOTE: Code := 0x22
  const BACKSLASH: Code := 0x5C
  const COMMA: Code := 0x2C
  const COLON: Code := 0x3A
  const OPEN_BRACKET: Code := 0x5B
  const CLOSE_BRACKET: Code := 0x5D
  const OPEN_BRACE: Code := 0x7B
  const CLOSE_BRACE: Code := 0x7D
  const LETTER_U: Code := 0x75
  const TAB: Code := 0x09

  /** "null", "true", "false" */
  const NULL_TEXT: Document := [0x6E, 0x75, 0x6C, 0x6C]
  const TRUE_TEXT: Document := [0x74, 0x72, 0x75, 0x65]
  const FALSE_TEXT: Document := [0x66, 0x61, 0x6C, 0x73, 0x65]

  function HexDigit(d: int): Code
    requires 0 <= d < 16
  {
    if d < 10 then 0x30 + d else 0x61 + d - 10
  }

  function Hex4(u: int): (s: Document)
    requires 0 <= u < 0x1_0000
    ensures |s| == 4
  {
    [HexDigit(u / 0x1000), HexDigit(u / 0x100 % 16), HexDigit(u / 16 % 16), HexDigit(u % 16)]
  }

  function UnicodeEscape(u: int): (s: Document)
    requires 0 <= u < 0x1_0000
    ensures |s| == 6
  {
    [BACKSLASH, LETTER_U] + Hex4(u)
  }

  /** The letter of a two-character escape, or -1. */
  function ShortEscape(c: Code): int {
    if c == QUOTE || c == BACKSLASH then c
    else if c == 0x08 then 0x62
    else if c == 0x0C then 0x66
    else if c == 0x0A then 0x6E
    else if c == 0x0D then 0x72
    else if c == 0x09 then 0x74
    else -1
  }

  function HighSurrogate(c: int): int
    requires 0x1_0000 <= c < 0x11_0000
  {
    0xD800 + (c - 0x1_0000) / 0x400
  }

  function LowSurrogate(c: int): int
    requires 0x1_0000 <= c < 0x11_0000
  {
    0xDC00 + (c - 0x1_0000) % 0x400
  }

  function Escape(c: Code): (s: Document)
    ensures s != []
  {
    if ShortEscape(c) >= 0 then [BACKSLASH, ShortEscape(c)]
    else if c < 0x20 then UnicodeEscape(c)
    else if c <= 0x7F then [c]
    else if c <= 0xFFFF then UnicodeEscape(c)
    else UnicodeEscape(HighSurrogate(c)) + UnicodeEscape(LowSurrogate(c))
  }

  // ---- Printing ----

  function Escaped(s: seq<Code>): Document {
    if s == [] then [] else Escaped(s[..|s| - 1]) + Escape(s[|s| - 1])
  }

  function PrintString(s: seq<Code>): Document {
    [QUOTE] + Escaped(s) + [QUOTE]
  }

  function IntText(n: int): Document {
    AsCodes(FormatInt(n))
  }

  /** Digits and a minus sign are code points. */
  function AsCodes(s: seq<int>): (d: Document)
    ensures |d| == |s| && forall i :: 0 <= i < |s| ==> d[i] == if 0 <= s[i] < 0x80 then s[i] else 0
  {
    seq(|s|, i requires 0 <= i < |s| => if 0 <= s[i] < 0x80 then s[i] else 0)
  }

  function Print(v: Value): Document
    decreases v, 1
  {
    match v
    case Null => NULL_TEXT
    case Bool(b) => if b then TRUE_TEXT else FALSE_TEXT
    case Int(n) => IntText(n)
    case Str(s) => PrintString(s)
    case Arr(items) => [OPEN_BRACKET] + PrintItems(v, 0) + [CLOSE_BRACKET]
    case Obj(ms) => [OPEN_BRACE] + PrintMembers(v, 0) + [CLOSE_BRACE]
  }

  /** Items from `k` on, with the commas between them. */
  function PrintItems(v: Value, k: nat): Document
    requires v.Arr? && k <= |v.items|
    decreases v, 0, |v.items| - k
  {
    if k == |v.items| then []
    else if k + 1 == |v.items| then Print(v.items[k])
    else Print(v.items[k]) + [COMMA] + PrintItems(v, k + 1)
  }

  function PrintMember(m: Member): Document
    decreases m, 2
  {
    PrintString(m.key) + [COLON] + Print(m.value)
  }

  function PrintMembers(v: Value, k: nat): Document
    requires v.Obj? && k <= |v.members|
    decreases v, 0, |v.members| - k
  {
    if k == |v.members| then []
    else if k + 1 == |v.members| then PrintMember(v.members[k])
    else PrintMember(v.members[k]) + [COMMA] + PrintMembers(v, k + 1)
  }

  // ---- Parsing ----

  predicate IsSpace(c: Code) { c == 0x20 || c == 0x09 || c == 0x0D || c == 0x0A }

  function Skip(d: Document, p: nat): (q: nat)
    requires p <= |d|
    ensures p <= q <= |d|
    decreases |d| - p
  {
    if p < |d| && IsSpace(d[p]) then Skip(d, p + 1) else p
  }

  predicate Here(d: Document, p: nat, c: Code) { p < |d| && d[p] == c }

  function HexValue(c: Code): int {
    if 0x30 <= c <= 0x39 then c - 0x30
    else if 0x61 <= c <= 0x66 then c - 0x61 + 10
    else if 0x41 <= c <= 0x46 then c - 0x41 + 10
    else -1
  }

  function HexAt(d: Document, p: nat): (r: Parsed<int>)
    requires p <= |d|
    ensures r.Got? ==> r.pos == p + 4 <= |d| && 0 <= r.value < 0x1_0000
  {
    if p + 4 > |d| then Bad else
    var a, b, c, e := HexValue(d[p]), HexValue(d[p + 1]), HexValue(d[p + 2]), HexValue(d[p + 3]);
    if a < 0 || b < 0 || c < 0 || e < 0 then Bad
    else Got(((a * 16 + b) * 16 + c) * 16 + e, p + 4)
  }

  /** A `\u` escape whose four digits start at `p`, with its low surrogate if it needs one. */
  function UnicodeAt(d: Document, p: nat): (r: Parsed<Code>)
    requires p <= |d|
    ensures r.Got? ==> p < r.pos <= |d|
  {
    var unit := HexAt(d, p);
    if unit.Bad? then Bad
    else if 0xD800 <= unit.value < 0xDC00 then
      if unit.pos + 6 > |d| || d[unit.pos] != BACKSLASH || d[unit.pos + 1] != LETTER_U then Bad else
      var low := HexAt(d, unit.pos + 2);
      if low.Bad? || low.value < 0xDC00 || low.value > 0xDFFF then Bad
      else Got(0x1_0000 + (unit.value - 0xD800) * 0x400 + (low.value - 0xDC00), low.pos)
    else if 0xDC00 <= unit.value < 0xE000 then Bad
    else Got(unit.value, unit.pos)
  }

  /** What a two-character escape stands for, or -1. */
  function Unescape(e: Code): int {
    if e == QUOTE || e == BACKSLASH || e == 0x2F then e
    else if e == 0x62 then 0x08
    else if e == 0x66 then 0x0C
    else if e == 0x6E then 0x0A
    else if e == 0x72 then 0x0D
    else if e == 0x74 then 0x09
    else -1
  }

  /** The control characters that may not stand in a string unescaped; tab, line feed and carriage return may. */
  predicate IsControl(c: Code) { c < 0x20 && c != 0x09 && c != 0x0A && c != 0x0D }

  /** One character of a string, which is not the closing quote. */
  function CharAt(d: Document, p: nat): (r: Parsed<Code>)
    requires p < |d| && d[p] != QUOTE
    ensures r.Got? ==> p < r.pos <= |d|
  {
    if d[p] == BACKSLASH then
      if p + 1 >= |d| then Bad
      else if d[p + 1] == LETTER_U then UnicodeAt(d, p + 2)
      else if Unescape(d[p + 1]) < 0 then Bad
      else Got(Unescape(d[p + 1]), p + 2)
    else if IsControl(d[p]) then Bad
    else Got(d[p], p + 1)
  }

  function CharsAt(d: Document, p: nat, s: seq<Code>): (r: Parsed<seq<Code>>)
    requires p <= |d|
    ensures r.Got? ==> p < r.pos <= |d|
    decreases |d| - p
  {
    if p >= |d| then Bad
    else if d[p] == QUOTE then Got(s, p + 1)
    else
      var c := CharAt(d, p);
      if c.Bad? then Bad else CharsAt(d, c.pos, s + [c.value])
  }

  function StringAt(d: Document, p: nat): (r: Parsed<seq<Code>>)
    requires p <= |d|
    ensures r.Got? ==> p < r.pos <= |d|
  {
    if Here(d, p, QUOTE) then CharsAt(d, p + 1, []) else Bad
  }

  /** The end of a run of digits. */
  function DigitsEnd(d: Document, p: nat): (q: nat)
    requires p <= |d|
    ensures p <= q <= |d| && forall i :: p <= i < q ==> IsDigit(d[i])
    decreases |d| - p
  {
    if p < |d| && IsDigit(d[p]) then DigitsEnd(d, p + 1) else p
  }

  /** The digits of an integer from `p` on: one zero, or a run that does not start with one; no fraction or exponent. */
  function MagnitudeAt(d: Document, p: nat): (r: Parsed<nat>)
    requires p <= |d|
    ensures r.Got? ==> p < r.pos <= |d|
  {
    if p >= |d| || !IsDigit(d[p]) then Bad else
    var end := if d[p] == DIGIT_ZERO then p + 1 else DigitsEnd(d, p);
    if d[p] == DIGIT_ZERO && end < |d| && IsDigit(d[end]) then Bad
    else if end < |d| && (d[end] == 0x2E || d[end] == 0x65 || d[end] == 0x45) then Bad
    else if end == p then Bad
    else Got(NatOf(d[p..end]), end)
  }

  function IntegerAt(d: Document, p: nat): (r: Parsed<Value>)
    requires p < |d|
    ensures r.Got? ==> p < r.pos <= |d|
  {
    if d[p] == MINUS then
      var m := MagnitudeAt(d, p + 1);
      if m.Bad? || m.value == 0 || m.value > 0x8000_0000_0000_0000 then Bad else Got(Int(0 - m.value), m.pos)
    else
      var m := MagnitudeAt(d, p);
      if m.Bad? || m.value > MAX_U64 then Bad else Got(Int(m.value), m.pos)
  }

  function LiteralAt(d: Document, p: nat, text: Document, v: Value): (r: Parsed<Value>)
    requires p <= |d| && text != []
    ensures r.Got? ==> p < r.pos <= |d|
  {
    if At(d, p, text) then Got(v, p + |text|) else Bad
  }

  predicate HasKey(ms: seq<Member>, key: seq<Code>) {
    exists i :: 0 <= i < |ms| && ms[i].key == key
  }

  /** Add a member to an object: the list stays in key order. */
  function Insert(ms: seq<Member>, m: Member): seq<Member> {
    if ms == [] || Less(ms[|ms| - 1].key, m.key) then ms + [m]
    else Insert(ms[..|ms| - 1], m) + [ms[|ms| - 1]]
  }

  function ValueAt(d: Document, pos: nat): (r: Parsed<Value>)
    requires pos <= |d|
    ensures r.Got? ==> pos < r.pos <= |d|
    decreases |d| - pos, 0
  {
    var p := Skip(d, pos);
    if p >= |d| then Bad
    else if d[p] == NULL_TEXT[0] then LiteralAt(d, p, NULL_TEXT, Null)
    else if d[p] == TRUE_TEXT[0] then LiteralAt(d, p, TRUE_TEXT, Bool(true))
    else if d[p] == FALSE_TEXT[0] then LiteralAt(d, p, FALSE_TEXT, Bool(false))
    else if d[p] == QUOTE then
      var s := StringAt(d, p);
      if s.Bad? then Bad else Got(Str(s.value), s.pos)
    else if d[p] == OPEN_BRACKET then ArrayAt(d, p)
    else if d[p] == OPEN_BRACE then ObjectAt(d, p)
    else if d[p] == MINUS || IsDigit(d[p]) then IntegerAt(d, p)
    else Bad
  }

  function ArrayAt(d: Document, p: nat): (r: Parsed<Value>)
    requires p < |d|
    ensures r.Got? ==> p < r.pos <= |d|
    decreases |d| - p - 1, 3
  {
    var q := Skip(d, p + 1);
    if Here(d, q, CLOSE_BRACKET) then Got(Arr([]), q + 1) else ItemsAt(d, q, [])
  }

  function ItemsAt(d: Document, p: nat, items: seq<Value>): (r: Parsed<Value>)
    requires p <= |d|
    ensures r.Got? ==> p < r.pos <= |d|
    decreases |d| - p, 1
  {
    var v := ValueAt(d, p);
    if v.Bad? then Bad else
    var q := Skip(d, v.pos);
    if Here(d, q, CLOSE_BRACKET) then Got(Arr(items + [v.value]), q + 1)
    else if Here(d, q, COMMA) then ItemsAt(d, q + 1, items + [v.value])
    else Bad
  }

  function ObjectAt(d: Document, p: nat): (r: Parsed<Value>)
    requires p < |d|
    ensures r.Got? ==> p < r.pos <= |d|
    decreases |d| - p - 1, 3
  {
    var q := Skip(d, p + 1);
    if Here(d, q, CLOSE_BRACE) then Got(Obj([]), q + 1) else MembersAt(d, q, [])
  }

  /** One member: a key that is new, a colon, a value. */
  function MemberAt(d: Document, pos: nat, ms: seq<Member>): (r: Parsed<Member>)
    requires pos <= |d|
    ensures r.Got? ==> pos < r.pos <= |d|
    decreases |d| - pos, 1
  {
    var key := StringAt(d, Skip(d, pos));
    if key.Bad? || HasKey(ms, key.value) then Bad else
    var q := Skip(d, key.pos);
    if !Here(d, q, COLON) then Bad else
    var v := ValueAt(d, q + 1);
    if v.Bad? then Bad else Got(Member(key.value, v.value), v.pos)
  }

  function MembersAt(d: Document, pos: nat, ms: seq<Member>): (r: Parsed<Value>)
    requires pos <= |d|
    ensures r.Got? ==> pos < r.pos <= |d|
    decreases |d| - pos, 2
  {
    var m := MemberAt(d, pos, ms);
    if m.Bad? then Bad else
    var q := Skip(d, m.pos);
    if Here(d, q, CLOSE_BRACE) then Got(Obj(Insert(ms, m.value)), q + 1)
    else if Here(d, q, COMMA) then MembersAt(d, q + 1, Insert(ms, m.value))
    else Bad
  }

  const BYTE_ORDER_MARK: Code := 0xFEFF

  /** `DecodeCanonicalJSON` */
  function Decode(d: Document): Option<Value> {
    if Here(d, 0, BYTE_ORDER_MARK) then None else
    var v := ValueAt(d, 0);
    if v.Bad? || Skip(d, v.pos) != |d| || Print(v.value) != d then None else Some(v.value)
  }
}
