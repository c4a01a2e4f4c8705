/** The parser and the printer as objects: one moves a position, the other fills a buffer (internal/protocol/canonical_json.go). */
module JsonParsers {
  import opened Protocol
  import opened Decimal
  import opened Json
  import opened Texts

  class Parser {
    const data: Document
    var pos: nat

    ghost predicate Valid()
      reads this
    {
      pos <= |data|
    }

    constructor (data: Document)
      ensures Valid() && this.data == data && pos == 0
    {
      this.data, pos := data, 0;
    }

    method SkipWhitespace()
      requires Valid()
      modifies this`pos
      ensures Valid() && pos == Skip(data, old(pos))
    {
      while pos < |data| && IsSpace(data[pos])
        invariant Valid() && Skip(data, pos) == Skip(data, old(pos))
      {
        pos := pos + 1;
      }
    }

    method Consume(want: Code) returns (found: bool)
      requires Valid()
      modifies this`pos
      ensures Valid() && found == Here(data, old(pos), want) && pos == if found then old(pos) + 1 else old(pos)
    {
      if pos < |data| && data[pos] == want {
        pos := pos + 1;
        return true;
      }
      return false;
    }

    method ParseValue() returns (r: Option<Value>)
      requires Valid()
      modifies this`pos
      ensures Valid() && old(pos) <= pos && (if r.Some? then ValueAt(data, old(pos)) == Got(r.value, pos) else ValueAt(data, old(pos)).Bad?)
      decreases |data| - pos, 0
    {
      hide ArrayAt, ObjectAt, StringAt, IntegerAt, Skip;
      SkipWhitespace();
      if pos >= |data| {
        return None;
      }
      if data[pos] == NULL_TEXT[0] {
        r := ParseLiteral(NULL_TEXT, Null);
      } else if data[pos] == TRUE_TEXT[0] {
        r := ParseLiteral(TRUE_TEXT, Bool(true));
      } else if data[pos] == FALSE_TEXT[0] {
        r := ParseLiteral(FALSE_TEXT, Bool(false));
      } else if data[pos] == QUOTE {
        var s := ParseString();
        r := if s.Some? then Some(Str(s.value)) else None;
      } else if data[pos] == OPEN_BRACKET {
        r := ParseArray();
      } else if data[pos] == OPEN_BRACE {
        r := ParseObject();
      } else if data[pos] == MINUS || IsDigit(data[pos]) {
        r := ParseInteger();
      } else {
        r := None;
      }
    }

    method ParseLiteral(text: Document, v: Value) returns (r: Option<Value>)
      requires Valid() && text != []
      modifies this`pos
      ensures Valid() && old(pos) <= pos
      ensures if r.Some? then LiteralAt(data, old(pos), text, v) == Got(r.value, pos) else LiteralAt(data, old(pos), text, v).Bad?
    {
      if pos + |text| > |data| || data[pos..pos + |text|] != text {
        return None;
      }
      pos := pos + |text|;
      return Some(v);
    }

    method ParseArray() returns (r: Option<Value>)
      requires Valid() && pos < |data|
      modifies this`pos
      ensures Valid() && old(pos) <= pos && (if r.Some? then ArrayAt(data, old(pos)) == Got(r.value, pos) else ArrayAt(data, old(pos)).Bad?)
      decreases |data| - pos - 1, 3
    {
      hide ValueAt, Skip;
      pos := pos + 1;
      var items: seq<Value> := [];
      SkipWhitespace();
      ghost var start := pos;
      var empty := Consume(CLOSE_BRACKET);
      if empty {
        return Some(Arr(items));
      }
      while true
        invariant Valid() && start <= pos && ItemsAt(data, pos, items) == ItemsAt(data, start, [])
        decreases |data| - pos
      {
        var v := ParseValue();
        if v.None? {
          return None;
        }
        items := items + [v.value];
        SkipWhitespace();
        var done := Consume(CLOSE_BRACKET);
        if done {
          return Some(Arr(items));
        }
        var more := Consume(COMMA);
        if !more {
          return None;
        }
      }
    }

    method ParseObject() returns (r: Option<Value>)
      requires Valid() && pos < |data|
      modifies this`pos
      ensures Valid() && old(pos) <= pos && (if r.Some? then ObjectAt(data, old(pos)) == Got(r.value, pos) else ObjectAt(data, old(pos)).Bad?)
      decreases |data| - pos - 1, 3
    {
      hide MemberAt, Skip;
      pos := pos + 1;
      var members: seq<Member> := [];
      SkipWhitespace();
      ghost var start := pos;
      var empty := Consume(CLOSE_BRACE);
      if empty {
        return Some(Obj(members));
      }
      while true
        invariant Valid() && start <= pos && MembersAt(data, pos, members) == MembersAt(data, start, [])
        decreases |data| - pos
      {
        var m := ParseMember(members);
        if m.None? {
          return None;
        }
        members := Insert(members, m.value);
        SkipWhitespace();
        var done := Consume(CLOSE_BRACE);
        if done {
          return Some(Obj(members));
        }
        var more := Consume(COMMA);
        if !more {
          return None;
        }
      }
    }

    /** The body of the loop over an object's members. */
    method ParseMember(members: seq<Member>) returns (r: Option<Member>)
      requires Valid()
      modifies this`pos
      ensures Valid() && old(pos) <= pos
      ensures if r.Some? then MemberAt(data, old(pos), members) == Got(r.value, pos) else MemberAt(data, old(pos), members).Bad?
      decreases |data| - pos, 1
    {
      hide ValueAt, CharsAt, Skip;
      SkipWhitespace();
      if pos >= |data| || data[pos] != QUOTE {
        return None;
      }
      var key := ParseString();
      if key.None? || HasKey(members, key.value) {
        return None;
      }
      SkipWhitespace();
      var colon := Consume(COLON);
      if !colon {
        return None;
      }
      var v := ParseValue();
      if v.None? {
        return None;
      }
      return Some(Member(key.value, v.value));
    }

    method ParseString() returns (r: Option<seq<Code>>)
      requires Valid()
      modifies this`pos
      ensures Valid() && old(pos) <= pos && (if r.Some? then StringAt(data, old(pos)) == Got(r.value, pos) else StringAt(data, old(pos)).Bad?)
    {
      hide CharAt;
      var quoted := Consume(QUOTE);
      if !quoted {
        return None;
      }
      var s: seq<Code> := [];
      while pos < |data|
        invariant Valid() && old(pos) < pos && CharsAt(data, pos, s) == CharsAt(data, old(pos) + 1, [])
        decreases |data| - pos
      {
        if data[pos] == QUOTE {
          pos := pos + 1;
          return Some(s);
        }
        var c := ParseChar();
        if c.None? {
          return None;
        }
        s := s + [c.value];
      }
      return None;
    }

    /** The body of the loop over a string's characters. */
    method ParseChar() returns (r: Option<Code>)
      requires Valid() && pos < |data| && data[pos] != QUOTE
      modifies this`pos
      ensures Valid() && old(pos) < pos && (if r.Some? then CharAt(data, old(pos)) == Got(r.value, pos) else CharAt(data, old(pos)).Bad?)
    {
      hide HexAt;
      var b := data[pos];
      pos := pos + 1;
      if b == BACKSLASH {
        if pos >= |data| {
          return None;
        }
        var escape := data[pos];
        pos := pos + 1;
        if escape == LETTER_U {
          r := ParseUnicode();
          return;
        }
        if Unescape(escape) < 0 {
          return None;
        }
        return Some(Unescape(escape));
      }
      if IsControl(b) {
        return None;
      }
      return Some(b);
    }

    method ParseUnicode() returns (r: Option<Code>)
      requires Valid()
      modifies this`pos
      ensures Valid() && old(pos) <= pos && (if r.Some? then UnicodeAt(data, old(pos)) == Got(r.value, pos) else UnicodeAt(data, old(pos)).Bad?)
    {
      hide HexAt;
      var unit := ParseHex4();
      if unit.None? {
        return None;
      }
      if 0xD800 <= unit.value <= 0xDBFF {
        if pos + 6 > |data| || data[pos] != BACKSLASH || data[pos + 1] != LETTER_U {
          return None;
        }
        pos := pos + 2;
        var low := ParseHex4();
        if low.None? || low.value < 0xDC00 || low.value > 0xDFFF {
          return None;
        }
        return Some(0x1_0000 + (unit.value - 0xD800) * 0x400 + (low.value - 0xDC00));
      } else if 0xDC00 <= unit.value <= 0xDFFF {
        return None;
      }
      return Some(unit.value);
    }

    method ParseHex4() returns (r: Option<int>)
      requires Valid()
      modifies this`pos
      ensures Valid() && old(pos) <= pos && (if r.Some? then HexAt(data, old(pos)) == Got(r.value, pos) else HexAt(data, old(pos)).Bad?)
    {
      hide HexAt;
      if pos + 4 > |data| {
        HexNeedsFour(data, pos);
        return None;
      }
      var value := 0;
      for i := 0 to 4
        invariant pos == old(pos) && HexPrefix(data, pos, i) == Some(value)
      {
        var digit := HexValue(data[pos + i]);
        if digit < 0 {
          HexStops(data, pos, i + 1, 4);
          HexPrefixIsFour(data, pos);
          return None;
        }
        value := value * 16 + digit;
      }
      pos := pos + 4;
      HexPrefixIsFour(data, old(pos));
      return Some(value);
    }

    method ParseInteger() returns (r: Option<Value>)
      requires Valid() && pos < |data| && (data[pos] == MINUS || IsDigit(data[pos]))
      modifies this`pos
      ensures Valid() && old(pos) <= pos && (if r.Some? then IntegerAt(data, old(pos)) == Got(r.value, pos) else IntegerAt(data, old(pos)).Bad?)
    {
      hide MagnitudeAt;
      var negative := data[pos] == MINUS;
      if negative {
        pos := pos + 1;
      }
      var magnitude := ParseMagnitude();
      if magnitude.None? {
        return None;
      }
      if negative {
        if magnitude.value == 0 || magnitude.value > 0x8000_0000_0000_0000 {
          return None;
        }
        return Some(Int(0 - magnitude.value));
      }
      if magnitude.value > MAX_U64 {
        return None;
      }
      return Some(Int(magnitude.value));
    }

    /** The digits: a lone zero, or a run that does not start with one; then no fraction and no exponent. */
    method ParseMagnitude() returns (r: Option<nat>)
      requires Valid()
      modifies this`pos
      ensures Valid() && old(pos) <= pos && (if r.Some? then MagnitudeAt(data, old(pos)) == Got(r.value, pos) else MagnitudeAt(data, old(pos)).Bad?)
    {
      hide NatOf;
      if pos >= |data| {
        return None;
      }
      var start := pos;
      if data[pos] == DIGIT_ZERO {
        pos := pos + 1;
        if pos < |data| && IsDigit(data[pos]) {
          return None;
        }
      } else if IsDigit(data[pos]) {
        SkipDigits();
      } else {
        return None;
      }
      if pos < |data| && (data[pos] == 0x2E || data[pos] == 0x65 || data[pos] == 0x45) {
        return None;
      }
      return Some(NatOf(data[start..pos]));
    }

    method SkipDigits()
      requires Valid()
      modifies this`pos
      ensures Valid() && pos == DigitsEnd(data, old(pos))
    {
      while pos < |data| && IsDigit(data[pos])
        invariant Valid() && DigitsEnd(data, pos) == DigitsEnd(data, old(pos))
      {
        pos := pos + 1;
      }
    }
  }

  /** The value of the first `n` hexadecimal digits. */
  function HexPrefix(d: Document, p: nat, n: nat): Option<int>
    requires p + n <= |d|
  {
    if n == 0 then Some(0) else
    var before := HexPrefix(d, p, n - 1);
    if before.None? || HexValue(d[p + n - 1]) < 0 then None else Some(before.value * 16 + HexValue(d[p + n - 1]))
  }

  lemma HexStops(d: Document, p: nat, n: nat, k: nat)
    requires n <= k && p + k <= |d| && HexPrefix(d, p, n).None?
    ensures HexPrefix(d, p, k).None?
  {
    hide HexValue;
  }

  lemma HexNeedsFour(d: Document, p: nat)
    requires p <= |d| < p + 4
    ensures HexAt(d, p).Bad?
  {
  }

  lemma HexPrefixIsFour(d: Document, p: nat)
    requires p + 4 <= |d|
    ensures HexAt(d, p) == match HexPrefix(d, p, 4) { case None => Bad case Some(value) => Got(value, p + 4) }
  {
    hide HexValue;
    assert HexPrefix(d, p, 0) == Some(0);
    var a := HexPrefix(d, p, 1);
    var b := HexPrefix(d, p, 2);
    var c := HexPrefix(d, p, 3);
    assert a == if HexValue(d[p]) < 0 then None else Some(HexValue(d[p]));
    assert b == if a.None? || HexValue(d[p + 1]) < 0 then None else Some(a.value * 16 + HexValue(d[p + 1]));
    assert c == if b.None? || HexValue(d[p + 2]) < 0 then None else Some(b.value * 16 + HexValue(d[p + 2]));
  }

  class Printer {
    var out: Document

    constructor ()
      ensures out == []
    {
      out := [];
    }

    method WriteValue(v: Value)
      modifies this
      ensures out == old(out) + Print(v)
      decreases v, 1
    {
      hide PrintItems, PrintMembers, PrintString, IntText;
      match v
      case Null => out := out + NULL_TEXT;
      case Bool(b) =>
        if b {
          out := out + TRUE_TEXT;
        } else {
          out := out + FALSE_TEXT;
        }
      case Int(n) => out := out + IntText(n);
      case Str(s) => WriteString(s);
      case Arr(_) => WriteItems(v);
      case Obj(_) => WriteMembers(v);
    }

    method WriteItems(v: Value)
      requires v.Arr?
      modifies this
      ensures out == old(out) + Print(v)
      decreases v, 0
    {
      hide PrintItems, ItemsDone;
      out := out + [OPEN_BRACKET];
      ghost var start := out;
      NothingDone(v);
      assert start + [] == start;
      for i := 0 to |v.items|
        invariant out == start + ItemsDone(v, i)
      {
        ItemDone(v, i);
        if i > 0 {
          Regroup(start, ItemsDone(v, i), [COMMA]);
          out := out + [COMMA];
        }
        ghost var here := out;
        WriteValue(v.items[i]);
        Regroup(start, here[|start|..], Print(v.items[i]));
        assert here == start + here[|start|..];
      }
      AllItemsDone(v, |v.items|);
      Close(old(out), [OPEN_BRACKET], PrintItems(v, 0), [CLOSE_BRACKET]);
      out := out + [CLOSE_BRACKET];
    }

    method WriteMembers(v: Value)
      requires v.Obj?
      modifies this
      ensures out == old(out) + Print(v)
      decreases v, 0
    {
      hide PrintMembers, MembersDone;
      out := out + [OPEN_BRACE];
      ghost var start := out;
      NothingDone(v);
      assert start + [] == start;
      for i := 0 to |v.members|
        invariant out == start + MembersDone(v, i)
      {
        MemberDone(v, i);
        if i > 0 {
          Regroup(start, MembersDone(v, i), [COMMA]);
          out := out + [COMMA];
        }
        ghost var here := out;
        WriteMember(v.members[i]);
        Regroup(start, here[|start|..], PrintMember(v.members[i]));
        assert here == start + here[|start|..];
      }
      AllMembersDone(v, |v.members|);
      Close(old(out), [OPEN_BRACE], PrintMembers(v, 0), [CLOSE_BRACE]);
      out := out + [CLOSE_BRACE];
    }

    method WriteMember(m: Member)
      modifies this
      ensures out == old(out) + PrintMember(m)
      decreases m, 2
    {
      hide Print, PrintString;
      WriteString(m.key);
      out := out + [COLON];
      WriteValue(m.value);
    }

    method WriteString(s: seq<Code>)
      modifies this
      ensures out == old(out) + PrintString(s)
    {
      hide Escape;
      out := out + [QUOTE];
      for i := 0 to |s|
        invariant out == old(out) + [QUOTE] + Escaped(s[..i])
      {
        assert s[..i + 1][..i] == s[..i];
        WriteEscaped(s[i]);
      }
      assert s[..|s|] == s;
      out := out + [QUOTE];
    }

    method WriteEscaped(c: Code)
      modifies this
      ensures out == old(out) + Escape(c)
    {
      hide Hex4;
      if ShortEscape(c) >= 0 {
        out := out + [BACKSLASH, ShortEscape(c)];
      } else if c < 0x20 {
        out := out + UnicodeEscape(c);
      } else if c <= 0x7F {
        out := out + [c];
      } else if c <= 0xFFFF {
        out := out + UnicodeEscape(c);
      } else {
        out := out + UnicodeEscape(HighSurrogate(c));
        out := out + UnicodeEscape(LowSurrogate(c));
      }
    }
  }

  lemma Close(out: Document, open: Document, body: Document, end: Document)
    ensures ((out + open) + body) + end == out + (open + body + end)
  {
  }

  /** What has been written of an array after its first `i` items. */
  function ItemsDone(v: Value, i: nat): Document
    requires v.Arr? && i <= |v.items|
  {
    if i == 0 then []
    else if i == 1 then Print(v.items[0])
    else (ItemsDone(v, i - 1) + [COMMA]) + Print(v.items[i - 1])
  }

  function MembersDone(v: Value, i: nat): Document
    requires v.Obj? && i <= |v.members|
  {
    if i == 0 then []
    else if i == 1 then PrintMember(v.members[0])
    else (MembersDone(v, i - 1) + [COMMA]) + PrintMember(v.members[i - 1])
  }

  lemma NothingDone(v: Value)
    ensures v.Arr? ==> ItemsDone(v, 0) == []
    ensures v.Obj? ==> MembersDone(v, 0) == []
  {
  }

  lemma ItemDone(v: Value, i: nat)
    requires v.Arr? && i < |v.items|
    ensures ItemsDone(v, i + 1) == (if i > 0 then ItemsDone(v, i) + [COMMA] else ItemsDone(v, i)) + Print(v.items[i])
  {
    hide Print;
  }

  lemma MemberDone(v: Value, i: nat)
    requires v.Obj? && i < |v.members|
    ensures MembersDone(v, i + 1) == (if i > 0 then MembersDone(v, i) + [COMMA] else MembersDone(v, i)) + PrintMember(v.members[i])
  {
    hide PrintMember;
  }

  lemma Rejoin(a: Document, b: Document, c: Document, d: Document)
    ensures ((a + b) + c) + d == a + ((b + c) + d)
  {
    Regroup(a + b, c, d);
    Regroup(a, b, c + d);
    Regroup(b, c, d);
  }

  /** What has been written and what is left make up the whole. */
  lemma {:induction false} AllItemsDone(v: Value, i: nat)
    requires v.Arr? && i <= |v.items|
    ensures i == |v.items| ==> ItemsDone(v, i) == PrintItems(v, 0)
    ensures 0 < i < |v.items| ==> (ItemsDone(v, i) + [COMMA]) + PrintItems(v, i) == PrintItems(v, 0)
  {
    hide Print;
    if i > 1 {
      AllItemsDone(v, i - 1);
      var done, item := ItemsDone(v, i - 1) + [COMMA], Print(v.items[i - 1]);
      if i < |v.items| {
        Rejoin(done, item, [COMMA], PrintItems(v, i));
      }
    }
  }

  lemma {:induction false} AllMembersDone(v: Value, i: nat)
    requires v.Obj? && i <= |v.members|
    ensures i == |v.members| ==> MembersDone(v, i) == PrintMembers(v, 0)
    ensures 0 < i < |v.members| ==> (MembersDone(v, i) + [COMMA]) + PrintMembers(v, i) == PrintMembers(v, 0)
  {
    hide PrintMember;
    if i > 1 {
      AllMembersDone(v, i - 1);
      var done, m := MembersDone(v, i - 1) + [COMMA], PrintMember(v.members[i - 1]);
      if i < |v.members| {
        Rejoin(done, m, [COMMA], PrintMembers(v, i));
      }
    }
  }

  method CanonicalJson(v: Value) returns (d: Document)
    ensures d == Print(v)
  {
    var printer := new Printer();
    printer.WriteValue(v);
    return printer.out;
  }

  method DecodeCanonicalJson(d: Document) returns (r: Option<Value>)
    ensures r == Decode(d)
  {
    hide ValueAt, Print, Skip;
    if |d| > 0 && d[0] == BYTE_ORDER_MARK {
      return None;
    }
    var parser := new Parser(d);
    var v := parser.ParseValue();
    if v.None? {
      return None;
    }
    parser.SkipWhitespace();
    if parser.pos != |d| {
      return None;
    }
    var canonical := CanonicalJson(v.value);
    if canonical != d {
      return None;
    }
    return v;
  }
}
