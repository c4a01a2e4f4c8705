/** Canonical JSON: printing and parsing undo each other. */
module JsonTheorems {
  import opened Protocol
  import opened Decimal
  import opened Json
  import opened Texts

  // ---- Where a text stands ----

  lemma AtHead(d: Document, p: nat, s: Document)
    requires At(d, p, s) && s != []
    ensures p < |d| && d[p] == s[0]
  {
    assert d[p..p + |s|][0] == d[p];
  }

  lemma AtIndex(d: Document, p: nat, s: Document, i: nat)
    requires At(d, p, s) && i < |s|
    ensures p + i < |d| && d[p + i] == s[i]
  {
    assert d[p..p + |s|][i] == d[p + i];
  }

  /** The document ends here, or goes on with something that ends a value. */
  predicate EndsHere(d: Document, p: nat) {
    p == |d| || (p < |d| && (d[p] == COMMA || d[p] == CLOSE_BRACKET || d[p] == CLOSE_BRACE))
  }

  // ---- Characters ----

  lemma HexDigitValue(x: int)
    requires 0 <= x < 16
    ensures HexValue(HexDigit(x)) == x && HexDigit(x) < 0x80
  {
  }

  lemma FourDigits(u: int)
    requires 0 <= u < 0x1_0000
    ensures ((u / 0x1000 * 16 + u / 0x100 % 16) * 16 + u / 16 % 16) * 16 + u % 16 == u && u / 0x1000 < 16
  {
    var a := u / 16;
    var b := a / 16;
    assert u / 0x100 == b && u / 0x1000 == b / 16;
  }

  lemma HexReads(d: Document, p: nat, u: int)
    requires 0 <= u < 0x1_0000 && At(d, p, Hex4(u))
    ensures HexAt(d, p) == Got(u, p + 4)
  {
    hide HexValue, HexDigit;
    FourDigits(u);
    HexDigitValue(u / 0x1000);
    HexDigitValue(u / 0x100 % 16);
    HexDigitValue(u / 16 % 16);
    HexDigitValue(u % 16);
    AtIndex(d, p, Hex4(u), 0);
    AtIndex(d, p, Hex4(u), 1);
    AtIndex(d, p, Hex4(u), 2);
    AtIndex(d, p, Hex4(u), 3);
  }

  lemma UnicodeEscapeReads(d: Document, p: nat, u: int)
    requires 0 <= u < 0x1_0000 && At(d, p, UnicodeEscape(u))
    ensures p + 6 <= |d| && d[p] == BACKSLASH && d[p + 1] == LETTER_U && HexAt(d, p + 2) == Got(u, p + 6)
  {
    hide Hex4, HexAt;
    AtSplit(d, p, [BACKSLASH, LETTER_U], Hex4(u));
    AtIndex(d, p, [BACKSLASH, LETTER_U], 0);
    AtIndex(d, p, [BACKSLASH, LETTER_U], 1);
    HexReads(d, p + 2, u);
  }

  lemma SurrogatesJoin(c: Code)
    requires c >= 0x1_0000
    ensures 0xD800 <= HighSurrogate(c) < 0xDC00 <= LowSurrogate(c) < 0xE000
    ensures 0x1_0000 + (HighSurrogate(c) - 0xD800) * 0x400 + (LowSurrogate(c) - 0xDC00) == c
  {
  }

  /** Each character is read back from its escaped form. */
  lemma CharReads(d: Document, p: nat, c: Code)
    requires At(d, p, Escape(c))
    ensures p < |d| && d[p] != QUOTE && CharAt(d, p) == Got(c, p + |Escape(c)|)
  {
    hide UnicodeEscape, HexAt;
    AtHead(d, p, Escape(c));
    if ShortEscape(c) >= 0 {
      AtIndex(d, p, Escape(c), 1);
    } else if c < 0x20 || 0x7F < c <= 0xFFFF {
      UnicodeEscapeReads(d, p, c);
    } else if c > 0xFFFF {
      var h, l := HighSurrogate(c), LowSurrogate(c);
      SurrogatesJoin(c);
      AtSplit(d, p, UnicodeEscape(h), UnicodeEscape(l));
      UnicodeEscapeReads(d, p, h);
      UnicodeEscapeReads(d, p + 6, l);
    }
  }

  lemma {:induction false} EscapedConcat(a: seq<Code>, b: seq<Code>)
    ensures Escaped(a + b) == Escaped(a) + Escaped(b)
  {
    hide Escape, Escaped;
    if b == [] {
      assert a + b == a;
      NothingEscaped();
      assert Escaped(a) + [] == Escaped(a);
    } else {
      var n := |b| - 1;
      EscapedConcat(a, b[..n]);
      EscapedAppend(a + b[..n], b[n]);
      EscapedAppend(b[..n], b[n]);
      assert a + b == (a + b[..n]) + [b[n]] && b == b[..n] + [b[n]];
      Regroup(Escaped(a), Escaped(b[..n]), Escape(b[n]));
    }
  }

  lemma EscapedAppend(s: seq<Code>, c: Code)
    ensures Escaped(s + [c]) == Escaped(s) + Escape(c)
  {
    hide Escape;
    assert (s + [c])[..|s|] == s;
  }

  /** From character `k` of a printed string on, the rest of the string is read. */
  lemma {:induction false} CharsRead(d: Document, p: nat, s: seq<Code>, k: nat)
    requires k <= |s| && At(d, p, Escaped(s[k..]) + [QUOTE])
    ensures CharsAt(d, p, s[..k]) == Got(s, p + |Escaped(s[k..])| + 1)
    decreases |s| - k
  {
    hide Escape, CharAt, Escaped, At;
    if k == |s| {
      assert s[k..] == [] && s[..k] == s;
      NothingEscaped();
      assert [] + [QUOTE] == [QUOTE];
      AtHead(d, p, [QUOTE]);
    } else {
      var rest := s[k + 1..];
      assert s[k..] == [s[k]] + rest;
      EscapedConcat([s[k]], rest);
      OneEscaped(s[k]);
      assert Escaped(s[k..]) + [QUOTE] == Escape(s[k]) + (Escaped(rest) + [QUOTE]);
      AtSplit(d, p, Escape(s[k]), Escaped(rest) + [QUOTE]);
      CharReads(d, p, s[k]);
      CharsRead(d, p + |Escape(s[k])|, s, k + 1);
      assert s[..k + 1] == s[..k] + [s[k]];
    }
  }

  lemma NothingEscaped()
    ensures Escaped([]) == []
  {
  }

  lemma OneEscaped(c: Code)
    ensures Escaped([c]) == Escape(c)
  {
    hide Escape;
    assert [c][..0] == [];
  }

  lemma StringReads(d: Document, p: nat, s: seq<Code>)
    requires At(d, p, PrintString(s))
    ensures Here(d, p, QUOTE) && StringAt(d, p) == Got(s, p + |PrintString(s)|)
  {
    hide Escaped, CharsAt, At;
    assert PrintString(s) == [QUOTE] + (Escaped(s) + [QUOTE]);
    AtSplit(d, p, [QUOTE], Escaped(s) + [QUOTE]);
    AtHead(d, p, [QUOTE]);
    assert s[0..] == s && s[..0] == [];
    CharsRead(d, p + 1, s, 0);
  }

  // ---- Integers ----

  lemma {:induction false} DigitsRead(d: Document, p: nat, q: nat)
    requires p <= q <= |d| && (forall i :: p <= i < q ==> IsDigit(d[i])) && (q < |d| ==> !IsDigit(d[q]))
    ensures DigitsEnd(d, p) == q
    decreases q - p
  {
    if p < q {
      DigitsRead(d, p + 1, q);
    }
  }

  lemma DigitsAreCodes(n: nat)
    ensures AsCodes(FormatNat(n)) == FormatNat(n)
  {
  }

  lemma MagnitudeReads(d: Document, p: nat, n: nat)
    requires At(d, p, AsCodes(FormatNat(n))) && EndsHere(d, p + |FormatNat(n)|)
    ensures MagnitudeAt(d, p) == Got(n, p + |FormatNat(n)|) && IsDigit(d[p])
  {
    hide FormatNat, NatOf, DigitsEnd;
    var s, q := FormatNat(n), p + |FormatNat(n)|;
    DigitsAreCodes(n);
    NatOfFormat(n);
    forall i | p <= i < q ensures IsDigit(d[i]) {
      AtIndex(d, p, AsCodes(s), i - p);
    }
    AtHead(d, p, AsCodes(s));
    assert d[p..q] == s;
    DigitsRead(d, p, q);
  }

  lemma IntegerReads(d: Document, p: nat, n: int)
    requires At(d, p, IntText(n)) && EndsHere(d, p + |IntText(n)|) && Printable(Int(n))
    ensures p < |d| && (d[p] == MINUS || IsDigit(d[p])) && IntegerAt(d, p) == Got(Int(n), p + |IntText(n)|)
  {
    hide FormatNat, MagnitudeAt;
    if n < 0 {
      assert IntText(n) == [MINUS] + AsCodes(FormatNat(-n));
      AtSplit(d, p, [MINUS], AsCodes(FormatNat(-n)));
      AtHead(d, p, [MINUS]);
      MagnitudeReads(d, p + 1, -n);
    } else {
      MagnitudeReads(d, p, n);
      AtHead(d, p, IntText(n));
    }
  }

  lemma MagnitudeWrites(d: Document, p: nat)
    requires p <= |d| && MagnitudeAt(d, p).Got?
    ensures var m := MagnitudeAt(d, p);
            At(d, p, AsCodes(FormatNat(m.value))) && m.pos == p + |FormatNat(m.value)|
  {
    hide FormatNat, NatOf;
    var end := MagnitudeAt(d, p).pos;
    var s := d[p..end];
    forall i | 0 <= i < |s| ensures IsDigit(s[i]) {
      assert s[i] == d[p + i];
    }
    FormatNatOf(s);
    DigitsAreCodes(NatOf(s));
  }

  /** An integer has one notation: what was read as an integer is the text that is printed for it. */
  lemma IntegerWrites(d: Document, p: nat)
    requires p < |d| && IntegerAt(d, p).Got?
    ensures var r := IntegerAt(d, p);
            r.value.Int? && At(d, p, IntText(r.value.n)) && r.pos == p + |IntText(r.value.n)|
  {
    hide FormatNat, MagnitudeAt;
    if d[p] == MINUS {
      MagnitudeWrites(d, p + 1);
      var m: int := MagnitudeAt(d, p + 1).value;
      AtJoin(d, p, [MINUS], AsCodes(FormatNat(m)));
      assert IntText(-m) == [MINUS] + AsCodes(FormatNat(m));
    } else {
      MagnitudeWrites(d, p);
    }
  }

  // ---- Values ----

  lemma NoSpace(d: Document, p: nat)
    requires p < |d| && !IsSpace(d[p])
    ensures Skip(d, p) == p
  {
  }

  lemma EndIsNoSpace(d: Document, p: nat)
    requires p <= |d| && EndsHere(d, p)
    ensures Skip(d, p) == p
  {
  }

  /** The first character of a printed value says what it is. */
  predicate Starts(v: Value, c: Code) {
    match v
    case Null => c == NULL_TEXT[0]
    case Bool(b) => c == if b then TRUE_TEXT[0] else FALSE_TEXT[0]
    case Int(_) => c == MINUS || IsDigit(c)
    case Str(_) => c == QUOTE
    case Arr(_) => c == OPEN_BRACKET
    case Obj(_) => c == OPEN_BRACE
  }

  lemma PrintStarts(v: Value)
    ensures Print(v) != [] && Starts(v, Print(v)[0])
  {
    hide FormatNat, PrintItems, PrintMembers, Escaped;
    if v.Int? && v.n >= 0 {
      DigitsAreCodes(v.n);
    }
  }

  lemma Dispatch(d: Document, p: nat, v: Value)
    requires p < |d| && Starts(v, d[p])
    ensures Skip(d, p) == p
    ensures v.Arr? ==> ValueAt(d, p) == ArrayAt(d, p)
    ensures v.Obj? ==> ValueAt(d, p) == ObjectAt(d, p)
    ensures v.Int? ==> ValueAt(d, p) == IntegerAt(d, p)
    ensures v.Str? ==> ValueAt(d, p) == (var s := StringAt(d, p); if s.Bad? then Bad else Got(Str(s.value), s.pos))
    ensures v.Null? ==> ValueAt(d, p) == LiteralAt(d, p, NULL_TEXT, v)
    ensures v.Bool? ==> ValueAt(d, p) == LiteralAt(d, p, if v.b then TRUE_TEXT else FALSE_TEXT, v)
  {
    hide ArrayAt, ObjectAt, IntegerAt, StringAt, LiteralAt;
    NoSpace(d, p);
  }

  /** A printed value is read back, wherever it stands. */
  lemma {:induction false} ValueReads(d: Document, p: nat, v: Value)
    requires Printable(v) && At(d, p, Print(v)) && EndsHere(d, p + |Print(v)|)
    ensures ValueAt(d, p) == Got(v, p + |Print(v)|)
    decreases v, 1
  {
    hide ArrayAt, ObjectAt, IntegerAt, StringAt, ValueAt, PrintString, IntText, PrintItems, PrintMembers, At;
    PrintStarts(v);
    AtHead(d, p, Print(v));
    Dispatch(d, p, v);
    match v
    case Int(n) => IntegerReads(d, p, n);
    case Str(s) => StringReads(d, p, s);
    case Arr(_) => ArrayReads(d, p, v);
    case Obj(_) => ObjectReads(d, p, v);
    case _ =>
  }

  lemma {:induction false} ArrayReads(d: Document, p: nat, v: Value)
    requires v.Arr? && Printable(v) && At(d, p, Print(v))
    ensures p < |d| && ArrayAt(d, p) == Got(v, p + |Print(v)|)
    decreases v, 0
  {
    hide PrintItems, ItemsAt, At, Printable;
    var body := PrintItems(v, 0) + [CLOSE_BRACKET];
    assert Print(v) == [OPEN_BRACKET] + body;
    AtSplit(d, p, [OPEN_BRACKET], body);
    AtHead(d, p, [OPEN_BRACKET]);
    AtHead(d, p + 1, body);
    if v.items == [] {
      NoItems(v);
      assert body == [CLOSE_BRACKET];
      NoSpace(d, p + 1);
    } else {
      ItemsStart(v, 0);
      NoSpace(d, p + 1);
      assert v.items[..0] == [];
      ItemsRead(d, p + 1, v, 0);
    }
  }

  lemma NoItems(v: Value)
    requires v.Arr? && v.items == []
    ensures PrintItems(v, 0) == []
  {
  }

  lemma ItemsStart(v: Value, k: nat)
    requires v.Arr? && k < |v.items|
    ensures PrintItems(v, k) != [] && Starts(v.items[k], PrintItems(v, k)[0])
    ensures !IsSpace(PrintItems(v, k)[0]) && PrintItems(v, k)[0] != CLOSE_BRACKET
  {
    hide Print;
    PrintStarts(v.items[k]);
  }

  lemma ItemsCut(v: Value, k: nat)
    requires v.Arr? && k < |v.items|
    ensures k + 1 == |v.items| ==> PrintItems(v, k) == Print(v.items[k])
    ensures k + 1 < |v.items| ==> PrintItems(v, k) == Print(v.items[k]) + ([COMMA] + PrintItems(v, k + 1))
  {
    hide Print;
  }

  /** From item `k` on, the rest of a printed array is read. */
  lemma {:induction false} ItemsRead(d: Document, p: nat, v: Value, k: nat)
    requires v.Arr? && Printable(v) && k < |v.items| && At(d, p, PrintItems(v, k) + [CLOSE_BRACKET])
    ensures ItemsAt(d, p, v.items[..k]) == Got(v, p + |PrintItems(v, k)| + 1)
    decreases v, 0, |v.items| - k
  {
    hide Print, PrintItems, At, ItemsAt, ValueAt;
    var item := v.items[k];
    ItemsCut(v, k);
    assert v.items[..k + 1] == v.items[..k] + [item];
    var q := p + |Print(item)|;
    if k + 1 == |v.items| {
      AtSplit(d, p, Print(item), [CLOSE_BRACKET]);
      AtHead(d, q, [CLOSE_BRACKET]);
      assert v.items[..k + 1] == v.items;
      ValueReads(d, p, item);
      LastItem(d, p, v.items[..k], item, q);
    } else {
      var rest := PrintItems(v, k + 1) + [CLOSE_BRACKET];
      Regroup(Print(item), [COMMA] + PrintItems(v, k + 1), [CLOSE_BRACKET]);
      Regroup([COMMA], PrintItems(v, k + 1), [CLOSE_BRACKET]);
      AtSplit(d, p, Print(item), [COMMA] + rest);
      AtSplit(d, q, [COMMA], rest);
      AtHead(d, q, [COMMA]);
      ValueReads(d, p, item);
      NextItem(d, p, v.items[..k], item, q);
      ItemsRead(d, q + 1, v, k + 1);
    }
  }

  lemma LastItem(d: Document, p: nat, items: seq<Value>, item: Value, q: nat)
    requires p <= |d| && ValueAt(d, p) == Got(item, q) && Here(d, q, CLOSE_BRACKET)
    ensures ItemsAt(d, p, items) == Got(Arr(items + [item]), q + 1)
  {
    hide ValueAt;
    EndIsNoSpace(d, q);
  }

  lemma NextItem(d: Document, p: nat, items: seq<Value>, item: Value, q: nat)
    requires p <= |d| && ValueAt(d, p) == Got(item, q) && Here(d, q, COMMA)
    ensures ItemsAt(d, p, items) == ItemsAt(d, q + 1, items + [item])
  {
    hide ValueAt;
    EndIsNoSpace(d, q);
  }

  lemma {:induction false} ObjectReads(d: Document, p: nat, v: Value)
    requires v.Obj? && Printable(v) && At(d, p, Print(v))
    ensures p < |d| && ObjectAt(d, p) == Got(v, p + |Print(v)|)
    decreases v, 0
  {
    hide PrintMembers, MembersAt, At, Printable;
    var body := PrintMembers(v, 0) + [CLOSE_BRACE];
    assert Print(v) == [OPEN_BRACE] + body;
    AtSplit(d, p, [OPEN_BRACE], body);
    AtHead(d, p, [OPEN_BRACE]);
    AtHead(d, p + 1, body);
    if v.members == [] {
      NoMembers(v);
      assert body == [CLOSE_BRACE];
      NoSpace(d, p + 1);
    } else {
      MembersStart(v, 0);
      assert body[0] == PrintMembers(v, 0)[0];
      NoSpace(d, p + 1);
      assert v.members[..0] == [];
      MembersRead(d, p + 1, v, 0);
    }
  }

  lemma NoMembers(v: Value)
    requires v.Obj? && v.members == []
    ensures PrintMembers(v, 0) == []
  {
  }

  lemma MembersStart(v: Value, k: nat)
    requires v.Obj? && k < |v.members|
    ensures PrintMembers(v, k) != [] && PrintMembers(v, k)[0] == QUOTE
  {
    hide Print, Escaped;
  }

  lemma MembersCut(v: Value, k: nat)
    requires v.Obj? && k < |v.members|
    ensures k + 1 == |v.members| ==> PrintMembers(v, k) == PrintMember(v.members[k])
    ensures k + 1 < |v.members| ==> PrintMembers(v, k) == PrintMember(v.members[k]) + ([COMMA] + PrintMembers(v, k + 1))
  {
    hide PrintMember;
  }

  lemma {:induction false} MemberReads(d: Document, p: nat, m: Member, ms: seq<Member>)
    requires Printable(m.value) && At(d, p, PrintMember(m)) && EndsHere(d, p + |PrintMember(m)|) && !HasKey(ms, m.key)
    ensures MemberAt(d, p, ms) == Got(m, p + |PrintMember(m)|)
    decreases m, 2
  {
    hide Print, PrintString, StringAt, ValueAt, At, HasKey, Printable;
    assert PrintMember(m) == PrintString(m.key) + ([COLON] + Print(m.value));
    AtSplit(d, p, PrintString(m.key), [COLON] + Print(m.value));
    StringReads(d, p, m.key);
    NoSpace(d, p);
    var q := p + |PrintString(m.key)|;
    AtSplit(d, q, [COLON], Print(m.value));
    AtHead(d, q, [COLON]);
    NoSpace(d, q);
    ValueReads(d, q + 1, m.value);
  }

  lemma {:induction false} MembersRead(d: Document, p: nat, v: Value, k: nat)
    requires v.Obj? && Printable(v) && k < |v.members| && At(d, p, PrintMembers(v, k) + [CLOSE_BRACE])
    ensures MembersAt(d, p, v.members[..k]) == Got(v, p + |PrintMembers(v, k)| + 1)
    decreases v, 0, |v.members| - k
  {
    hide PrintMember, PrintMembers, At, MemberAt, MembersAt, KeysAscend, Insert, HasKey;
    var m := v.members[k];
    MembersCut(v, k);
    KeyIsNew(v.members, k);
    var q := p + |PrintMember(m)|;
    if k + 1 == |v.members| {
      AtSplit(d, p, PrintMember(m), [CLOSE_BRACE]);
      AtHead(d, q, [CLOSE_BRACE]);
      assert v.members[..k + 1] == v.members;
      MemberReads(d, p, m, v.members[..k]);
      LastMember(d, p, v.members[..k], m, q);
    } else {
      var rest := PrintMembers(v, k + 1) + [CLOSE_BRACE];
      Regroup(PrintMember(m), [COMMA] + PrintMembers(v, k + 1), [CLOSE_BRACE]);
      Regroup([COMMA], PrintMembers(v, k + 1), [CLOSE_BRACE]);
      AtSplit(d, p, PrintMember(m), [COMMA] + rest);
      AtSplit(d, q, [COMMA], rest);
      AtHead(d, q, [COMMA]);
      MemberReads(d, p, m, v.members[..k]);
      NextMember(d, p, v.members[..k], m, q);
      MembersRead(d, q + 1, v, k + 1);
    }
  }

  lemma LastMember(d: Document, p: nat, ms: seq<Member>, m: Member, q: nat)
    requires p <= |d| && MemberAt(d, p, ms) == Got(m, q) && Here(d, q, CLOSE_BRACE)
    ensures MembersAt(d, p, ms) == Got(Obj(Insert(ms, m)), q + 1)
  {
    hide MemberAt, Insert;
    EndIsNoSpace(d, q);
  }

  lemma NextMember(d: Document, p: nat, ms: seq<Member>, m: Member, q: nat)
    requires p <= |d| && MemberAt(d, p, ms) == Got(m, q) && Here(d, q, COMMA)
    ensures MembersAt(d, p, ms) == MembersAt(d, q + 1, Insert(ms, m))
  {
    hide MemberAt, Insert;
    EndIsNoSpace(d, q);
  }

  // ---- Keys ----

  lemma {:induction false} LessIrreflexive(a: seq<Code>)
    ensures !Less(a, a)
  {
    if a != [] {
      LessIrreflexive(a[1..]);
    }
  }

  lemma {:induction false} LessTransitive(a: seq<Code>, b: seq<Code>, c: seq<Code>)
    requires Less(a, b) && Less(b, c)
    ensures Less(a, c)
  {
    if a != [] && a[0] == b[0] == c[0] {
      LessTransitive(a[1..], b[1..], c[1..]);
    }
  }

  lemma {:induction false} LessTotal(a: seq<Code>, b: seq<Code>)
    ensures a == b || Less(a, b) || Less(b, a)
  {
    if a != [] && b != [] && a[0] == b[0] {
      LessTotal(a[1..], b[1..]);
      assert a == [a[0]] + a[1..] && b == [b[0]] + b[1..];
    }
  }

  lemma {:induction false} KeysBelow(ms: seq<Member>, i: nat, j: nat)
    requires KeysAscend(ms) && i < j < |ms|
    ensures Less(ms[i].key, ms[j].key)
    decreases |ms|
  {
    var n := |ms| - 1;
    if j < n {
      KeysBelow(ms[..n], i, j);
    } else if i < n - 1 {
      KeysBelow(ms[..n], i, n - 1);
      LessTransitive(ms[i].key, ms[n - 1].key, ms[n].key);
    }
  }

  lemma KeyIsNew(ms: seq<Member>, k: nat)
    requires KeysAscend(ms) && k < |ms|
    ensures !HasKey(ms[..k], ms[k].key) && Insert(ms[..k], ms[k]) == ms[..k + 1]
  {
    hide KeysAscend, Less;
    forall i | 0 <= i < k ensures ms[..k][i].key != ms[k].key {
      KeysBelow(ms, i, k);
      LessIrreflexive(ms[k].key);
    }
    if k > 0 {
      KeysBelow(ms, k - 1, k);
    }
    assert ms[..k + 1] == ms[..k] + [ms[k]];
  }

  // ---- The theorems ----

  /** Decoding what was printed gives the value back. */
  lemma DecodePrint(v: Value)
    requires Printable(v)
    ensures Decode(Print(v)) == Some(v)
  {
    hide ValueAt, Print, Printable;
    var d := Print(v);
    assert d[0..|d|] == d;
    ValueReads(d, 0, v);
    EndIsNoSpace(d, |d|);
    PrintStarts(v);
  }

  /** Printing is injective: a document determines its value. */
  lemma PrintInjective(v: Value, w: Value)
    requires Printable(v) && Printable(w) && Print(v) == Print(w)
    ensures v == w
  {
    hide Decode, Printable;
    DecodePrint(v);
    DecodePrint(w);
  }

  // ---- What the parser can return ----

  predicate MembersOk(ms: seq<Member>) {
    KeysAscend(ms) && forall i :: 0 <= i < |ms| ==> Printable(ms[i].value)
  }

  lemma {:induction false} InsertAscends(ms: seq<Member>, m: Member)
    requires KeysAscend(ms) && !HasKey(ms, m.key)
    ensures KeysAscend(Insert(ms, m)) && |Insert(ms, m)| == |ms| + 1
    ensures var last := Insert(ms, m)[|ms|].key;
            last == if ms == [] || Less(ms[|ms| - 1].key, m.key) then m.key else ms[|ms| - 1].key
  {
    hide Less;
    if ms == [] || Less(ms[|ms| - 1].key, m.key) {
      assert (ms + [m])[..|ms|] == ms;
    } else {
      var n := |ms| - 1;
      forall i | 0 <= i < n ensures ms[..n][i].key != m.key {
        assert ms[i].key != m.key;
      }
      InsertAscends(ms[..n], m);
      LessTotal(ms[n].key, m.key);
      assert ms[n].key != m.key;
      var r := Insert(ms[..n], m);
      assert (r + [ms[n]])[..|r|] == r;
    }
  }

  lemma {:induction false} InsertValues(ms: seq<Member>, m: Member)
    requires (forall i :: 0 <= i < |ms| ==> Printable(ms[i].value)) && Printable(m.value)
    ensures forall i :: 0 <= i < |Insert(ms, m)| ==> Printable(Insert(ms, m)[i].value)
  {
    hide Less, Printable;
    if !(ms == [] || Less(ms[|ms| - 1].key, m.key)) {
      InsertValues(ms[..|ms| - 1], m);
    }
  }

  /** Whatever the parser returns can be printed. */
  lemma {:induction false} ParsedIsPrintable(d: Document, p: nat)
    requires p <= |d| && ValueAt(d, p).Got?
    ensures Printable(ValueAt(d, p).value)
    decreases |d| - p, 0
  {
    hide ArrayAt, ObjectAt, StringAt, MagnitudeAt;
    var q := Skip(d, p);
    if d[q] == OPEN_BRACKET {
      ParsedArray(d, q);
    } else if d[q] == OPEN_BRACE {
      ParsedObject(d, q);
    }
  }

  lemma {:induction false} ParsedArray(d: Document, p: nat)
    requires p < |d| && ArrayAt(d, p).Got?
    ensures Printable(ArrayAt(d, p).value)
    decreases |d| - p - 1, 3
  {
    hide ItemsAt;
    var q := Skip(d, p + 1);
    if !Here(d, q, CLOSE_BRACKET) {
      ParsedItems(d, q, []);
    }
  }

  lemma {:induction false} ParsedItems(d: Document, p: nat, items: seq<Value>)
    requires p <= |d| && ItemsAt(d, p, items).Got? && forall i :: 0 <= i < |items| ==> Printable(items[i])
    ensures Printable(ItemsAt(d, p, items).value)
    decreases |d| - p, 1
  {
    hide ValueAt;
    ParsedIsPrintable(d, p);
    var v := ValueAt(d, p);
    var q := Skip(d, v.pos);
    if !Here(d, q, CLOSE_BRACKET) {
      ParsedItems(d, q + 1, items + [v.value]);
    }
  }

  lemma {:induction false} ParsedObject(d: Document, p: nat)
    requires p < |d| && ObjectAt(d, p).Got?
    ensures Printable(ObjectAt(d, p).value)
    decreases |d| - p - 1, 3
  {
    hide MembersAt;
    var q := Skip(d, p + 1);
    if !Here(d, q, CLOSE_BRACE) {
      ParsedMembers(d, q, []);
    }
  }

  lemma {:induction false} ParsedMembers(d: Document, p: nat, ms: seq<Member>)
    requires p <= |d| && MembersAt(d, p, ms).Got? && MembersOk(ms)
    ensures Printable(MembersAt(d, p, ms).value)
    decreases |d| - p, 2
  {
    hide MemberAt, Insert, KeysAscend;
    var m := MemberAt(d, p, ms);
    ParsedMember(d, p, ms);
    InsertAscends(ms, m.value);
    InsertValues(ms, m.value);
    var q := Skip(d, m.pos);
    if !Here(d, q, CLOSE_BRACE) {
      ParsedMembers(d, q + 1, Insert(ms, m.value));
    }
  }

  lemma {:induction false} ParsedMember(d: Document, p: nat, ms: seq<Member>)
    requires p <= |d| && MemberAt(d, p, ms).Got?
    ensures Printable(MemberAt(d, p, ms).value.value) && !HasKey(ms, MemberAt(d, p, ms).value.key)
    decreases |d| - p, 1
  {
    hide ValueAt, StringAt;
    var key := StringAt(d, Skip(d, p));
    ParsedIsPrintable(d, Skip(d, key.pos) + 1);
  }

  /** The decoder accepts exactly the printed forms of printable values. */
  lemma DecodeAcceptsIff(d: Document, v: Value)
    ensures Decode(d) == Some(v) <==> Printable(v) && d == Print(v)
  {
    hide ValueAt, Print, Printable;
    if Decode(d) == Some(v) {
      ParsedIsPrintable(d, 0);
    }
    if Printable(v) && d == Print(v) {
      DecodePrint(v);
    }
  }

  // ---- Pure ASCII ----

  predicate Ascii(d: Document) {
    forall i :: 0 <= i < |d| ==> d[i] < 0x80
  }

  lemma EscapeIsAscii(c: Code)
    ensures Ascii(Escape(c))
  {
  }

  lemma {:induction false} EscapedIsAscii(s: seq<Code>)
    ensures Ascii(Escaped(s))
  {
    hide Escape;
    if s != [] {
      EscapedIsAscii(s[..|s| - 1]);
      EscapeIsAscii(s[|s| - 1]);
    }
  }

  lemma {:induction false} PrintIsAscii(v: Value)
    ensures Ascii(Print(v))
    decreases v, 1
  {
    hide FormatInt, Escaped, PrintItems, PrintMembers;
    match v
    case Str(s) => EscapedIsAscii(s);
    case Arr(_) => ItemsAreAscii(v, 0);
    case Obj(_) => MembersAreAscii(v, 0);
    case _ =>
  }

  lemma {:induction false} ItemsAreAscii(v: Value, k: nat)
    requires v.Arr? && k <= |v.items|
    ensures Ascii(PrintItems(v, k))
    decreases v, 0, |v.items| - k
  {
    hide Print;
    if k < |v.items| {
      PrintIsAscii(v.items[k]);
      ItemsAreAscii(v, k + 1);
    }
  }

  lemma {:induction false} MembersAreAscii(v: Value, k: nat)
    requires v.Obj? && k <= |v.members|
    ensures Ascii(PrintMembers(v, k))
    decreases v, 0, |v.members| - k
  {
    hide PrintMember;
    if k < |v.members| {
      MemberIsAscii(v.members[k]);
      MembersAreAscii(v, k + 1);
    }
  }

  lemma {:induction false} MemberIsAscii(m: Member)
    ensures Ascii(PrintMember(m))
    decreases m, 2
  {
    hide Print, Escaped;
    EscapedIsAscii(m.key);
    PrintIsAscii(m.value);
  }

  /** Every accepted document is pure ASCII. */
  lemma AcceptedIsAscii(d: Document)
    requires Decode(d).Some?
    ensures Ascii(d)
  {
    hide ValueAt, Print;
    PrintIsAscii(Decode(d).value);
  }

  /** A string with an unescaped tab in it: the parser reads it, the decoder refuses it. */
  lemma RawTabExample()
    ensures var d := [QUOTE, TAB, QUOTE];
            ValueAt(d, 0) == Got(Str([TAB]), 3) && Decode(d) == None
  {
    var d := [QUOTE, TAB, QUOTE];
    assert CharsAt(d, 2, [TAB]) == Got([TAB], 3);
    assert [] + [TAB] == [TAB];
    assert CharsAt(d, 1, []) == CharsAt(d, 2, [TAB]);
    DecodeAcceptsIff(d, Str([TAB]));
    assert Escaped([TAB]) == [] + Escape(TAB);
  }
}
