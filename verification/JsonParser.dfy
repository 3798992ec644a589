/**
 * The JSON parser as it runs: a cursor over the text and a count of levels,
 * each method proved to read what the grammar's reader does.
 */
module JsonParser {
  import opened Basics
  import opened JsonGrammar
  import opened JsonReader
  import opened JsonTree

  // ---- What the text at a cursor is read as ----

  /** A string after its opening quote. */
  function StringAt(t: Bytes): Read<Bytes> {
    match ReadChars(t)
    case Bad => Bad
    case Ok(cs, rest) => Ok(Decode(cs), rest)
  }

  function TreeAt(t: Bytes, levels: nat): Read<Tree> {
    ReadValueWrites(t, levels);
    match ReadValue(t, levels)
    case Bad => Bad
    case Ok(v, rest) => Ok(TreeOf(v), rest)
  }

  /** An array's items, to its closing bracket. */
  function ItemsAt(t: Bytes, levels: nat): Read<seq<Tree>> {
    ReadEntriesWrites(Arr, t, levels);
    match ReadEntries(Arr, t, levels)
    case Bad => Bad
    case Ok(es, rest) => Ok(ItemsOf(es), rest)
  }

  /** An object's members, to its closing brace. */
  function MembersAt(t: Bytes, levels: nat): Read<seq<Member>> {
    ReadEntriesWrites(Obj, t, levels);
    match ReadEntries(Obj, t, levels)
    case Bad => Bad
    case Ok(es, rest) => Ok(MembersOf(es), rest)
  }

  function Onto<T>(got: seq<T>, r: Read<seq<T>>): Read<seq<T>> {
    match r
    case Bad => Bad
    case Ok(l, rest) => Ok(got + l, rest)
  }

  lemma OntoNothing<T>(r: Read<seq<T>>)
    ensures Onto([], r) == r
  {
    if r.Ok? { assert [] + r.v == r.v; }
  }

  lemma OntoTwice<T>(a: seq<T>, b: seq<T>, r: Read<seq<T>>)
    ensures Onto(a, Onto(b, r)) == Onto(a + b, r)
  {
    if r.Ok? { assert a + (b + r.v) == a + b + r.v; }
  }

  // ---- Strings, a character at a time ----

  lemma RawAt(t: Bytes)
    requires t != [] && t[0] >= 0x20 && t[0] != QUOTE && t[0] != BACKSLASH
    ensures StringAt(t) == Onto([t[0]], StringAt(t[1..]))
  {
  }

  lemma ShortAt(t: Bytes)
    requires |t| >= 2 && t[0] == BACKSLASH && IsShort(t[1])
    ensures StringAt(t) == Onto([Unescape(t[1])], StringAt(t[2..]))
  {
  }

  predicate HexAt(t: Bytes) {
    |t| >= 6 && t[0] == BACKSLASH && t[1] == LETTER_U && IsHex(t[2]) && IsHex(t[3]) && IsHex(t[4]) && IsHex(t[5])
  }

  function HexAtIs(t: Bytes): nat
    requires HexAt(t)
  {
    Hex4(Hex(t[2], t[3], t[4], t[5]))
  }

  lemma HexCharAt(t: Bytes)
    ensures HexAt(t) <==> ReadChar(t).Ok? && ReadChar(t).v.Hex?
    ensures HexAt(t) ==> ReadChar(t) == Ok(Hex(t[2], t[3], t[4], t[5]), t[6..])
  {
  }

  lemma LoneAt(t: Bytes)
    requires HexAt(t) && !(High(HexAtIs(t)) && HexAt(t[6..]) && Low(HexAtIs(t[6..])))
    ensures var cp := HexAtIs(t);
            StringAt(t) == Onto(Utf8(if High(cp) || Low(cp) then REPLACEMENT else cp), StringAt(t[6..]))
  {
    hide Utf8;
    hide Hex4;
    hide ReadChar;
    HexCharAt(t);
    HexCharAt(t[6..]);
    assert ReadChars(t) ==
        match ReadChars(t[6..]) case Bad => Bad case Ok(cs, rest) => Ok(Cons(Hex(t[2], t[3], t[4], t[5]), cs), rest);
  }

  lemma PairAt(t: Bytes)
    requires HexAt(t) && High(HexAtIs(t)) && HexAt(t[6..]) && Low(HexAtIs(t[6..]))
    ensures StringAt(t) ==
        Onto(Utf8(0x10000 + (HexAtIs(t) - 0xD800) * 1024 + (HexAtIs(t[6..]) - 0xDC00)), StringAt(t[12..]))
  {
    hide Utf8;
    hide Hex4;
    hide ReadChar;
    HexCharAt(t);
    HexCharAt(t[6..]);
    assert t[6..][6..] == t[12..];
    var a, b := Hex(t[2], t[3], t[4], t[5]), ReadChar(t[6..]).v;
    var r := ReadChars(t[12..]);
    assert ReadChars(t[6..]) == match r case Bad => Bad case Ok(cs, rest) => Ok(Cons(b, cs), rest);
    assert ReadChars(t) == match r case Bad => Bad case Ok(cs, rest) => Ok(Cons(a, Cons(b, cs)), rest);
  }

  /** A backslash and no escape after it. */
  lemma NoEscapeAt(t: Bytes)
    requires t != [] && t[0] == BACKSLASH && !(|t| >= 2 && IsShort(t[1])) && !HexAt(t)
    ensures StringAt(t) == Bad
  {
  }

  lemma HalfPairAt(t: Bytes)
    requires HexAt(t) && |t| >= 12 && t[6] == BACKSLASH && t[7] == LETTER_U && !HexAt(t[6..])
    ensures StringAt(t) == Bad
  {
    NoEscapeAt(t[6..]);
  }

  /**
   * Where looking for a string's closing quote stops: at the quote, the text's end, or a backslash
   * that ends the text.
   */
  function Stop(t: Bytes, i: nat): (q: nat)
    requires i <= |t|
    ensures i <= q <= |t|
    decreases |t| - i
  {
    if i == |t| || t[i] == QUOTE then i
    else if t[i] != BACKSLASH then Stop(t, i + 1)
    else if |t| - i < 2 then i
    else Stop(t, i + 2)
  }

  lemma StopAfterHex(t: Bytes, i: nat)
    requires i <= |t| && HexAt(t[i..])
    ensures Stop(t, i) == Stop(t, i + 6)
  {
    assert Stop(t, i) == Stop(t, i + 2);
    var u := t[i..];
    assert u[2] == t[i + 2] && u[3] == t[i + 3] && u[4] == t[i + 4] && u[5] == t[i + 5];
    assert Stop(t, i + 2) == Stop(t, i + 3);
    assert Stop(t, i + 3) == Stop(t, i + 4);
    assert Stop(t, i + 4) == Stop(t, i + 5);
  }

  /** A string with nowhere to stop but the text's end has no closing quote. */
  lemma {:induction false} NeverCloses(t: Bytes, i: nat)
    requires i <= |t| && Stop(t, i) == |t|
    ensures StringAt(t[i..]) == Bad
    decreases |t| - i
  {
    var u := t[i..];
    var c := ReadChar(u);
    if i < |t| && c.Ok? {
      var j := i + (|u| - |c.rest|);
      assert c.rest == t[j..];
      if c.v.Hex? { HexCharAt(u); StopAfterHex(t, i); }
      NeverCloses(t, j);
    }
  }

  // ---- Numbers ----

  lemma {:induction false} PutSplit(l: List<Byte>, rest: Bytes)
    ensures Put(l, rest) == Put(l, []) + rest
    decreases l
  {
    if l.Cons? { PutSplit(l.tail, rest); }
  }

  lemma {:induction false} PutOnto(l: List<Byte>, a: Bytes, b: Bytes)
    ensures Put(l, a + b) == Put(l, a) + b
    decreases l
  {
    if l.Cons? { PutOnto(l.tail, a, b); }
  }

  lemma ExpText(e: Exponent, rest: Bytes)
    ensures PutExp(e, rest) == PutExp(e, []) + rest
  {
    match e {
      case NoExp => assert [] + rest == rest;
      case Exp(_, _, ds) => PutOnto(ds, [], rest); assert [] + rest == rest;
    }
  }

  lemma UnsignedText(n: Number, rest: Bytes)
    ensures PutUnsigned(n, rest) == PutUnsigned(n, []) + rest
  {
    hide PutExp;
    var e := PutExp(n.exp, []);
    ExpText(n.exp, rest);
    PutOnto(n.frac, e, rest);
    assert PutFrac(n.frac, e + rest) == PutFrac(n.frac, e) + rest;
    PutOnto(n.whole, PutFrac(n.frac, e), rest);
  }

  lemma NumberText(n: Number, rest: Bytes)
    ensures PutNumber(n, rest) == PutNumber(n, []) + rest
  {
    hide PutUnsigned;
    UnsignedText(n, rest);
  }

  // ---- Containers, an entry at a time ----

  lemma WsTwice(t: Bytes)
    ensures ReadWs(ReadWs(t).1) == (Nil, ReadWs(t).1)
  {
  }

  function ItemStep(t: Bytes, levels: nat): Read<seq<Tree>> {
    match TreeAt(ReadWs(t).1, levels)
    case Bad => Bad
    case Ok(x, t1) => ItemEnd(x, ReadWs(t1).1, levels)
  }

  /** After an item and its whitespace: another, or the end. */
  function ItemEnd(x: Tree, t: Bytes, levels: nat): Read<seq<Tree>> {
    if t != [] && t[0] == COMMA then Onto([x], ItemsAt(t[1..], levels))
    else if t != [] && t[0] == CLOSE_BRACKET then Ok([x], t[1..])
    else Bad
  }

  lemma OntoNone<T>(xs: seq<T>)
    ensures Onto(xs, Bad) == Bad
  {
  }

  /** What an item and what follows it add to the items before. */
  lemma ItemThen(xs: seq<Tree>, x: Tree, t: Bytes, levels: nat)
    ensures Onto(xs, ItemEnd(x, t, levels)) ==
        if t != [] && t[0] == COMMA then Onto(xs + [x], ItemsAt(t[1..], levels))
        else if t != [] && t[0] == CLOSE_BRACKET then Ok(xs + [x], t[1..])
        else Bad
  {
    hide ItemsAt;
    if t != [] && t[0] == COMMA { OntoTwice(xs, [x], ItemsAt(t[1..], levels)); }
  }

  lemma MemberThen(ms: seq<Member>, m: Member, t: Bytes, levels: nat)
    ensures Onto(ms, MemberEnd(m, t, levels)) ==
        if t != [] && t[0] == COMMA then Onto(ms + [m], MembersAt(t[1..], levels))
        else if t != [] && t[0] == CLOSE_BRACE then Ok(ms + [m], t[1..])
        else Bad
  {
    hide MembersAt;
    if t != [] && t[0] == COMMA { OntoTwice(ms, [m], MembersAt(t[1..], levels)); }
  }

  lemma ItemsUnfold(t: Bytes, levels: nat)
    ensures ItemsAt(t, levels) == ItemStep(t, levels)
  {
    hide ReadValue;
    hide ReadWs;
    hide TreeOf;
    var e := ReadEntry(Arr, t, levels);
    ReadEntryWrites(Arr, t, levels);
    assert ReadPrefix(Arr, t) == Ok(NoKey(ReadWs(t).0), ReadWs(t).1);
    ReadEntriesWrites(Arr, t, levels);
    var r := ReadEntries(Arr, t, levels);
    if e.Ok? && e.rest != [] && e.rest[0] == COMMA {
      var rest := ReadEntries(Arr, e.rest[1..], levels);
      ReadEntriesWrites(Arr, e.rest[1..], levels);
      if rest.Ok? {
        assert r.v == More(e.v, rest.v);
        assert ItemsOf(r.v) == [TreeOf(e.v.v)] + ItemsOf(rest.v);
      }
    }
  }

  function MemberStep(t: Bytes, levels: nat): Read<seq<Member>> {
    var t1 := ReadWs(t).1;
    if t1 == [] || t1[0] != QUOTE then Bad
    else
      match StringAt(t1[1..])
      case Bad => Bad
      case Ok(key, t2) =>
        var t3 := ReadWs(t2).1;
        if t3 == [] || t3[0] != COLON then Bad
        else
          match TreeAt(ReadWs(t3[1..]).1, levels)
          case Bad => Bad
          case Ok(x, t4) => MemberEnd(Member(key, x), ReadWs(t4).1, levels)
  }

  /** After a member and its whitespace: another, or the end. */
  function MemberEnd(m: Member, t: Bytes, levels: nat): Read<seq<Member>> {
    if t != [] && t[0] == COMMA then Onto([m], MembersAt(t[1..], levels))
    else if t != [] && t[0] == CLOSE_BRACE then Ok([m], t[1..])
    else Bad
  }

  lemma MembersUnfold(t: Bytes, levels: nat)
    ensures MembersAt(t, levels) == MemberStep(t, levels)
  {
    hide ReadValue;
    hide ReadWs;
    hide TreeOf;
    hide Decode;
    hide ReadChars;
    var pre := ReadPrefix(Obj, t);
    PrefixUnfold(t);
    if pre.Bad? { return; }
    ReadValueWrites(pre.rest, levels);
    var x := ReadValue(pre.rest, levels);
    assert TreeAt(pre.rest, levels) == if x.Bad? then Bad else Read.Ok(TreeOf(x.v), x.rest);
    if x.Bad? {
      assert ReadEntry(Obj, t, levels).Bad?;
      return;
    }
    ReadEntryWrites(Obj, t, levels);
    ReadEntriesWrites(Obj, t, levels);
    var e := ReadEntry(Obj, t, levels);
    var r := ReadEntries(Obj, t, levels);
    var m := MemberOf(e.v);
    if e.rest != [] && e.rest[0] == COMMA {
      var rest := ReadEntries(Obj, e.rest[1..], levels);
      ReadEntriesWrites(Obj, e.rest[1..], levels);
      if rest.Ok? {
        assert r.v == More(e.v, rest.v);
        assert MembersOf(r.v) == [m] + MembersOf(rest.v);
      }
    }
  }

  /** An object's key, its colon and the whitespace around them. */
  lemma PrefixUnfold(t: Bytes)
    ensures var pre, t1 := ReadPrefix(Obj, t), ReadWs(t).1;
            if t1 == [] || t1[0] != QUOTE || ReadChars(t1[1..]).Bad? then pre.Bad?
            else
              var key, t2 := ReadChars(t1[1..]).v, ReadWs(ReadChars(t1[1..]).rest).1;
              if t2 == [] || t2[0] != COLON then pre.Bad?
              else pre.Ok? && pre.v.Key? && pre.v.key == key && pre.rest == ReadWs(t2[1..]).1
  {
    hide ReadChars;
    hide ReadWs;
  }

  // ---- The parser ----

  /** The text between two places of it, and after them. */
  lemma Suffix(t: Bytes, i: nat, j: nat)
    requires i <= j <= |t|
    ensures t[i..][j - i..] == t[j..] && t[i..][..j - i] == t[i..j]
  {
  }

  class Cursor {
    const text: Bytes
    var p: nat
    var depth: nat

    constructor (text: Bytes)
      ensures this.text == text && p == 0 && depth == 0
    {
      this.text := text;
      p := 0;
      depth := 0;
    }

    ghost predicate Valid() reads `p { p <= |text| }

    ghost function Rest(): Bytes
      requires Valid()
      reads `p
    {
      text[p..]
    }

    predicate Sees(c: Byte) reads `p { p < |text| && text[p] == c }

    method SkipWs()
      requires Valid()
      modifies `p
      ensures Valid() && old(p) <= p && Rest() == ReadWs(old(Rest())).1
    {
      while p < |text| && IsWs(text[p])
        invariant Valid() && old(p) <= p
        invariant ReadWs(Rest()).1 == ReadWs(old(Rest())).1
      {
        assert text[p..][1..] == text[p + 1..];
        p := p + 1;
      }
    }

    /** Four hex digits: their value, or nothing and the cursor where it was. */
    method ReadHex4() returns (v: Option<nat>)
      requires Valid()
      modifies `p
      ensures Valid() && (v.None? ==> p == old(p))
      ensures v.Some? <==> |text| - old(p) >= 4 && forall k :: old(p) <= k < old(p) + 4 ==> IsHex(text[k])
      ensures v.Some? ==> p == old(p) + 4 && v.value == Hex4(Hex(text[p - 4], text[p - 3], text[p - 2], text[p - 1]))
    {
      if |text| - p < 4 { return None; }
      var n: nat := 0;
      for i := 0 to 4
        invariant forall k :: p <= k < p + i ==> IsHex(text[k])
        invariant i == 0 ==> n == 0
        invariant i == 1 ==> n == HexVal(text[p])
        invariant i == 2 ==> n == HexVal(text[p]) * 16 + HexVal(text[p + 1])
        invariant i == 3 ==> n == (HexVal(text[p]) * 16 + HexVal(text[p + 1])) * 16 + HexVal(text[p + 2])
        invariant i == 4 ==>
            n == ((HexVal(text[p]) * 16 + HexVal(text[p + 1])) * 16 + HexVal(text[p + 2])) * 16 + HexVal(text[p + 3])
      {
        if !IsHex(text[p + i]) { return None; }
        n := n * 16 + HexVal(text[p + i]);
      }
      p := p + 4;
      v := Some(n);
    }

    /** A \u escape from its first digit, and the low surrogate's after a high one's. */
    method CodePointEscape() returns (cp: Option<nat>)
      requires Valid() && p >= 2 && text[p - 2] == BACKSLASH && text[p - 1] == LETTER_U
      modifies `p
      ensures Valid() && (cp.Some? ==> cp.value < 0x110000 && p >= old(p) + (if cp.value < 0x10000 then 4 else 10))
      ensures StringAt(old(text[p - 2..])) == if cp.None? then Bad else Onto(Utf8(cp.value), StringAt(Rest()))
      ensures cp.Some? ==> Stop(text, p) == old(Stop(text, p - 2))
    {
      hide Utf8;
      hide Hex4;
      hide StringAt;
      hide Onto;
      hide Stop;
      ghost var from := p - 2;
      ghost var t := text[from..];
      var first := ReadHex4();
      if first.None? {
        NoEscapeAt(t);
        return None;
      }
      assert HexAt(t) && HexAtIs(t) == first.value;
      Suffix(text, from, p);
      StopAfterHex(text, from);
      var high := first.value;
      if 0xD800 <= high <= 0xDBFF {
        if |text| - p >= 6 && text[p] == BACKSLASH && text[p + 1] == LETTER_U {
          var save := p;
          ghost var t1 := text[p..];
          p := p + 2;
          var second := ReadHex4();
          assert HexAt(t1) <==> second.Some?;
          if second.None? {
            HalfPairAt(t);
            return None;
          }
          assert HexAtIs(t1) == second.value;
          var low := second.value;
          if 0xDC00 <= low <= 0xDFFF {
            cp := Some(0x10000 + (high - 0xD800) * 1024 + (low - 0xDC00));
            PairAt(t);
            Suffix(text, from, p);
            StopAfterHex(text, save);
            return;
          }
          p := save;
        }
        LoneAt(t);
        return Some(REPLACEMENT);
      }
      LoneAt(t);
      if 0xDC00 <= high <= 0xDFFF { return Some(REPLACEMENT); }
      cp := Some(high);
    }

    /** A code point's UTF-8, put into the buffer. */
    static method PutUtf8(buf: array<Byte>, n: nat, cp: nat) returns (k: nat)
      requires cp < 0x110000 && n + |Utf8(cp)| <= buf.Length
      modifies buf
      ensures n + k <= buf.Length && k == |Utf8(cp)| && buf[..n + k] == old(buf[..n]) + Utf8(cp)
    {
      if cp < 0x80 {
        buf[n] := cp;
        return 1;
      }
      if cp < 0x800 {
        buf[n], buf[n + 1] := 0xC0 + cp / 64, 0x80 + cp % 64;
        return 2;
      }
      if cp < 0x10000 {
        buf[n], buf[n + 1], buf[n + 2] := 0xE0 + cp / 64 / 64, 0x80 + cp / 64 % 64, 0x80 + cp % 64;
        return 3;
      }
      buf[n], buf[n + 1], buf[n + 2], buf[n + 3] :=
        0xF0 + cp / 64 / 64 / 64, 0x80 + cp / 64 / 64 % 64, 0x80 + cp / 64 % 64, 0x80 + cp % 64;
      k := 4;
    }

    /** One escape, from its backslash, decoded into the buffer. */
    method Escape(buf: array<Byte>, n: nat) returns (ok: bool, m: nat)
      requires Valid() && Sees(BACKSLASH)
      requires n + (Stop(text, p) - p) <= buf.Length
      modifies `p, buf
      ensures Valid() && n <= m
      ensures !ok ==> StringAt(old(Rest())) == Bad
      ensures ok ==> p > old(p) && m - n <= p - old(p) && m <= buf.Length && Stop(text, p) == Stop(text, old(p))
      ensures ok ==> exists d :: buf[..m] == old(buf[..n]) + d && StringAt(old(Rest())) == Onto(d, StringAt(Rest()))
    {
      hide Utf8;
      hide StringAt;
      hide Onto;
      ghost var from := p;
      ghost var t := text[p..];
      ok, m := false, n;
      p := p + 1;
      if p >= |text| {
        NoEscapeAt(t);
        return;
      }
      var e := text[p];
      p := p + 1;
      assert text[p - 2..] == t;
      if e == LETTER_U {
        var cp := CodePointEscape();
        if cp.None? { return; }
        var k := PutUtf8(buf, n, cp.value);
        ok, m := true, n + k;
        assert buf[..m] == old(buf[..n]) + Utf8(cp.value);
      } else if IsShort(e) {
        buf[n] := Unescape(e);
        ok, m := true, n + 1;
        ShortAt(t);
        assert t[2..] == text[p..];
        assert buf[..m] == old(buf[..n]) + [Unescape(e)];
      } else {
        NoEscapeAt(t);
      }
    }

    /** One character inside a string, decoded into the buffer. */
    method Char(buf: array<Byte>, n: nat) returns (ok: bool, m: nat)
      requires Valid() && p < |text| && text[p] != QUOTE
      requires n + (Stop(text, p) - p) < buf.Length
      modifies `p, buf
      ensures Valid() && n <= m
      ensures !ok ==> StringAt(old(Rest())) == Bad
      ensures ok ==> p > old(p) && m - n <= p - old(p) && m <= buf.Length && Stop(text, p) == Stop(text, old(p))
      ensures ok ==> exists d :: buf[..m] == old(buf[..n]) + d && StringAt(old(Rest())) == Onto(d, StringAt(Rest()))
    {
      hide StringAt;
      hide Onto;
      ghost var t := text[p..];
      ok, m := false, n;
      if text[p] < 0x20 {
        ControlAt(t);
        return;
      }
      if text[p] == BACKSLASH {
        ok, m := Escape(buf, n);
        return;
      }
      RawAt(t);
      assert t[1..] == text[p + 1..];
      buf[n] := text[p];
      assert buf[..n + 1] == old(buf[..n]) + [t[0]];
      ok, m := true, n + 1;
      p := p + 1;
    }

    /** Where the closing quote is, if there is one. */
    method FindQuote() returns (q: nat)
      requires Valid()
      ensures q == Stop(text, p)
    {
      q := p;
      while q < |text| && text[q] != QUOTE
        invariant p <= q <= |text| && Stop(text, q) == Stop(text, p)
      {
        if text[q] == BACKSLASH {
          if |text| - q < 2 { return; }
          q := q + 1;
        }
        q := q + 1;
      }
    }

    /**
     * A string, from its opening quote. A first pass finds the closing quote
     * to size the buffer; the second decodes into it, never past its end, and
     * ends at that same quote.
     */
    method ParseString() returns (out: Option<Bytes>)
      requires Valid() && Sees(QUOTE)
      modifies `p
      ensures Valid() && (out.Some? ==> p > old(p))
      ensures match StringAt(old(text[p + 1..]))
              case Bad => out.None?
              case Ok(s, rest) => out == Some(s) && Rest() == rest
    {
      hide StringAt;
      hide Onto;
      hide Stop;
      p := p + 1;
      var s := p;
      var q := FindQuote();
      if q >= |text| {
        NeverCloses(text, s);
        return None;
      }
      var buf := new Byte[q - s + 1];
      var n := 0;
      assert buf[..0] == [];
      OntoNothing(StringAt(Rest()));
      while p < |text| && text[p] != QUOTE
        invariant s <= p <= q && Stop(text, p) == q && n <= p - s
        invariant StringAt(text[s..]) == Onto(buf[..n], StringAt(Rest()))
        decreases |text| - p
      {
        ghost var t, done := text[p..], buf[..n];
        var ok, m := Char(buf, n);
        if !ok {
          OntoNone(done);
          return None;
        }
        ghost var d :| buf[..m] == done + d && StringAt(t) == Onto(d, StringAt(Rest()));
        OntoTwice(done, d, StringAt(Rest()));
        n := m;
      }
      if p >= |text| {
        StopsAtEnd(text);
        assert false;
      }
      ghost var done := buf[..n];
      QuoteAt(Rest());
      OntoEnd(done, Rest()[1..]);
      p := p + 1;
      buf[n] := 0;
      assert buf[..n] == done;
      out := Some(buf[..n]);
    }

    static lemma StopsAtEnd(t: Bytes)
      ensures Stop(t, |t|) == |t|
    {
    }

    static lemma OntoEnd(a: Bytes, rest: Bytes)
      ensures Onto(a, Ok([], rest)) == Ok(a, rest)
    {
      assert a + [] == a;
    }

    static lemma ControlAt(t: Bytes)
      requires t != [] && t[0] < 0x20
      ensures StringAt(t) == Bad
    {
    }

    static lemma QuoteAt(t: Bytes)
      requires t != [] && t[0] == QUOTE
      ensures StringAt(t) == Ok([], t[1..])
    {
    }

    // ---- Numbers and words ----

    method Digits(i: nat) returns (j: nat)
      requires i <= |text|
      ensures i <= j <= |text| && ReadDigits(text[i..]).1 == text[j..]
      ensures j == i <==> ReadDigits(text[i..]).0.Nil?
    {
      j := i;
      while j < |text| && IsDigit(text[j])
        invariant i <= j <= |text|
        invariant ReadDigits(text[j..]).1 == ReadDigits(text[i..]).1
        invariant j > i ==> ReadDigits(text[i..]).0.Cons?
      {
        assert text[j..][1..] == text[j + 1..];
        j := j + 1;
      }
    }

    method Fraction(i: nat) returns (j: Option<nat>)
      requires i <= |text|
      ensures match ReadFrac(text[i..])
              case Bad => j.None?
              case Ok(_, rest) => j.Some? && i <= j.value <= |text| && text[j.value..] == rest
    {
      if i < |text| && text[i] == DOT {
        var k := Digits(i + 1);
        assert text[i..][1..] == text[i + 1..];
        return if k == i + 1 then None else Some(k);
      }
      j := Some(i);
    }

    method ExponentPart(i: nat) returns (j: Option<nat>)
      requires i <= |text|
      ensures match ReadExp(text[i..])
              case Bad => j.None?
              case Ok(_, rest) => j.Some? && i <= j.value <= |text| && text[j.value..] == rest
    {
      if i < |text| && IsE(text[i]) {
        var from := i + 1;
        assert text[i..][1..] == text[i + 1..];
        if from < |text| && IsSign(text[from]) {
          from := from + 1;
          assert text[i..][2..] == text[i + 2..];
        }
        var k := Digits(from);
        return if k == from then None else Some(k);
      }
      j := Some(i);
    }

    /** The whole part: one zero, or digits. */
    method Whole(i: nat) returns (j: Option<nat>)
      requires i <= |text|
      ensures j.Some? <==> i < |text| && IsDigit(text[i])
      ensures j.Some? ==> i <= j.value <= |text|
      ensures j.Some? ==> text[j.value..] == if text[i] == ZERO then text[i + 1..] else ReadDigits(text[i..]).1
    {
      if i >= |text| { return None; }
      if text[i] == ZERO { return Some(i + 1); }
      if !IsDigit(text[i]) { return None; }
      var k := Digits(i);
      j := Some(k);
    }

    /** A number after its sign. */
    method Unsigned(i: nat, ghost minus: bool) returns (j: Option<nat>)
      requires i <= |text|
      ensures match ReadUnsigned(minus, text[i..])
              case Bad => j.None?
              case Ok(_, rest) => j.Some? && i <= j.value <= |text| && text[j.value..] == rest
    {
      hide ReadFrac;
      hide ReadExp;
      hide ReadDigits;
      hide PutUnsigned;
      hide WfNumber;
      hide Put;
      var w := Whole(i);
      if w.None? { return None; }
      assert text[i] == ZERO ==> text[i..][1..] == text[i + 1..];
      var f := Fraction(w.value);
      if f.None? { return None; }
      j := ExponentPart(f.value);
    }

    static lemma SameBefore(a: Bytes, b: Bytes, rest: Bytes)
      ensures a + rest == b + rest ==> a == b
    {
      if a + rest == b + rest {
        assert |a| == |b|;
        assert (a + rest)[..|a|] == a && (b + rest)[..|a|] == b;
      }
    }

    /** A number's text. */
    method ParseNumber() returns (lit: Option<Bytes>)
      requires Valid()
      modifies `p
      ensures Valid() && (lit.Some? ==> p > old(p))
      ensures match ReadNumber(old(Rest()))
              case Bad => lit.None?
              case Ok(n, rest) => lit == Some(PutNumber(n, [])) && Rest() == rest
    {
      hide ReadUnsigned;
      hide PutNumber;
      hide WfNumber;
      ghost var t := text[p..];
      var i := p;
      if Sees(MINUS) {
        i := p + 1;
        assert t[1..] == text[i..];
      }
      var end := Unsigned(i, Sees(MINUS));
      if end.None? { return None; }
      ghost var n := ReadNumber(t).v;
      NumberText(n, text[end.value..]);
      SameBefore(text[p..end.value], PutNumber(n, []), text[end.value..]);
      assert t == text[p..end.value] + text[end.value..];
      lit := Some(text[p..end.value]);
      p := end.value;
    }

    /** Whether a word comes next; the cursor goes past it if so. */
    method MatchWord(w: Word) returns (ok: bool)
      requires Valid()
      modifies `p
      ensures Valid() && (ok ==> p > old(p)) && (!ok ==> p == old(p))
      ensures match ReadWord(WordText(w), old(Rest()))
              case None => !ok
              case Some(rest) => ok && Rest() == rest
    {
      hide ReadWord;
      hide WordText;
      hide Put;
      var word := Put(WordText(w), []);
      WordAt(w, text[p..]);
      if |text| - p < |word| || text[p..p + |word|] != word { return false; }
      assert text[p..][|word|..] == text[p + |word|..] && text[p..][..|word|] == text[p..p + |word|];
      p := p + |word|;
      ok := true;
    }

    static lemma WordTextStarts(w: Word)
      ensures Put(WordText(w), []) != []
    {
    }

    static lemma WordAt(w: Word, t: Bytes)
      ensures var word := Put(WordText(w), []);
              |word| > 0 &&
              if word <= t then ReadWord(WordText(w), t) == Some(t[|word|..]) else ReadWord(WordText(w), t) == None
    {
      hide WordText;
      hide Put;
      hide ReadWord;
      var l := WordText(w);
      var word := Put(l, []);
      WordTextStarts(w);
      if word <= t {
        PutSplit(l, t[|word|..]);
        WordReadBack(l, t[|word|..]);
        assert t == word + t[|word|..];
      } else if ReadWord(l, t).Some? {
        PutSplit(l, ReadWord(l, t).value);
        assert false;
      }
    }

    // ---- Values ----

    static lemma ArrayAt(t: Bytes, levels: nat)
      requires t != [] && t[0] == OPEN_BRACKET && levels > 0
      ensures var t1 := ReadWs(t[1..]).1;
              TreeAt(t, levels) ==
                if t1 != [] && t1[0] == CLOSE_BRACKET then Ok(Items([]), t1[1..])
                else match ItemsAt(t1, levels - 1) case Bad => Bad case Ok(l, rest) => Ok(Items(l), rest)
    {
      hide ReadWs;
      hide ReadEntries;
      hide ReadEntry;
      hide ReadChars;
      hide ReadNumber;
      hide ReadWord;
      hide PutValue;
      hide PutEntries;
      hide ItemsOf;
      var t1 := ReadWs(t[1..]).1;
      ReadValueWrites(t, levels);
      ItemsUnfold(t[1..], levels - 1);
      ItemsUnfold(t1, levels - 1);
      WsTwice(t[1..]);
      assert ReadValue(t, levels) == ReadContainer(Arr, t[1..], levels);
    }

    static lemma ObjectAt(t: Bytes, levels: nat)
      requires t != [] && t[0] == OPEN_BRACE && levels > 0
      ensures var t1 := ReadWs(t[1..]).1;
              TreeAt(t, levels) ==
                if t1 != [] && t1[0] == CLOSE_BRACE then Ok(Members([]), t1[1..])
                else match MembersAt(t1, levels - 1) case Bad => Bad case Ok(l, rest) => Ok(Members(l), rest)
    {
      hide ReadWs;
      hide ReadEntries;
      hide ReadEntry;
      hide ReadChars;
      hide ReadNumber;
      hide ReadWord;
      hide PutValue;
      hide PutEntries;
      hide MembersOf;
      var t1 := ReadWs(t[1..]).1;
      ReadValueWrites(t, levels);
      MembersUnfold(t[1..], levels - 1);
      MembersUnfold(t1, levels - 1);
      WsTwice(t[1..]);
      assert ReadValue(t, levels) == ReadContainer(Obj, t[1..], levels);
    }

    /** An array, from its opening bracket: the items grow in a list, copied once their number is known. */
    method ParseArray() returns (out: Option<Tree>)
      requires Valid() && Sees(OPEN_BRACKET) && 1 <= depth <= MAX_LEVELS
      modifies this
      ensures Valid() && depth >= old(depth) && (out.Some? ==> p > old(p) && depth == old(depth))
      ensures match TreeAt(old(Rest()), MAX_LEVELS + 1 - old(depth))
              case Bad => out.None?
              case Ok(x, rest) => out == Some(x) && Rest() == rest
      decreases |text| - p, 0
    {
      hide TreeAt;
      hide ItemsAt;
      hide ItemStep;
      hide ItemEnd;
      hide Onto;
      hide ReadWs;
      ghost var levels := MAX_LEVELS - depth;
      ArrayAt(Rest(), levels + 1);
      assert Rest()[1..] == text[p + 1..];
      p := p + 1;
      SkipWs();
      if Sees(CLOSE_BRACKET) {
        assert Rest()[1..] == text[p + 1..];
        p := p + 1;
        return Some(Items([]));
      }
      var items: seq<Tree> := [];
      ghost var all := ItemsAt(Rest(), levels);
      OntoNothing(all);
      while true
        invariant Valid() && p > old(p) && depth == old(depth)
        invariant all == Onto(items, ItemsAt(Rest(), levels))
        decreases |text| - p
      {
        ItemsUnfold(Rest(), levels);
        var item := ParseItem();
        OntoNone(items);
        if item.None? { return None; }
        ghost var t2 := Rest();
        assert t2 != [] ==> t2[1..] == text[p + 1..];
        ItemThen(items, item.value, t2, levels);
        if Sees(COMMA) {
          items := items + [item.value];
          p := p + 1;
          continue;
        }
        if Sees(CLOSE_BRACKET) {
          items := items + [item.value];
          p := p + 1;
          return Some(Items(items));
        }
        return None;
      }
    }

    /** An item and the whitespace around it. */
    method ParseItem() returns (out: Option<Tree>)
      requires Valid() && 1 <= depth <= MAX_LEVELS
      modifies this
      ensures Valid() && depth >= old(depth) && (out.Some? ==> p > old(p) && depth == old(depth))
      ensures var levels := MAX_LEVELS - old(depth);
              ItemStep(old(Rest()), levels) == if out.None? then Bad else ItemEnd(out.value, Rest(), levels)
      decreases |text| - p, 2
    {
      hide TreeAt;
      hide ItemEnd;
      hide ReadWs;
      out := ParseValue();
      if out.Some? { SkipWs(); }
    }

    /** An object, from its opening brace. */
    method ParseObject() returns (out: Option<Tree>)
      requires Valid() && Sees(OPEN_BRACE) && 1 <= depth <= MAX_LEVELS
      modifies this
      ensures Valid() && depth >= old(depth) && (out.Some? ==> p > old(p) && depth == old(depth))
      ensures match TreeAt(old(Rest()), MAX_LEVELS + 1 - old(depth))
              case Bad => out.None?
              case Ok(x, rest) => out == Some(x) && Rest() == rest
      decreases |text| - p, 0
    {
      hide TreeAt;
      hide MembersAt;
      hide MemberStep;
      hide MemberEnd;
      hide Onto;
      hide ReadWs;
      ghost var levels := MAX_LEVELS - depth;
      ObjectAt(Rest(), levels + 1);
      assert Rest()[1..] == text[p + 1..];
      p := p + 1;
      SkipWs();
      if Sees(CLOSE_BRACE) {
        assert Rest()[1..] == text[p + 1..];
        p := p + 1;
        return Some(Members([]));
      }
      var members: seq<Member> := [];
      ghost var all := MembersAt(Rest(), levels);
      OntoNothing(all);
      while true
        invariant Valid() && p > old(p) && depth == old(depth)
        invariant all == Onto(members, MembersAt(Rest(), levels))
        decreases |text| - p
      {
        ghost var t := Rest();
        MembersUnfold(t, levels);
        var m := ParseMember();
        OntoNone(members);
        if m.None? { return None; }
        ghost var t2 := Rest();
        assert t2 != [] ==> t2[1..] == text[p + 1..];
        MemberThen(members, m.value, t2, levels);
        if Sees(COMMA) {
          members := members + [m.value];
          p := p + 1;
          continue;
        }
        if Sees(CLOSE_BRACE) {
          members := members + [m.value];
          p := p + 1;
          return Some(Members(members));
        }
        return None;
      }
    }

    /** A member and the whitespace around it. */
    method ParseMember() returns (out: Option<Member>)
      requires Valid() && 1 <= depth <= MAX_LEVELS
      modifies this
      ensures Valid() && depth >= old(depth) && (out.Some? ==> p > old(p) && depth == old(depth))
      ensures var levels := MAX_LEVELS - old(depth);
              MemberStep(old(Rest()), levels) == if out.None? then Bad else MemberEnd(out.value, Rest(), levels)
      decreases |text| - p, 2
    {
      hide TreeAt;
      hide MemberEnd;
      hide StringAt;
      hide ReadWs;
      SkipWs();
      if !Sees(QUOTE) { return None; }
      assert Rest()[1..] == text[p + 1..];
      var key := ParseString();
      if key.None? { return None; }
      SkipWs();
      if !Sees(COLON) { return None; }
      assert Rest()[1..] == text[p + 1..];
      p := p + 1;
      var x := ParseValue();
      if x.None? { return None; }
      SkipWs();
      out := Some(Member(key.value, x.value));
    }

    /** A value, with whitespace before it. */
    method ParseValue() returns (out: Option<Tree>)
      requires Valid() && depth <= MAX_LEVELS
      modifies this
      ensures Valid() && depth >= old(depth) && (out.Some? ==> p > old(p) && depth == old(depth))
      ensures match TreeAt(ReadWs(old(Rest())).1, MAX_LEVELS - old(depth))
              case Bad => out.None?
              case Ok(x, rest) => out == Some(x) && Rest() == rest
      decreases |text| - p, 1
    {
      hide ReadContainer;
      hide ReadWs;
      hide ReadNumber;
      hide ReadWord;
      hide ReadChars;
      hide StringAt;
      depth := depth + 1;
      if depth > MAX_LEVELS { return None; }
      SkipWs();
      out := None;
      if p >= |text| {
      } else if text[p] == OPEN_BRACE {
        out := ParseObject();
      } else if text[p] == OPEN_BRACKET {
        out := ParseArray();
      } else {
        out := ParseScalar();
      }
      depth := depth - 1;
    }

    /** A string, a number or a word. */
    method ParseScalar() returns (out: Option<Tree>)
      requires Valid() && p < |text| && text[p] != OPEN_BRACE && text[p] != OPEN_BRACKET && 1 <= depth <= MAX_LEVELS
      modifies `p
      ensures Valid() && (out.Some? ==> p > old(p))
      ensures match TreeAt(old(Rest()), MAX_LEVELS + 1 - depth)
              case Bad => out.None?
              case Ok(x, rest) => out == Some(x) && Rest() == rest
    {
      hide ReadContainer;
      hide ReadNumber;
      hide ReadWord;
      hide ReadChars;
      hide WordText;
      hide Decode;
      hide PutNumber;
      ghost var t := Rest();
      assert t[1..] == text[p + 1..];
      if text[p] == QUOTE {
        var s := ParseString();
        return if s.None? then None else Some(Text(s.value));
      }
      if text[p] == MINUS || IsDigit(text[p]) {
        var n := ParseNumber();
        return if n.None? then None else Some(Numeral(n.value));
      }
      var ok := MatchWord(True);
      if ok { return Some(Atom(True)); }
      ok := MatchWord(False);
      if ok { return Some(Atom(False)); }
      ok := MatchWord(Null);
      if ok { return Some(Atom(Null)); }
      out := None;
    }
  }

  /** A whole text, to its end: a byte order mark may come first. */
  method Parse(text: Bytes) returns (out: Option<Tree>)
    ensures out == ReadTree(text)
  {
    hide ReadValue;
    hide TreeOf;
    var c := new Cursor(text);
    if HasMark(text) { c.p := 3; }
    ghost var t := c.Rest();
    ReadDocWrites(t);
    ReadValueWrites(ReadWs(t).1, MAX_LEVELS);
    out := c.ParseValue();
    if out.Some? {
      c.SkipWs();
      if c.p != |text| { out := None; }
    }
  }
}
