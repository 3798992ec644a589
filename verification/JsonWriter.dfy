/**
 * JSON written as Python's json.dumps(v, ensure_ascii=False) writes what
 * json.loads read: what the text of a tree is (Norm, Plain), and the writer
 * that appends it.
 */
module JsonWriter {
  import opened Basics
  import opened JsonGrammar
  import opened JsonReader
  import opened JsonTree
  import opened FloatRepr

  const SPACE: Byte := 0x20
  const SEPARATOR: Bytes := [COMMA, SPACE]
  const AFTER_KEY: Bytes := [COLON, SPACE]

  // ---- Strings ----

  function LowerHex(d: nat): Byte
    requires d < 16
  {
    if d < 10 then ZERO + d else 0x61 + (d - 10)
  }

  /** How a byte is written inside a string. */
  function CharOf(b: Byte): StrChar {
    if b == QUOTE || b == BACKSLASH then Short(b)
    else if b == 0x0A then Short(0x6E)
    else if b == 0x0D then Short(0x72)
    else if b == 0x09 then Short(0x74)
    else if b == 0x08 then Short(0x62)
    else if b == 0x0C then Short(0x66)
    else if b < 0x20 then Hex(ZERO, ZERO, LowerHex(b / 16), LowerHex(b % 16))
    else Raw(b)
  }

  function CharsOf(s: Bytes): List<StrChar> { if s == [] then Nil else Cons(CharOf(s[0]), CharsOf(s[1..])) }

  /** A string's text between its quotes, a byte at a time. */
  function Escaped(s: Bytes): Bytes
    decreases |s|
  {
    if s == [] then [] else Escaped(s[..|s| - 1]) + PutChar(CharOf(s[|s| - 1]), [])
  }

  function Quoted(s: Bytes): Bytes { [QUOTE] + Escaped(s) + [QUOTE] }

  lemma {:induction false} EscapedFirst(b: Byte, s: Bytes)
    ensures Escaped([b] + s) == PutChar(CharOf(b), []) + Escaped(s)
    decreases |s|
  {
    hide PutChar;
    hide CharOf;
    var first := PutChar(CharOf(b), []);
    if s == [] {
      assert [b] + s == [b] && [b][..0] == [];
      assert Escaped([b]) == [] + first;
      assert first + [] == [] + first;
    } else {
      var most, last := s[..|s| - 1], PutChar(CharOf(s[|s| - 1]), []);
      assert ([b] + s)[..|s|] == [b] + most;
      EscapedFirst(b, most);
      assert (first + Escaped(most)) + last == first + (Escaped(most) + last);
    }
  }

  lemma CharText(c: StrChar, rest: Bytes)
    ensures PutChar(c, rest) == PutChar(c, []) + rest
  {
  }

  lemma {:induction false} CharsText(s: Bytes, rest: Bytes)
    ensures PutChars(CharsOf(s), rest) == Escaped(s) + rest
    decreases s
  {
    hide PutChar;
    hide CharOf;
    if s == [] {
      assert [] + rest == rest;
    } else {
      var first, more := PutChar(CharOf(s[0]), []), Escaped(s[1..]);
      assert s == [s[0]] + s[1..];
      EscapedFirst(s[0], s[1..]);
      CharsText(s[1..], rest);
      CharText(CharOf(s[0]), more + rest);
      assert first + (more + rest) == first + more + rest;
    }
  }

  lemma QuotedText(s: Bytes, rest: Bytes)
    ensures PutString(CharsOf(s), rest) == Quoted(s) + rest
  {
    CharsText(s, [QUOTE] + rest);
  }

  lemma ByteSurvives(b: Byte)
    ensures WfChar(CharOf(b)) && (b >= 0x80 ==> CharOf(b) == Raw(b))
    ensures Decode(Cons(CharOf(b), Nil)) == [b]
  {
    if CharOf(b).Hex? {
      assert Hex4(CharOf(b)) == b;
      assert Utf8(b) == [b];
    }
  }

  lemma DecodeFirst(b: Byte, cs: List<StrChar>)
    requires WfChars(cs)
    ensures WfChar(CharOf(b)) && Decode(Cons(CharOf(b), cs)) == [b] + Decode(cs)
  {
    ByteSurvives(b);
    if CharOf(b).Hex? { assert Hex4(CharOf(b)) == b; }
  }

  /** Every byte string survives being escaped and read again. */
  lemma {:induction false} EveryStringSurvives(s: Bytes)
    ensures WfChars(CharsOf(s)) && Decode(CharsOf(s)) == s
    decreases s
  {
    if s != [] {
      EveryStringSurvives(s[1..]);
      DecodeFirst(s[0], CharsOf(s[1..]));
    }
  }

  /** A string is written as UTF-8 exactly when it is UTF-8. */
  lemma {:induction false} WrittenUtf8(s: Bytes)
    ensures Utf8Chars(CharsOf(s)) <==> IsUtf8(s)
    decreases s
  {
    if s == [] { return; }
    var cs, rs := CharsOf(s), Raws(s);
    var s1 := s[1..];
    var s2 := if s1 == [] then [] else s1[1..];
    var s3 := if s2 == [] then [] else s2[1..];
    SameRaws(s1);
    SameRaws(s2);
    SameRaws(s3);
    if s[0] < 0x80 {
      WrittenUtf8(s1);
    } else {
      assert Utf8Two(cs) <==> Utf8Two(rs);
      assert Utf8Three(cs) <==> Utf8Three(rs);
      assert Utf8Four(cs) <==> Utf8Four(rs);
      if Utf8Two(rs) { WrittenUtf8(s2); }
      else if Utf8Three(rs) { WrittenUtf8(s3); }
      else if Utf8Four(rs) { WrittenUtf8(s3[1..]); }
    }
  }

  /** Bytes of a longer sequence are written as they are, and no escape passes for one. */
  lemma SameRaws(s: Bytes)
    ensures s == [] ==> CharsOf(s) == Nil == Raws(s)
    ensures s != [] ==> CharsOf(s) == Cons(CharOf(s[0]), CharsOf(s[1..])) && Raws(s) == Cons(Raw(s[0]), Raws(s[1..]))
    ensures s != [] && s[0] >= 0x80 ==> CharOf(s[0]) == Raw(s[0])
    ensures s != [] && s[0] < 0x80 ==> !CharOf(s[0]).Raw? || CharOf(s[0]).b == s[0]
  {
  }

  // ---- Numbers ----

  predicate IntText(lit: Bytes) { DOT !in lit && LOWER_E !in lit && UPPER_E !in lit }

  const MINUS_ZERO: Bytes := [MINUS, ZERO]

  /** Whether some text is a number and nothing else. */
  predicate IsNumber(lit: Bytes) { ReadNumber(lit).Ok? && ReadNumber(lit).rest == [] }

  /** A number as it is written: an int as it came, but for -0, and a float as its repr. */
  function NumberText(f: Floats, lit: Bytes): Bytes
    requires Sound(f)
  {
    if IntText(lit) then
      if lit == MINUS_ZERO then [ZERO] else lit
    else if IsNumber(lit) then
      var x := ReadDouble(f, ReadNumber(lit).v);
      assert x.Finite? ==> IsDouble(f, x.size, Magnitude(ReadNumber(lit).v));
      ReprText(f, x)
    else lit
  }

  // ---- What is written ----

  predicate Seen(ms: seq<Member>, i: nat)
    requires i < |ms|
  {
    exists j :: 0 <= j < i && ms[j].key == ms[i].key
  }

  /** The last member from i on with this key, or the one found before it. */
  function Last(ms: seq<Member>, key: Bytes, i: nat, found: nat): (j: nat)
    requires i <= |ms| && found < i && ms[found].key == key
    ensures found <= j < |ms| && ms[j].key == key && (j == found || i <= j)
    ensures forall k :: i <= k < |ms| && ms[k].key == key ==> k <= j
    decreases |ms| - i
  {
    if i == |ms| then found else Last(ms, key, i + 1, if ms[i].key == key then i else found)
  }

  /** A tree as it is written: repeated keys merged, numbers as Python prints them. */
  function Norm(f: Floats, t: Tree): Tree
    requires Sound(f)
    decreases t, 0
  {
    match t
    case Atom(_) => t
    case Text(_) => t
    case Numeral(lit) => Numeral(NumberText(f, lit))
    case Items(xs) => Items(NormItems(f, xs))
    case Members(ms) => Members(NormMembers(f, ms, 0))
  }

  function NormItems(f: Floats, xs: seq<Tree>): (r: seq<Tree>)
    requires Sound(f)
    ensures |r| == |xs|
    decreases xs, 0
  {
    if xs == [] then [] else [Norm(f, xs[0])] + NormItems(f, xs[1..])
  }

  function NormMember(f: Floats, m: Member): Member
    requires Sound(f)
    decreases m, 0
  {
    Member(m.key, Norm(f, m.value))
  }

  /** Members from i on, each key where it first comes, with its last value. */
  function NormMembers(f: Floats, ms: seq<Member>, i: nat): seq<Member>
    requires Sound(f) && i <= |ms|
    decreases ms, |ms| - i
  {
    if i == |ms| then []
    else if Seen(ms, i) then NormMembers(f, ms, i + 1)
    else [NormMember(f, ms[Last(ms, ms[i].key, i + 1, i)])] + NormMembers(f, ms, i + 1)
  }

  function Plain(t: Tree): Bytes
    decreases t, 0
  {
    match t
    case Atom(w) => Put(WordText(w), [])
    case Numeral(lit) => lit
    case Text(s) => Quoted(s)
    case Items(xs) => [OPEN_BRACKET] + PlainItems(xs, true) + [CLOSE_BRACKET]
    case Members(ms) => [OPEN_BRACE] + PlainMembers(ms, true) + [CLOSE_BRACE]
  }

  function Comma(first: bool): Bytes { if first then [] else SEPARATOR }

  function PlainItems(xs: seq<Tree>, first: bool): Bytes
    decreases xs, 0
  {
    if xs == [] then [] else Comma(first) + Plain(xs[0]) + PlainItems(xs[1..], false)
  }

  function PlainMember(m: Member): Bytes
    decreases m, 0
  {
    Quoted(m.key) + AFTER_KEY + Plain(m.value)
  }

  function PlainMembers(ms: seq<Member>, first: bool): Bytes
    decreases ms, 0
  {
    if ms == [] then [] else Comma(first) + PlainMember(ms[0]) + PlainMembers(ms[1..], false)
  }

  // ---- The writer ----

  lemma Join3(a: Bytes, b: Bytes, c: Bytes, d: Bytes)
    ensures a + (b + c + d) == a + b + c + d
  {
  }

  class Writer {
    const f: Floats
    var data: Bytes

    constructor (f: Floats)
      ensures this.f == f && data == []
    {
      this.f := f;
      data := [];
    }

    method Append(s: Bytes)
      modifies this
      ensures data == old(data) + s
    {
      data := data + s;
    }

    /** One more byte: it joins the run, or the run and its escape go out. */
    static lemma StringStep(data: Bytes, start: Bytes, s: Bytes, from: nat, i: nat, esc: Bytes)
      requires from <= i < |s| && data + s[from..i] == start + Escaped(s[..i])
      requires PutChar(CharOf(s[i]), []) == if esc == [] then [s[i]] else esc
      ensures esc == [] ==> data + s[from..i + 1] == start + Escaped(s[..i + 1])
      ensures esc != [] ==> data + s[from..i] + esc + s[i + 1..i + 1] == start + Escaped(s[..i + 1])
    {
      hide CharOf;
      hide PutChar;
      var c := PutChar(CharOf(s[i]), []);
      assert s[..i + 1][..i] == s[..i];
      assert start + Escaped(s[..i + 1]) == start + Escaped(s[..i]) + c;
      if esc == [] {
        assert s[from..i + 1] == s[from..i] + [s[i]];
        assert data + s[from..i + 1] == data + s[from..i] + [s[i]];
      } else {
        assert data + s[from..i] + esc + s[i + 1..i + 1] == data + s[from..i] + esc;
      }
    }

    static lemma StringStart(start: Bytes, s: Bytes)
      ensures start + s[0..0] == start + Escaped(s[..0])
    {
    }

    static lemma StringEnd(data: Bytes, start: Bytes, s: Bytes, from: nat)
      requires from <= |s| && data + s[from..|s|] == start + Escaped(s[..|s|])
      ensures data + s[from..] + [QUOTE] == start + Escaped(s) + [QUOTE]
    {
      assert s[..|s|] == s && s[from..|s|] == s[from..];
    }

    /** A string: runs of bytes written as they are, and the escapes between them. */
    method WriteString(s: Bytes)
      modifies this
      ensures data == old(data) + Quoted(s)
    {
      hide CharOf;
      hide PutChar;
      hide Escaped;
      Append([QUOTE]);
      var from := 0;
      ghost var start := data;
      StringStart(data, s);
      for i := 0 to |s|
        invariant from <= i && data + s[from..i] == start + Escaped(s[..i])
      {
        var esc := EscapeFor(s[i]);
        StringStep(data, start, s, from, i, esc);
        if esc != [] {
          Append(s[from..i]);
          Append(esc);
          from := i + 1;
        }
      }
      StringEnd(data, start, s, from);
      Append(s[from..]);
      Append([QUOTE]);
    }

    /** How a byte is escaped, or nothing if it is written as it is. */
    static method EscapeFor(c: Byte) returns (esc: Bytes)
      ensures PutChar(CharOf(c), []) == if esc == [] then [c] else esc
    {
      if c == QUOTE || c == BACKSLASH { return [BACKSLASH, c]; }
      if c == 0x0A { return [BACKSLASH, 0x6E]; }
      if c == 0x0D { return [BACKSLASH, 0x72]; }
      if c == 0x09 { return [BACKSLASH, 0x74]; }
      if c == 0x08 { return [BACKSLASH, 0x62]; }
      if c == 0x0C { return [BACKSLASH, 0x66]; }
      if c < 0x20 { return [BACKSLASH, LETTER_U, ZERO, ZERO, LowerHex(c / 16), LowerHex(c % 16)]; }
      esc := [];
    }

    method WriteNumber(lit: Bytes)
      requires Sound(f)
      modifies this
      ensures data == old(data) + NumberText(f, lit)
    {
      if IntText(lit) {
        if lit == MINUS_ZERO { Append([ZERO]); } else { Append(lit); }
      } else if IsNumber(lit) {
        var x := ReadDouble(f, ReadNumber(lit).v);
        assert x.Finite? ==> IsDouble(f, x.size, Magnitude(ReadNumber(lit).v));
        var text := PyFloatRepr(f, x);
        Append(text);
      } else {
        Append(lit);
      }
    }

    /** A value, as Python writes it. */
    method Write(t: Tree)
      requires Sound(f)
      modifies this
      ensures data == old(data) + Plain(Norm(f, t))
      decreases t, 1
    {
      match t
      case Atom(w) => Append(Put(WordText(w), []));
      case Numeral(lit) => WriteNumber(lit);
      case Text(s) => WriteString(s);
      case Items(xs) => WriteItems(xs);
      case Members(ms) => WriteMembers(ms);
    }

    method WriteItems(xs: seq<Tree>)
      requires Sound(f)
      modifies this
      ensures data == old(data) + Plain(Items(NormItems(f, xs)))
      decreases xs, 1
    {
      hide Norm;
      hide Sound;
      Append([OPEN_BRACKET]);
      ghost var start := data;
      assert xs[0..] == xs;
      for i := 0 to |xs|
        invariant data + PlainItems(NormItems(f, xs[i..]), i == 0) == start + PlainItems(NormItems(f, xs), true)
      {
        ghost var before, tail := data, PlainItems(NormItems(f, xs[i + 1..]), false);
        assert xs[i..][1..] == xs[i + 1..];
        Join3(before, Comma(i == 0), Plain(Norm(f, xs[i])), tail);
        if i > 0 { Append(SEPARATOR); } else { assert before + Comma(true) == before; }
        Write(xs[i]);
      }
      assert xs[|xs|..] == [];
      assert data + [] == data;
      Append([CLOSE_BRACKET]);
    }

    /** Whether the key of member i came before it. */
    method KeySeen(ms: seq<Member>, i: nat) returns (seen: bool)
      requires i < |ms|
      ensures seen == Seen(ms, i)
    {
      seen := false;
      var j := 0;
      while j < i && !seen
        invariant j <= i && (seen <==> exists k :: 0 <= k < j && ms[k].key == ms[i].key)
      {
        seen := ms[j].key == ms[i].key;
        j := j + 1;
      }
    }

    method LastWith(ms: seq<Member>, i: nat) returns (last: nat)
      requires i < |ms|
      ensures last < |ms| && last == Last(ms, ms[i].key, i + 1, i)
    {
      last := i;
      for j := i + 1 to |ms|
        invariant last < j && ms[last].key == ms[i].key
        invariant Last(ms, ms[i].key, j, last) == Last(ms, ms[i].key, i + 1, i)
      {
        if ms[j].key == ms[i].key { last := j; }
      }
    }

    method WriteMember(key: Bytes, m: Member)
      requires Sound(f) && key == m.key
      modifies this
      ensures data == old(data) + PlainMember(NormMember(f, m))
      decreases m, 1
    {
      hide Norm;
      hide Plain;
      hide Quoted;
      hide Sound;
      Join3(data, Quoted(key), AFTER_KEY, Plain(Norm(f, m.value)));
      WriteString(key);
      Append(AFTER_KEY);
      Write(m.value);
    }

    /** An object, as a dict: a repeated key stays where it first came, with its last value. */
    method WriteMembers(ms: seq<Member>)
      requires Sound(f)
      modifies this
      ensures data == old(data) + Plain(Members(NormMembers(f, ms, 0)))
      decreases ms, 1
    {
      hide Norm;
      hide NormMember;
      hide PlainMember;
      hide Sound;
      hide Seen;
      hide Last;
      Append([OPEN_BRACE]);
      ghost var start := data;
      var first := true;
      for i := 0 to |ms|
        invariant data + PlainMembers(NormMembers(f, ms, i), first) == start + PlainMembers(NormMembers(f, ms, 0), true)
      {
        var seen := KeySeen(ms, i);
        if !seen {
          var last := LastWith(ms, i);
          ghost var before, tail := data, NormMembers(f, ms, i + 1);
          assert NormMembers(f, ms, i)[1..] == tail;
          Join3(before, Comma(first), PlainMember(NormMember(f, ms[last])), PlainMembers(tail, false));
          if !first { Append(SEPARATOR); } else { assert before + Comma(true) == before; }
          first := false;
          WriteMember(ms[i].key, ms[last]);
        }
      }
      assert data + [] == data;
      Append([CLOSE_BRACE]);
    }
  }
}
