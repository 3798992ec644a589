/**
 * What the engine makes of JSON text: a tree with its strings decoded, each
 * number's text kept, and members in the order they came.
 */
module JsonTree {
  import opened Basics
  import opened JsonGrammar
  import opened JsonReader

  datatype Tree =
    | Atom(word: Word)
    | Numeral(lit: Bytes)
    | Text(s: Bytes)
    | Items(items: seq<Tree>)
    | Members(members: seq<Member>)

  datatype Member = Member(key: Bytes, value: Tree)

  // ---- Strings decoded ----

  function HexVal(c: Byte): (v: nat)
    requires IsHex(c)
    ensures v < 16
  {
    if IsDigit(c) then c - ZERO else if c >= 0x61 then c - 0x61 + 10 else c - 0x41 + 10
  }

  function Hex4(c: StrChar): (cp: nat)
    requires c.Hex? && WfChar(c)
    ensures cp < 0x10000
  {
    ((HexVal(c.h1) * 16 + HexVal(c.h2)) * 16 + HexVal(c.h3)) * 16 + HexVal(c.h4)
  }

  /** The byte a two-byte escape stands for. */
  function Unescape(b: Byte): Byte {
    if b == 0x62 then 0x08
    else if b == 0x66 then 0x0C
    else if b == 0x6E then 0x0A
    else if b == 0x72 then 0x0D
    else if b == 0x74 then 0x09
    else b
  }

  /** A code point in UTF-8 (section 3 of RFC 3629). */
  function Utf8(cp: nat): (r: Bytes)
    requires cp < 0x110000
    ensures 1 <= |r| <= 4 && (cp < 0x10000 ==> |r| <= 3)
  {
    var q1 := cp / 64;
    var q2 := q1 / 64;
    var q3 := q2 / 64;
    if cp < 0x80 then [cp]
    else if cp < 0x800 then [0xC0 + q1, 0x80 + cp % 64]
    else if cp < 0x10000 then [0xE0 + q2, 0x80 + q1 % 64, 0x80 + cp % 64]
    else [0xF0 + q3, 0x80 + q2 % 64, 0x80 + q1 % 64, 0x80 + cp % 64]
  }

  const REPLACEMENT: nat := 0xFFFD

  predicate High(cp: nat) { 0xD800 <= cp <= 0xDBFF }

  predicate Low(cp: nat) { 0xDC00 <= cp <= 0xDFFF }

  predicate LowNext(cs: List<StrChar>)
    requires WfChars(cs)
  {
    cs.Cons? && cs.head.Hex? && Low(Hex4(cs.head))
  }

  /** A string's bytes: a high surrogate and the low one after it are one code point, and one alone is U+FFFD. */
  function Decode(cs: List<StrChar>): Bytes
    requires WfChars(cs)
  {
    match cs
    case Nil => []
    case Cons(Raw(b), tail) => [b] + Decode(tail)
    case Cons(Short(b), tail) => [Unescape(b)] + Decode(tail)
    case Cons(h, tail) =>
      var cp := Hex4(h);
      if High(cp) && LowNext(tail) then
          Utf8(0x10000 + (cp - 0xD800) * 1024 + (Hex4(tail.head) - 0xDC00)) + Decode(tail.tail)
      else if High(cp) || Low(cp) then Utf8(REPLACEMENT) + Decode(tail)
      else Utf8(cp) + Decode(tail)
  }

  // What RFC 8259, section 7, says of each escape.

  /** The letters of the two-byte escapes, and what they stand for. */
  const ESCAPES: Bytes := [0x22, 0x5C, 0x2F, 0x62, 0x66, 0x6E, 0x72, 0x74]
  const ESCAPED: Bytes := [0x22, 0x5C, 0x2F, 0x08, 0x0C, 0x0A, 0x0D, 0x09]

  /** The hex digits, in either case. */
  const LOWER_HEX: Bytes := [0x30, 0x31, 0x32, 0x33, 0x34, 0x35, 0x36, 0x37, 0x38, 0x39,
                             0x61, 0x62, 0x63, 0x64, 0x65, 0x66]
  const UPPER_HEX: Bytes := [0x30, 0x31, 0x32, 0x33, 0x34, 0x35, 0x36, 0x37, 0x38, 0x39,
                             0x41, 0x42, 0x43, 0x44, 0x45, 0x46]

  /** There are eight two-byte escapes, each for its own byte. */
  lemma EscapesSay(b: Byte, i: nat)
    ensures WfChar(Short(b)) <==> b in ESCAPES
    ensures i < |ESCAPES| ==> Decode(Cons(Short(ESCAPES[i]), Nil)) == [ESCAPED[i]]
  {
    assert i < |ESCAPES| ==> ESCAPES[i] in ESCAPES;
  }

  /** There are twenty-two hex digits, each with its value. */
  lemma HexDigitsSay(c: Byte, d: nat)
    ensures IsHex(c) <==> c in LOWER_HEX || c in UPPER_HEX
    ensures d < 16 ==> IsHex(LOWER_HEX[d]) && HexVal(LOWER_HEX[d]) == d
    ensures d < 16 ==> IsHex(UPPER_HEX[d]) && HexVal(UPPER_HEX[d]) == d
  {
    if IsHex(c) { assert c == LOWER_HEX[HexVal(c)] || c == UPPER_HEX[HexVal(c)]; }
  }

  /** Four hex digits are the number they are to base sixteen, in either case. */
  lemma Hex4Says(c: StrChar, a: nat, b: nat, d: nat, e: nat)
    requires a < 16 && b < 16 && d < 16 && e < 16
    requires c == Hex(LOWER_HEX[a], LOWER_HEX[b], LOWER_HEX[d], LOWER_HEX[e]) ||
        c == Hex(UPPER_HEX[a], UPPER_HEX[b], UPPER_HEX[d], UPPER_HEX[e])
    ensures WfChar(c) && Hex4(c) == a * 4096 + b * 256 + d * 16 + e
  {
    HexDigitsSay(0, a);
    HexDigitsSay(0, b);
    HexDigitsSay(0, d);
    HexDigitsSay(0, e);
  }

  /** A code point past the first plane is decoded from its surrogate pair, any other from its own escape. */
  lemma PairSays(cp: nat, h: StrChar, l: StrChar, tail: List<StrChar>)
    requires cp < 0x110000 && WfChars(tail) && h.Hex? && WfChar(h) && l.Hex? && WfChar(l)
    requires cp >= 0x10000 ==>
          Hex4(h) == 0xD800 + (cp - 0x10000) / 0x400 && Hex4(l) == 0xDC00 + (cp - 0x10000) % 0x400
    requires cp < 0x10000 ==> Hex4(h) == cp && !(0xD800 <= cp < 0xE000)
    ensures Decode(if cp < 0x10000 then Cons(h, tail) else Cons(h, Cons(l, tail))) == Utf8(cp) + Decode(tail)
  {
    hide Utf8;
  }

  /** A surrogate without its other half is decoded as U+FFFD. */
  lemma LoneSays(h: StrChar, tail: List<StrChar>)
    requires h.Hex? && WfChar(h) && 0xD800 <= Hex4(h) < 0xE000 && WfChars(tail)
    requires Hex4(h) < 0xDC00 ==> !(tail.Cons? && tail.head.Hex? && 0xDC00 <= Hex4(tail.head) < 0xE000)
    ensures Decode(Cons(h, tail)) == [0xEF, 0xBF, 0xBD] + Decode(tail)
  {
  }

  /** A decoded string is never longer than its text. */
  lemma {:induction false} DecodeShrinks(cs: List<StrChar>, rest: Bytes)
    requires WfChars(cs)
    ensures |Decode(cs)| + |rest| <= |PutChars(cs, rest)|
    decreases cs
  {
    hide Utf8;
    hide Hex4;
    if cs.Cons? {
      DecodeShrinks(cs.tail, rest);
      if cs.tail.Cons? { DecodeShrinks(cs.tail.tail, rest); }
    }
  }

  /** Whether some bytes are UTF-8 (section 4 of RFC 3629): as a string's unescaped bytes. */
  predicate IsUtf8(s: Bytes) { Utf8Chars(Raws(s)) }

  function Raws(s: Bytes): List<StrChar> { if s == [] then Nil else Cons(Raw(s[0]), Raws(s[1..])) }

  /** The code point some bytes of UTF-8 are. */
  function CodePoint(r: Bytes): int
    requires 1 <= |r| <= 4
  {
    var a: int := r[0];
    var b: int := if |r| > 1 then r[1] - 0x80 as int else 0;
    var c: int := if |r| > 2 then r[2] - 0x80 as int else 0;
    var d: int := if |r| > 3 then r[3] - 0x80 as int else 0;
    if |r| == 1 then a
    else if |r| == 2 then (a - 0xC0) * 64 + b
    else if |r| == 3 then ((a - 0xE0) * 64 + b) * 64 + c
    else (((a - 0xF0) * 64 + b) * 64 + c) * 64 + d
  }

  lemma RawsFour(r: Bytes)
    requires 1 <= |r| <= 4
    ensures var four := if |r| == 4 then Cons(Raw(r[3]), Nil) else Nil;
            var three := if |r| >= 3 then Cons(Raw(r[2]), four) else Nil;
            var two := if |r| >= 2 then Cons(Raw(r[1]), three) else Nil;
            Raws(r) == Cons(Raw(r[0]), two)
  {
    if |r| > 1 { RawsFour(r[1..]); }
  }

  /** What code points become is UTF-8, surrogates apart, and says which they were. */
  lemma Utf8IsUtf8(cp: nat)
    requires cp < 0x110000 && !High(cp) && !Low(cp)
    ensures IsUtf8(Utf8(cp)) && CodePoint(Utf8(cp)) == cp
  {
    RawsFour(Utf8(cp));
    hide Raws;
    if cp < 0x80 {
      assert Raws(Utf8(cp)) == Cons(Raw(cp), Nil);
      assert Utf8Chars(Cons(Raw(cp), Nil));
    } else if cp < 0x800 {
      assert Raws(Utf8(cp)) == Cons(Raw(Utf8(cp)[0]), Cons(Raw(Utf8(cp)[1]), Nil));
      assert Utf8Two(Raws(Utf8(cp)));
      assert Utf8Chars(Raws(Utf8(cp)));
    } else if cp < 0x10000 {
      ThreeBytes(cp);
      assert Utf8Three(Raws(Utf8(cp)));
      assert Utf8Chars(Raws(Utf8(cp)));
    } else {
      FourBytes(cp);
      assert Utf8Four(Raws(Utf8(cp)));
      assert Utf8Chars(Raws(Utf8(cp)));
    }
  }

  lemma ThreeBytes(cp: nat)
    requires 0x800 <= cp < 0x10000 && !High(cp) && !Low(cp)
    ensures var r := Utf8(cp);
            |r| == 3 && CodePoint(r) == cp && 0x80 <= r[1] <= 0xBF && 0x80 <= r[2] <= 0xBF && 0xE0 <= r[0] <= 0xEF
            && (r[0] == 0xE0 ==> r[1] >= 0xA0) && (r[0] == 0xED ==> r[1] <= 0x9F)
  {
  }

  lemma FourBytes(cp: nat)
    requires 0x10000 <= cp < 0x110000
    ensures var r := Utf8(cp);
            |r| == 4 && CodePoint(r) == cp && 0x80 <= r[1] <= 0xBF && 0x80 <= r[2] <= 0xBF && 0x80 <= r[3] <= 0xBF
            && 0xF0 <= r[0] <= 0xF4 && (r[0] == 0xF0 ==> r[1] >= 0x90) && (r[0] == 0xF4 ==> r[1] <= 0x8F)
  {
  }

  lemma {:induction false} RawsAppend(a: Bytes, b: Bytes)
    ensures Raws(a + b) == Append(Raws(a), Raws(b))
    decreases a
  {
    if a == [] {
      assert a + b == b;
    } else {
      assert (a + b)[1..] == a[1..] + b;
      RawsAppend(a[1..], b);
    }
  }

  lemma {:induction false} Utf8Append(xs: List<StrChar>, ys: List<StrChar>)
    requires Utf8Chars(xs) && Utf8Chars(ys)
    ensures Utf8Chars(Append(xs, ys))
    decreases xs
  {
    if xs.Nil? {
    } else if !xs.head.Raw? || xs.head.b < 0x80 {
      Utf8Append(xs.tail, ys);
    } else {
      var x1 := xs.tail;
      var x2 := x1.tail;
      assert Append(xs, ys) == Cons(xs.head, Cons(x1.head, Append(x2, ys)));
      if Utf8Two(xs) {
        Utf8Append(x2, ys);
        assert Utf8Two(Append(xs, ys));
      } else {
        var x3 := x2.tail;
        assert Append(x2, ys) == Cons(x2.head, Append(x3, ys));
        if Utf8Three(xs) {
          Utf8Append(x3, ys);
          assert Utf8Three(Append(xs, ys));
        } else {
          assert Append(x3, ys) == Cons(x3.head, Append(x3.tail, ys));
          Utf8Append(x3.tail, ys);
          assert Utf8Four(Append(xs, ys));
        }
      }
    }
  }

  lemma Utf8Both(a: Bytes, b: Bytes)
    requires IsUtf8(a) && IsUtf8(b)
    ensures IsUtf8(a + b)
  {
    RawsAppend(a, b);
    Utf8Append(Raws(a), Raws(b));
  }

  /** A string whose text is UTF-8 decodes to UTF-8, whatever it escapes. */
  lemma {:induction false} DecodedIsUtf8(cs: List<StrChar>)
    requires WfChars(cs) && Utf8Chars(cs)
    ensures IsUtf8(Decode(cs))
    decreases cs
  {
    hide Utf8;
    hide Hex4;
    if cs.Nil? { return; }
    if cs.head.Hex? {
      HexIsUtf8(cs);
    } else if !cs.head.Raw? || cs.head.b < 0x80 {
      DecodedIsUtf8(cs.tail);
      Ascii(if cs.head.Raw? then cs.head.b else Unescape(cs.head.b), Decode(cs.tail));
    } else {
      assert WfChars(cs.tail) && WfChars(cs.tail.tail);
      RawsCons(cs);
      RawsCons(cs.tail);
      if Utf8Two(cs) {
        DecodedIsUtf8(cs.tail.tail);
      } else {
        assert WfChars(cs.tail.tail.tail);
        RawsCons(cs.tail.tail);
        if Utf8Three(cs) {
          DecodedIsUtf8(cs.tail.tail.tail);
        } else {
          RawsCons(cs.tail.tail.tail);
          DecodedIsUtf8(cs.tail.tail.tail.tail);
        }
      }
    }
  }

  lemma RawsCons(cs: List<StrChar>)
    requires WfChars(cs) && cs.Cons? && cs.head.Raw?
    ensures Raws(Decode(cs)) == Cons(cs.head, Raws(Decode(cs.tail)))
  {
    assert Decode(cs)[1..] == Decode(cs.tail);
  }

  lemma Ascii(b: Byte, s: Bytes)
    requires b < 0x80 && IsUtf8(s)
    ensures IsUtf8([b] + s)
  {
    assert ([b] + s)[1..] == s;
  }

  lemma HexIsUtf8(cs: List<StrChar>)
    requires WfChars(cs) && Utf8Chars(cs) && cs.Cons? && cs.head.Hex?
    ensures IsUtf8(Decode(cs))
    decreases cs, 0
  {
    hide Utf8;
    hide Hex4;
    hide IsUtf8;
    var cp := Hex4(cs.head);
    if High(cp) && LowNext(cs.tail) {
      var whole := 0x10000 + (cp - 0xD800) * 1024 + (Hex4(cs.tail.head) - 0xDC00);
      DecodedIsUtf8(cs.tail.tail);
      Utf8IsUtf8(whole);
      Utf8Both(Utf8(whole), Decode(cs.tail.tail));
    } else {
      var lone := if High(cp) || Low(cp) then REPLACEMENT else cp;
      DecodedIsUtf8(cs.tail);
      Utf8IsUtf8(lone);
      Utf8Both(Utf8(lone), Decode(cs.tail));
    }
  }

  // ---- Trees ----

  function TreeOf(v: Value): Tree
    requires WfValue(v)
    decreases v
  {
    match v
    case Str(cs) => Text(Decode(cs))
    case Num(n) => Numeral(PutNumber(n, []))
    case Lit(w) => Atom(w)
    case Empty(k, _) => if k.Obj? then Members([]) else Items([])
    case Full(k, es) => if k.Obj? then Members(MembersOf(es)) else Items(ItemsOf(es))
  }

  function ItemsOf(es: Entries): seq<Tree>
    requires WfEntries(Arr, es)
    decreases es
  {
    assert WfEntry(Arr, es.e);
    match es
    case One(e) => [TreeOf(e.v)]
    case More(e, rest) => [TreeOf(e.v)] + ItemsOf(rest)
  }

  function MembersOf(es: Entries): seq<Member>
    requires WfEntries(Obj, es)
    decreases es
  {
    assert WfEntry(Obj, es.e);
    match es
    case One(e) => [MemberOf(e)]
    case More(e, rest) => [MemberOf(e)] + MembersOf(rest)
  }

  function MemberOf(e: Entry): Member
    requires WfEntry(Obj, e)
    decreases e
  {
    assert WfPrefix(Obj, e.pre);
    Member(Decode(e.pre.key), TreeOf(e.v))
  }

  /** Whether a text begins with a byte order mark. */
  predicate HasMark(t: Bytes) { |t| >= 3 && t[0] == 0xEF && t[1] == 0xBB && t[2] == 0xBF }

  /** What a text is read as, if it is JSON: a byte order mark may come first. */
  function ReadTree(t: Bytes): Option<Tree> {
    var from := if HasMark(t) then t[3..] else t;
    ReadDocWrites(from);
    match ReadDoc(from)
    case None => None
    case Some(d) => Some(TreeOf(d.v))
  }
}
