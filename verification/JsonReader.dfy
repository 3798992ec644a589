/**
 * The engine's own JSON reader, as functions from a text to the derivation
 * tree it follows and the bytes left, and the proof that reading and writing
 * are inverse: what is read is what the tree writes, and what a tree writes
 * is read back as that tree.
 */
module JsonReader {
  import opened Basics
  import opened JsonGrammar

  const MAX_LEVELS: nat := 256

  datatype Read<+T> = Bad | Ok(v: T, rest: Bytes)

  function ReadWs(t: Bytes): (r: (List<Byte>, Bytes))
    ensures WfWs(r.0) && t == Put(r.0, r.1)
    ensures r.1 == [] || !IsWs(r.1[0])
    ensures |r.1| + Length(r.0) == |t|
  {
    if t == [] || !IsWs(t[0]) then (Nil, t)
    else
      assert t == [t[0]] + t[1..];
      var (w, rest) := ReadWs(t[1..]);
      (Cons(t[0], w), rest)
  }

  function ReadDigits(t: Bytes): (r: (List<Byte>, Bytes))
    ensures WfDigits(r.0) && t == Put(r.0, r.1)
    ensures r.1 == [] || !IsDigit(r.1[0])
    ensures |r.1| + Length(r.0) == |t|
  {
    if t == [] || !IsDigit(t[0]) then (Nil, t)
    else
      assert t == [t[0]] + t[1..];
      var (ds, rest) := ReadDigits(t[1..]);
      (Cons(t[0], ds), rest)
  }

  /** One character of a string: nothing for the closing quote, a control character or a bad escape. */
  function ReadChar(t: Bytes): (r: Read<StrChar>)
    ensures r.Ok? ==> WfChar(r.v) && t == PutChar(r.v, r.rest) && |r.rest| < |t|
  {
    if t == [] || t[0] < 0x20 || t[0] == QUOTE then Bad
    else if t[0] != BACKSLASH then
      assert t == [t[0]] + t[1..];
      Ok(Raw(t[0]), t[1..])
    else if |t| >= 2 && IsShort(t[1]) then
      assert t == [t[0]] + ([t[1]] + t[2..]);
      Ok(Short(t[1]), t[2..])
    else if |t| >= 6 && t[1] == LETTER_U && IsHex(t[2]) && IsHex(t[3]) && IsHex(t[4]) && IsHex(t[5]) then
      assert t == [t[0]] + ([t[1]] + ([t[2]] + ([t[3]] + ([t[4]] + ([t[5]] + t[6..])))));
      Ok(Hex(t[2], t[3], t[4], t[5]), t[6..])
    else Bad
  }

  /** A string's characters and its closing quote. */
  function ReadChars(t: Bytes): (r: Read<List<StrChar>>)
    ensures r.Ok? ==> WfChars(r.v) && t == PutChars(r.v, [QUOTE] + r.rest) && |r.rest| < |t|
  {
    if t != [] && t[0] == QUOTE then
      assert t == [t[0]] + t[1..];
      Ok(Nil, t[1..])
    else
      match ReadChar(t)
      case Bad => Bad
      case Ok(c, t1) =>
        match ReadChars(t1)
        case Bad => Bad
        case Ok(cs, rest) => Ok(Cons(c, cs), rest)
  }

  function ReadExp(t: Bytes): (r: Read<Exponent>)
    ensures r.Ok? ==> WfExp(r.v) && t == PutExp(r.v, r.rest) && |r.rest| <= |t|
  {
    if t == [] || !IsE(t[0]) then Ok(NoExp, t)
    else
      assert t == [t[0]] + t[1..];
      var signed := |t| >= 2 && IsSign(t[1]);
      assert signed ==> t[1..] == [t[1]] + t[2..];
      var (ds, rest) := ReadDigits(if signed then t[2..] else t[1..]);
      if ds.Nil? then Bad else Ok(Exp(t[0], if signed then Some(t[1]) else None, ds), rest)
  }

  function ReadFrac(t: Bytes): (r: Read<List<Byte>>)
    ensures r.Ok? ==> WfDigits(r.v) && t == PutFrac(r.v, r.rest) && |r.rest| <= |t|
  {
    if t == [] || t[0] != DOT then Ok(Nil, t)
    else
      assert t == [t[0]] + t[1..];
      var (ds, rest) := ReadDigits(t[1..]);
      if ds.Nil? then Bad else Ok(ds, rest)
  }

  function ReadUnsigned(minus: bool, t: Bytes): (r: Read<Number>)
    ensures r.Ok? ==> WfNumber(r.v) && r.v.minus == minus && t == PutUnsigned(r.v, r.rest) && |r.rest| < |t|
  {
    if t == [] || !IsDigit(t[0]) then Bad
    else
      assert t == [t[0]] + t[1..];
      var (ds, t1) := if t[0] == ZERO then (Cons(ZERO, Nil), t[1..]) else ReadDigits(t);
      assert WfDigits(ds) && t == Put(ds, t1) by { assert Put(Cons(ZERO, Nil), t[1..]) == [ZERO] + Put(Nil, t[1..]); }
      match ReadFrac(t1)
      case Bad => Bad
      case Ok(f, t2) =>
        match ReadExp(t2)
        case Bad => Bad
        case Ok(e, rest) => Ok(Number(minus, ds, f, e), rest)
  }

  function ReadNumber(t: Bytes): (r: Read<Number>)
    ensures r.Ok? ==> WfNumber(r.v) && t == PutNumber(r.v, r.rest) && |r.rest| < |t|
  {
    if t != [] && t[0] == MINUS then
      assert t == [t[0]] + t[1..];
      ReadUnsigned(true, t[1..])
    else ReadUnsigned(false, t)
  }

  function ReadWord(l: List<Byte>, t: Bytes): (r: Option<Bytes>)
    ensures r.Some? ==> t == Put(l, r.value) && |r.value| + Length(l) == |t|
    decreases l
  {
    match l
    case Nil => Some(t)
    case Cons(b, tail) =>
      if t == [] || t[0] != b then None
      else
        assert t == [t[0]] + t[1..];
        ReadWord(tail, t[1..])
  }

  /** A value with its whitespace before it already read; levels is how many more it may go down. */
  function ReadValue(t: Bytes, levels: nat): (r: Read<Value>)
    ensures r.Ok? ==> |r.rest| < |t|
    decreases |t|, 0
  {
    if levels == 0 || t == [] then Bad
    else if t[0] == OPEN_BRACE then ReadContainer(Obj, t[1..], levels)
    else if t[0] == OPEN_BRACKET then ReadContainer(Arr, t[1..], levels)
    else if t[0] == QUOTE then
      (match ReadChars(t[1..])
       case Bad => Bad
       case Ok(cs, rest) => Ok(Str(cs), rest))
    else if t[0] == MINUS || IsDigit(t[0]) then
      (match ReadNumber(t)
       case Bad => Bad
       case Ok(n, rest) => Ok(Num(n), rest))
    else
      match ReadWord(WordText(True), t)
      case Some(rest) => Ok(Lit(True), rest)
      case None =>
        match ReadWord(WordText(False), t)
        case Some(rest) => Ok(Lit(False), rest)
        case None =>
          match ReadWord(WordText(Null), t)
          case Some(rest) => Ok(Lit(Null), rest)
          case None => Bad
  }

  /** A container after its opener. */
  function ReadContainer(k: Kind, t: Bytes, levels: nat): (r: Read<Value>)
    requires levels > 0
    ensures r.Ok? ==> |r.rest| < |t|
    decreases |t|, 3
  {
    var (w, t1) := ReadWs(t);
    if t1 != [] && t1[0] == Closer(k) then Ok(Empty(k, w), t1[1..])
    else
      match ReadEntries(k, t, levels - 1)
      case Bad => Bad
      case Ok(es, rest) => Ok(Full(k, es), rest)
  }

  function ReadPrefix(k: Kind, t: Bytes): (r: Read<Prefix>)
    ensures r.Ok? ==> |r.rest| <= |t| && WfPrefix(k, r.v) && t == PutPrefix(r.v, r.rest)
  {
    var (w1, t1) := ReadWs(t);
    if k.Arr? then Ok(NoKey(w1), t1)
    else if t1 == [] || t1[0] != QUOTE then Bad
    else
      assert t1 == [t1[0]] + t1[1..];
      match ReadChars(t1[1..])
      case Bad => Bad
      case Ok(key, t2) =>
        var (w2, t3) := ReadWs(t2);
        if t3 == [] || t3[0] != COLON then Bad
        else
          assert t3 == [t3[0]] + t3[1..];
          var (w3, rest) := ReadWs(t3[1..]);
          Ok(Key(w1, key, w2, w3), rest)
  }

  function ReadEntry(k: Kind, t: Bytes, levels: nat): (r: Read<Entry>)
    ensures r.Ok? ==> |r.rest| < |t|
    decreases |t|, 1
  {
    match ReadPrefix(k, t)
    case Bad => Bad
    case Ok(pre, t1) =>
      match ReadValue(t1, levels)
      case Bad => Bad
      case Ok(v, t2) =>
        var (w, rest) := ReadWs(t2);
        Ok(Entry(pre, v, w), rest)
  }

  /** A container's entries and its closer. */
  function ReadEntries(k: Kind, t: Bytes, levels: nat): (r: Read<Entries>)
    ensures r.Ok? ==> |r.rest| < |t|
    decreases |t|, 2
  {
    match ReadEntry(k, t, levels)
    case Bad => Bad
    case Ok(e, t1) =>
      if t1 == [] then Bad
      else if t1[0] == COMMA then
        (match ReadEntries(k, t1[1..], levels)
         case Bad => Bad
         case Ok(es, rest) => Ok(More(e, es), rest))
      else if t1[0] == Closer(k) then Ok(One(e), t1[1..])
      else Bad
  }

  /** A whole text, to its end. */
  function ReadDoc(t: Bytes): Option<Doc> {
    var (w, t1) := ReadWs(t);
    match ReadValue(t1, MAX_LEVELS)
    case Bad => None
    case Ok(v, t2) =>
      var (w', t3) := ReadWs(t2);
      if t3 == [] then Some(Doc(w, v, w')) else None
  }

  // ---- What is read is what its tree writes ----

  lemma {:induction false} ReadValueWrites(t: Bytes, levels: nat)
    ensures var r := ReadValue(t, levels);
            r.Ok? ==> WfValue(r.v) && Levels(r.v) <= levels && t == PutValue(r.v, r.rest)
    decreases |t|, 0
  {
    if levels == 0 || t == [] {
    } else if t[0] == OPEN_BRACE || t[0] == OPEN_BRACKET {
      var k := if t[0] == OPEN_BRACE then Obj else Arr;
      assert t == [Opener(k)] + t[1..];
      ReadContainerWrites(k, t[1..], levels);
    } else if t[0] == QUOTE {
      assert t == [QUOTE] + t[1..];
    }
  }

  lemma {:induction false} ReadContainerWrites(k: Kind, t: Bytes, levels: nat)
    requires levels > 0
    ensures var r := ReadContainer(k, t, levels);
            r.Ok? ==> WfValue(r.v) && Levels(r.v) <= levels && [Opener(k)] + t == PutValue(r.v, r.rest)
    decreases |t|, 3
  {
    var (w, t1) := ReadWs(t);
    if t1 != [] && t1[0] == Closer(k) {
      assert t1 == [Closer(k)] + t1[1..];
    } else {
      ReadEntriesWrites(k, t, levels - 1);
    }
  }

  lemma {:induction false} ReadEntryWrites(k: Kind, t: Bytes, levels: nat)
    ensures var r := ReadEntry(k, t, levels);
            r.Ok? ==> WfEntry(k, r.v) && EntryLevels(r.v) <= levels && t == PutEntry(r.v, r.rest)
    decreases |t|, 1
  {
    var pre := ReadPrefix(k, t);
    if pre.Ok? { ReadValueWrites(pre.rest, levels); }
  }

  lemma {:induction false} ReadEntriesWrites(k: Kind, t: Bytes, levels: nat)
    ensures var r := ReadEntries(k, t, levels);
            r.Ok? ==> WfEntries(k, r.v) && EntriesLevels(r.v) <= levels && t == PutEntries(r.v, [Closer(k)] + r.rest)
    decreases |t|, 2
  {
    hide ReadEntry;
    hide WfEntry;
    hide PutEntry;
    hide EntryLevels;
    ReadEntryWrites(k, t, levels);
    var e := ReadEntry(k, t, levels);
    if e.Ok? && e.rest != [] {
      assert e.rest == [e.rest[0]] + e.rest[1..];
      if e.rest[0] == COMMA { ReadEntriesWrites(k, e.rest[1..], levels); }
    }
  }

  lemma ReadDocWrites(t: Bytes)
    ensures var r := ReadDoc(t);
            r.Some? ==> WfDoc(r.value) && Levels(r.value.v) <= MAX_LEVELS && t == PutDoc(r.value)
  {
    var (_, t1) := ReadWs(t);
    ReadValueWrites(t1, MAX_LEVELS);
  }

  // ---- What a tree writes is read back as that tree ----

  lemma {:induction false} WsReadBack(w: List<Byte>, rest: Bytes)
    requires WfWs(w) && (rest == [] || !IsWs(rest[0]))
    ensures ReadWs(Put(w, rest)) == (w, rest)
    decreases w
  {
    if w.Cons? { WsReadBack(w.tail, rest); }
  }

  lemma {:induction false} DigitsReadBack(ds: List<Byte>, rest: Bytes)
    requires WfDigits(ds) && (rest == [] || !IsDigit(rest[0]))
    ensures ReadDigits(Put(ds, rest)) == (ds, rest)
    decreases ds
  {
    if ds.Cons? { DigitsReadBack(ds.tail, rest); }
  }

  lemma CharReadBack(c: StrChar, rest: Bytes)
    requires WfChar(c)
    ensures ReadChar(PutChar(c, rest)) == Ok(c, rest)
  {
    var t := PutChar(c, rest);
    match c
    case Raw(b) =>
    case Short(b) => assert t[1] == b && t[2..] == rest;
    case Hex(a, b, c, d) => assert t[1] == LETTER_U && t[2] == a && t[3] == b && t[4] == c && t[5] == d &&
        t[6..] == rest;
  }

  lemma {:induction false} CharsReadBack(cs: List<StrChar>, rest: Bytes)
    requires WfChars(cs)
    ensures ReadChars(PutChars(cs, [QUOTE] + rest)) == Ok(cs, rest)
    decreases cs
  {
    if cs.Cons? {
      CharReadBack(cs.head, PutChars(cs.tail, [QUOTE] + rest));
      CharsReadBack(cs.tail, rest);
    }
  }

  lemma NumberReadBack(n: Number, rest: Bytes)
    requires WfNumber(n) && NumberEnds(rest)
    ensures ReadNumber(PutNumber(n, rest)) == Ok(n, rest)
  {
    var t2 := PutExp(n.exp, rest);
    var t1 := PutFrac(n.frac, t2);
    ExpReadBack(n.exp, rest);
    FracReadBack(n.frac, t2);
    if n.whole.head != ZERO {
      DigitsReadBack(n.whole, t1);
    } else {
      assert n.whole.tail.Nil? && Put(n.whole.tail, t1) == t1;
    }
    assert ReadUnsigned(n.minus, PutUnsigned(n, rest)) == Ok(n, rest);
  }

  lemma ExpReadBack(e: Exponent, rest: Bytes)
    requires WfExp(e) && NumberEnds(rest)
    ensures ReadExp(PutExp(e, rest)) == Ok(e, rest)
  {
    hide Put;
    hide ReadDigits;
    if e.Exp? {
      var ds := Put(e.digits, rest);
      DigitsReadBack(e.digits, rest);
      DigitsStart(e.digits, rest);
      match e.sign
      case None => assert PutExp(e, rest) == [e.e] + ds && ([e.e] + ds)[1..] == ds;
      case Some(sign) => AfterSign(e.e, sign, ds);
    }
  }

  lemma DigitsStart(ds: List<Byte>, rest: Bytes)
    requires WfDigits(ds) && ds.Cons?
    ensures Put(ds, rest) != [] && IsDigit(Put(ds, rest)[0])
  {
  }

  lemma AfterSign(letter: Byte, sign: Byte, ds: Bytes)
    ensures var t := [letter] + ([sign] + ds); |t| >= 2 && t[0] == letter && t[1] == sign && t[2..] == ds
  {
  }

  lemma FracReadBack(f: List<Byte>, rest: Bytes)
    requires WfDigits(f) && (rest == [] || (!IsDigit(rest[0]) && rest[0] != DOT))
    ensures ReadFrac(PutFrac(f, rest)) == Ok(f, rest)
  {
    DigitsReadBack(f, rest);
  }

  lemma {:induction false} WordReadBack(l: List<Byte>, rest: Bytes)
    ensures ReadWord(l, Put(l, rest)) == Some(rest)
    decreases l
  {
    if l.Cons? { WordReadBack(l.tail, rest); }
  }

  lemma PrefixReadBack(k: Kind, p: Prefix, rest: Bytes)
    requires WfPrefix(k, p) && rest != [] && !IsWs(rest[0])
    ensures ReadPrefix(k, PutPrefix(p, rest)) == Ok(p, rest)
  {
    match p
    case NoKey(w1) => WsReadBack(w1, rest);
    case Key(w1, key, w2, w3) =>
      var t3 := [COLON] + Put(w3, rest);
      WsReadBack(w3, rest);
      WsReadBack(w2, t3);
      CharsReadBack(key, Put(w2, t3));
      WsReadBack(w1, PutString(key, Put(w2, t3)));
  }

  /** The first byte of a value's text is not whitespace and does not close a container. */
  lemma ValueStarts(v: Value, rest: Bytes)
    requires WfValue(v)
    ensures var t := PutValue(v, rest);
            t != [] && !IsWs(t[0]) && t[0] != CLOSE_BRACE && t[0] != CLOSE_BRACKET
  {
  }

  lemma {:induction false} ValueReadBack(v: Value, rest: Bytes, levels: nat)
    requires WfValue(v) && Levels(v) <= levels
    requires v.Num? ==> NumberEnds(rest)
    ensures ReadValue(PutValue(v, rest), levels) == Ok(v, rest)
    decreases v, 1
  {
    match v
    case Str(_) => ScalarReadBack(v, rest, levels);
    case Num(_) => ScalarReadBack(v, rest, levels);
    case Lit(_) => ScalarReadBack(v, rest, levels);
    case Empty(k, w) => WsReadBack(w, [Closer(k)] + rest);
    case Full(k, es) =>
      EntriesReadBack(k, es, rest, levels - 1);
      EntriesStart(k, es, [Closer(k)] + rest);
      assert ReadContainer(k, PutEntries(es, [Closer(k)] + rest), levels) == Ok(v, rest);
  }

  lemma ScalarReadBack(v: Value, rest: Bytes, levels: nat)
    requires WfValue(v) && levels > 0 && !v.Empty? && !v.Full?
    requires v.Num? ==> NumberEnds(rest)
    ensures ReadValue(PutValue(v, rest), levels) == Ok(v, rest)
  {
    hide ReadContainer;
    hide ReadWord;
    hide PutChars;
    hide ReadChars;
    hide ReadNumber;
    match v
    case Str(cs) => StringIsRead(cs, rest, levels);
    case Num(n) => NumberIsRead(n, rest, levels);
    case Lit(w) => WordIsRead(w, rest, levels);
  }

  lemma StringIsRead(cs: List<StrChar>, rest: Bytes, levels: nat)
    requires WfChars(cs) && levels > 0
    ensures ReadValue(PutValue(Str(cs), rest), levels) == Ok(Str(cs), rest)
  {
    hide PutChars;
    hide ReadChars;
    var t := PutChars(cs, [QUOTE] + rest);
    CharsReadBack(cs, rest);
    assert ([QUOTE] + t)[1..] == t;
  }

  lemma NumberIsRead(n: Number, rest: Bytes, levels: nat)
    requires WfNumber(n) && NumberEnds(rest) && levels > 0
    ensures ReadValue(PutValue(Num(n), rest), levels) == Ok(Num(n), rest)
  {
    hide ReadNumber;
    hide PutNumber;
    NumberReadBack(n, rest);
    NumberStarts(n, rest);
  }

  lemma NumberStarts(n: Number, rest: Bytes)
    requires WfNumber(n)
    ensures var t := PutNumber(n, rest); t != [] && (t[0] == MINUS || IsDigit(t[0]))
  {
    hide PutFrac;
  }

  lemma WordIsRead(w: Word, rest: Bytes, levels: nat)
    requires levels > 0
    ensures ReadValue(PutValue(Lit(w), rest), levels) == Ok(Lit(w), rest)
  {
    hide Put;
    hide ReadWord;
    WordReadBack(WordText(w), rest);
    WordStarts(WordText(w), rest);
    forall x | x != w ensures ReadWord(WordText(x), Put(WordText(w), rest)) == None {
      WordFails(WordText(x), Put(WordText(w), rest));
    }
  }

  lemma WordStarts(l: List<Byte>, rest: Bytes)
    requires l.Cons?
    ensures Put(l, rest) != [] && Put(l, rest)[0] == l.head
  {
  }

  lemma WordFails(l: List<Byte>, t: Bytes)
    requires l.Cons? && t != [] && t[0] != l.head
    ensures ReadWord(l, t) == None
  {
  }

  /** What full containers hold does not begin, past whitespace, with the closer. */
  lemma EntriesStart(k: Kind, es: Entries, rest: Bytes)
    requires WfEntries(k, es)
    ensures var t1 := ReadWs(PutEntries(es, rest)).1; t1 != [] && t1[0] != Closer(k)
  {
    var e := es.e;
    var r := Put(e.ws, if es.One? then rest else [COMMA] + PutEntries(es.rest, rest));
    ValueStarts(e.v, r);
    match e.pre
    case NoKey(w1) => WsReadBack(w1, PutValue(e.v, r));
    case Key(w1, key, w2, w3) => WsReadBack(w1, PutString(key, Put(w2, [COLON] + Put(w3, PutValue(e.v, r)))));
  }

  lemma {:induction false} EntryReadBack(k: Kind, e: Entry, rest: Bytes, levels: nat)
    requires WfEntry(k, e) && EntryLevels(e) <= levels
    requires rest != [] && (rest[0] == COMMA || rest[0] == Closer(k))
    ensures ReadEntry(k, PutEntry(e, rest), levels) == Ok(e, rest)
    decreases e
  {
    var t2 := Put(e.ws, rest);
    WsReadBack(e.ws, rest);
    ValueStarts(e.v, t2);
    ValueReadBack(e.v, t2, levels);
    PrefixReadBack(k, e.pre, PutValue(e.v, t2));
  }

  lemma {:induction false} EntriesReadBack(k: Kind, es: Entries, rest: Bytes, levels: nat)
    requires WfEntries(k, es) && EntriesLevels(es) <= levels
    ensures ReadEntries(k, PutEntries(es, [Closer(k)] + rest), levels) == Ok(es, rest)
    decreases es, 0
  {
    match es
    case One(e) => EntryReadBack(k, e, [Closer(k)] + rest, levels);
    case More(e, tail) =>
      EntryReadBack(k, e, [COMMA] + PutEntries(tail, [Closer(k)] + rest), levels);
      EntriesReadBack(k, tail, rest, levels);
  }

  lemma DocReadBack(d: Doc)
    requires WfDoc(d) && Levels(d.v) <= MAX_LEVELS
    ensures ReadDoc(PutDoc(d)) == Some(d)
  {
    var t2 := Put(d.after, []);
    WsReadBack(d.after, []);
    ValueReadBack(d.v, t2, MAX_LEVELS);
    ValueStarts(d.v, t2);
    WsReadBack(d.before, PutValue(d.v, t2));
  }
}
