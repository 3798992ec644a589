/**
 * The grammar of RFC 8259 (sections 2 and 4 to 7) as derivation trees. A tree
 * keeps every byte of its text, whitespace and escapes included, so a text is
 * derivable exactly when some tree writes it.
 *
 * Every Put function writes a tree in front of a given rest: PutValue(v, rest)
 * is v's text followed by rest.
 */
module JsonGrammar {
  import opened Basics

  const QUOTE: Byte := 0x22
  const BACKSLASH: Byte := 0x5C
  const LETTER_U: Byte := 0x75
  const COMMA: Byte := 0x2C
  const COLON: Byte := 0x3A
  const OPEN_BRACE: Byte := 0x7B
  const CLOSE_BRACE: Byte := 0x7D
  const OPEN_BRACKET: Byte := 0x5B
  const CLOSE_BRACKET: Byte := 0x5D
  const MINUS: Byte := 0x2D
  const PLUS: Byte := 0x2B
  const DOT: Byte := 0x2E
  const ZERO: Byte := 0x30
  const NINE: Byte := 0x39
  const LOWER_E: Byte := 0x65
  const UPPER_E: Byte := 0x45

  predicate IsWs(c: Byte) { c == 0x20 || c == 0x09 || c == 0x0A || c == 0x0D }

  predicate IsDigit(c: Byte) { ZERO <= c <= NINE }

  predicate IsHex(c: Byte) { IsDigit(c) || 0x61 <= c <= 0x66 || 0x41 <= c <= 0x46 }

  predicate IsE(c: Byte) { c == LOWER_E || c == UPPER_E }

  predicate IsSign(c: Byte) { c == PLUS || c == MINUS }

  /** The letter of a two-byte escape: one of " \ / b f n r t. */
  predicate IsShort(c: Byte) {
    c == QUOTE || c == BACKSLASH || c == 0x2F || c == 0x62 || c == 0x66 || c == 0x6E || c == 0x72 || c == 0x74
  }


  // ---- Strings (section 7) ----

  datatype StrChar = Raw(b: Byte) | Short(b: Byte) | Hex(h1: Byte, h2: Byte, h3: Byte, h4: Byte)

  predicate WfChar(c: StrChar) {
    match c
    case Raw(b) => b >= 0x20 && b != QUOTE && b != BACKSLASH
    case Short(b) => IsShort(b)
    case Hex(a, b, c, d) => IsHex(a) && IsHex(b) && IsHex(c) && IsHex(d)
  }

  predicate WfChars(cs: List<StrChar>) {
    match cs
    case Nil => true
    case Cons(c, tail) => WfChar(c) && WfChars(tail)
  }

  function PutChar(c: StrChar, rest: Bytes): Bytes {
    match c
    case Raw(b) => [b] + rest
    case Short(b) => [BACKSLASH] + ([b] + rest)
    case Hex(a, b, c, d) => [BACKSLASH] + ([LETTER_U] + ([a] + ([b] + ([c] + ([d] + rest)))))
  }

  function PutChars(cs: List<StrChar>, rest: Bytes): Bytes {
    match cs
    case Nil => rest
    case Cons(c, tail) => PutChar(c, PutChars(tail, rest))
  }

  function PutString(cs: List<StrChar>, rest: Bytes): Bytes {
    [QUOTE] + PutChars(cs, [QUOTE] + rest)
  }

  // The sequences of section 4 of RFC 3629, over a string's unescaped bytes.

  predicate Between(c: StrChar, lo: Byte, hi: Byte) { c.Raw? && lo <= c.b <= hi }

  predicate Tail(c: StrChar) { Between(c, 0x80, 0xBF) }

  predicate Utf8Two(cs: List<StrChar>) {
    match cs
    case Cons(a, Cons(b, _)) => Between(a, 0xC2, 0xDF) && Tail(b)
    case _ => false
  }

  predicate Utf8Three(cs: List<StrChar>) {
    match cs
    case Cons(a, Cons(b, Cons(c, _))) =>
      Tail(c) &&
      (|| (Between(a, 0xE0, 0xE0) && Between(b, 0xA0, 0xBF))
       || (Between(a, 0xE1, 0xEC) && Tail(b))
       || (Between(a, 0xED, 0xED) && Between(b, 0x80, 0x9F))
       || (Between(a, 0xEE, 0xEF) && Tail(b)))
    case _ => false
  }

  predicate Utf8Four(cs: List<StrChar>) {
    match cs
    case Cons(a, Cons(b, Cons(c, Cons(d, _)))) =>
      Tail(c) && Tail(d) &&
      (|| (Between(a, 0xF0, 0xF0) && Between(b, 0x90, 0xBF))
       || (Between(a, 0xF1, 0xF3) && Tail(b))
       || (Between(a, 0xF4, 0xF4) && Between(b, 0x80, 0x8F)))
    case _ => false
  }

  /** Whether a string's unescaped bytes are UTF-8. */
  predicate Utf8Chars(cs: List<StrChar>) {
    if cs.Nil? then true
    else if !cs.head.Raw? || cs.head.b < 0x80 then Utf8Chars(cs.tail)
    else if Utf8Two(cs) then Utf8Chars(cs.tail.tail)
    else if Utf8Three(cs) then Utf8Chars(cs.tail.tail.tail)
    else Utf8Four(cs) && Utf8Chars(cs.tail.tail.tail.tail)
  }

  // ---- Numbers (section 6) ----

  datatype Exponent = NoExp | Exp(e: Byte, sign: Option<Byte>, digits: List<Byte>)

  /** frac is Nil for a number without a fraction. */
  datatype Number = Number(minus: bool, whole: List<Byte>, frac: List<Byte>, exp: Exponent)

  predicate WfDigits(ds: List<Byte>) {
    match ds
    case Nil => true
    case Cons(d, tail) => IsDigit(d) && WfDigits(tail)
  }

  predicate WfExp(e: Exponent) {
    match e
    case NoExp => true
    case Exp(e, sign, ds) => IsE(e) && (sign.Some? ==> IsSign(sign.value)) && ds.Cons? && WfDigits(ds)
  }

  predicate WfNumber(n: Number) {
    && n.whole.Cons? && WfDigits(n.whole) && (n.whole.head == ZERO ==> n.whole.tail.Nil?)
    && WfDigits(n.frac)
    && WfExp(n.exp)
  }

  function PutExp(e: Exponent, rest: Bytes): Bytes {
    match e
    case NoExp => rest
    case Exp(e, None, ds) => [e] + Put(ds, rest)
    case Exp(e, Some(s), ds) => [e] + ([s] + Put(ds, rest))
  }

  function PutFrac(f: List<Byte>, rest: Bytes): Bytes {
    if f.Nil? then rest else [DOT] + Put(f, rest)
  }

  function PutUnsigned(n: Number, rest: Bytes): Bytes {
    Put(n.whole, PutFrac(n.frac, PutExp(n.exp, rest)))
  }

  function PutNumber(n: Number, rest: Bytes): Bytes {
    if n.minus then [MINUS] + PutUnsigned(n, rest) else PutUnsigned(n, rest)
  }

  /** What may follow a number for it to end there: nothing that could be more of it. */
  predicate NumberEnds(rest: Bytes) {
    rest == [] || (!IsDigit(rest[0]) && rest[0] != DOT && !IsE(rest[0]))
  }

  // ---- Values (sections 2 to 5) ----

  datatype Word = True | False | Null

  function WordText(w: Word): List<Byte> {
    match w
    case True => Cons(0x74, Cons(0x72, Cons(0x75, Cons(0x65, Nil))))
    case False => Cons(0x66, Cons(0x61, Cons(0x6C, Cons(0x73, Cons(0x65, Nil)))))
    case Null => Cons(0x6E, Cons(0x75, Cons(0x6C, Cons(0x6C, Nil))))
  }

  datatype Kind = Obj | Arr

  function Opener(k: Kind): Byte { if k.Obj? then OPEN_BRACE else OPEN_BRACKET }

  function Closer(k: Kind): Byte { if k.Obj? then CLOSE_BRACE else CLOSE_BRACKET }

  /**
   * A value. A container is empty, with whitespace inside, or full: its
   * entries with commas between them. An entry is what comes before its value
   * (whitespace, and in an object the key and its colon), the value, and the
   * whitespace after it.
   */
  datatype Value =
    | Str(cs: List<StrChar>)
    | Num(n: Number)
    | Lit(w: Word)
    | Empty(kind: Kind, ws: List<Byte>)
    | Full(kind: Kind, es: Entries)

  datatype Entries = One(e: Entry) | More(e: Entry, rest: Entries)

  datatype Entry = Entry(pre: Prefix, v: Value, ws: List<Byte>)

  datatype Prefix = NoKey(w1: List<Byte>) | Key(w1: List<Byte>, key: List<StrChar>, w2: List<Byte>, w3: List<Byte>)

  predicate WfWs(w: List<Byte>) {
    match w
    case Nil => true
    case Cons(c, tail) => IsWs(c) && WfWs(tail)
  }

  predicate WfPrefix(kind: Kind, p: Prefix) {
    match p
    case NoKey(w1) => kind.Arr? && WfWs(w1)
    case Key(w1, key, w2, w3) => kind.Obj? && WfWs(w1) && WfChars(key) && WfWs(w2) && WfWs(w3)
  }

  predicate WfValue(v: Value)
    decreases v
  {
    match v
    case Str(cs) => WfChars(cs)
    case Num(n) => WfNumber(n)
    case Lit(_) => true
    case Empty(_, w) => WfWs(w)
    case Full(k, es) => WfEntries(k, es)
  }

  predicate WfEntries(k: Kind, es: Entries)
    decreases es
  {
    match es
    case One(e) => WfEntry(k, e)
    case More(e, rest) => WfEntry(k, e) && WfEntries(k, rest)
  }

  predicate WfEntry(k: Kind, e: Entry)
    decreases e
  {
    WfPrefix(k, e.pre) && WfValue(e.v) && WfWs(e.ws)
  }

  function PutPrefix(p: Prefix, rest: Bytes): Bytes {
    match p
    case NoKey(w1) => Put(w1, rest)
    case Key(w1, key, w2, w3) => Put(w1, PutString(key, Put(w2, [COLON] + Put(w3, rest))))
  }

  function PutValue(v: Value, rest: Bytes): Bytes {
    match v
    case Str(cs) => PutString(cs, rest)
    case Num(n) => PutNumber(n, rest)
    case Lit(w) => Put(WordText(w), rest)
    case Empty(k, w) => [Opener(k)] + Put(w, [Closer(k)] + rest)
    case Full(k, es) => [Opener(k)] + PutEntries(es, [Closer(k)] + rest)
  }

  function PutEntries(es: Entries, rest: Bytes): Bytes {
    match es
    case One(e) => PutEntry(e, rest)
    case More(e, tail) => PutEntry(e, [COMMA] + PutEntries(tail, rest))
  }

  function PutEntry(e: Entry, rest: Bytes): Bytes {
    PutPrefix(e.pre, PutValue(e.v, Put(e.ws, rest)))
  }

  /** A whole text: a value with whitespace around it. */
  datatype Doc = Doc(before: List<Byte>, v: Value, after: List<Byte>)

  predicate WfDoc(d: Doc) { WfWs(d.before) && WfValue(d.v) && WfWs(d.after) }

  function PutDoc(d: Doc): Bytes { Put(d.before, PutValue(d.v, Put(d.after, []))) }

  // ---- Limits ----

  /** How many containers deep a value goes. */
  function Nesting(v: Value): nat {
    match v
    case Empty(_, _) => 1
    case Full(_, es) => 1 + EntriesNesting(es)
    case _ => 0
  }

  function EntriesNesting(es: Entries): nat {
    match es
    case One(e) => EntryNesting(e)
    case More(e, rest) => Max(EntryNesting(e), EntriesNesting(rest))
  }

  function EntryNesting(e: Entry): nat { Nesting(e.v) }

  /** How many values deep a value goes, itself counted. */
  function Levels(v: Value): nat {
    match v
    case Full(_, es) => 1 + EntriesLevels(es)
    case _ => 1
  }

  function EntriesLevels(es: Entries): nat {
    match es
    case One(e) => EntryLevels(e)
    case More(e, rest) => Max(EntryLevels(e), EntriesLevels(rest))
  }

  function EntryLevels(e: Entry): nat { Levels(e.v) }

  lemma {:induction false} LevelsWithinNesting(v: Value)
    ensures Nesting(v) <= Levels(v) <= Nesting(v) + 1
    decreases v, 1
  {
    if v.Full? { EntriesLevelsWithinNesting(v.es); }
  }

  lemma {:induction false} EntriesLevelsWithinNesting(es: Entries)
    ensures EntriesNesting(es) <= EntriesLevels(es) <= EntriesNesting(es) + 1
    decreases es, 0
  {
    LevelsWithinNesting(es.e.v);
    if es.More? { EntriesLevelsWithinNesting(es.rest); }
  }

  /**
   * What a text must keep to beyond the grammar: whitespace runs of at most
   * maxWs bytes, and every string UTF-8.
   */
  predicate Strict(v: Value, maxWs: nat) {
    match v
    case Str(cs) => Utf8Chars(cs)
    case Empty(_, w) => Length(w) <= maxWs
    case Full(_, es) => StrictEntries(es, maxWs)
    case _ => true
  }

  predicate StrictEntries(es: Entries, maxWs: nat) {
    match es
    case One(e) => StrictEntry(e, maxWs)
    case More(e, rest) => StrictEntry(e, maxWs) && StrictEntries(rest, maxWs)
  }

  predicate StrictEntry(e: Entry, maxWs: nat) {
    StrictPrefix(e.pre, maxWs) && Strict(e.v, maxWs) && Length(e.ws) <= maxWs
  }

  predicate StrictPrefix(p: Prefix, maxWs: nat) {
    match p
    case NoKey(w1) => Length(w1) <= maxWs
    case Key(w1, key, w2, w3) => Length(w1) <= maxWs && Utf8Chars(key) && Length(w2) <= maxWs && Length(w3) <= maxWs
  }

  predicate StrictDoc(d: Doc, maxWs: nat) {
    Length(d.before) <= maxWs && Strict(d.v, maxWs) && Length(d.after) <= maxWs
  }
}
