/** The automaton accepts what the grammar derives: every tree within the limits is read to its end. */
module JsonAccepts {
  import opened Basics
  import opened JsonGrammar
  import opened JsonPrefix

  lemma FeedCons(p: Pda, c: Byte, rest: Bytes)
    ensures Feed(p, [c] + rest) == Feed(Step(p, c), rest)
  {
  }

  lemma {:induction false} AcceptWs(stack: List<Kind>, at: Place, ws: nat, w: List<Byte>, rest: Bytes)
    requires WfWs(w) && ws + Length(w) <= MAX_WS
    ensures Feed(Pda(stack, Gap(at, ws)), Put(w, rest)) == Feed(Pda(stack, Gap(at, ws + Length(w))), rest)
    decreases w
  {
    if w.Cons? {
      FeedCons(Pda(stack, Gap(at, ws)), w.head, Put(w.tail, rest));
      AcceptWs(stack, at, ws + 1, w.tail, rest);
    }
  }

  /** The bytes of one character of a string, read from and back to its normal mode. */
  lemma AcceptChar(stack: List<Kind>, key: bool, c: StrChar, rest: Bytes)
    requires WfChar(c) && (c.Raw? ==> c.b < 0x80)
    ensures Feed(Pda(stack, InString(key, Normal)), PutChar(c, rest)) == Feed(Pda(stack, InString(key, Normal)), rest)
  {
    var p := Pda(stack, InString(key, Normal));
    match c
    case Raw(b) => FeedCons(p, b, rest);
    case Short(b) =>
      FeedCons(p, BACKSLASH, [b] + rest);
      FeedCons(Pda(stack, InString(key, Escape)), b, rest);
    case Hex(a, b, c, d) =>
      FeedCons(p, BACKSLASH, [LETTER_U] + ([a] + ([b] + ([c] + ([d] + rest)))));
      FeedCons(Pda(stack, InString(key, Escape)), LETTER_U, [a] + ([b] + ([c] + ([d] + rest))));
      FeedCons(Pda(stack, InString(key, HexOwed(4))), a, [b] + ([c] + ([d] + rest)));
      FeedCons(Pda(stack, InString(key, HexOwed(3))), b, [c] + ([d] + rest));
      FeedCons(Pda(stack, InString(key, HexOwed(2))), c, [d] + rest);
      FeedCons(Pda(stack, InString(key, HexOwed(1))), d, rest);
  }

  lemma AcceptRaw(stack: List<Kind>, key: bool, s: StrMode, cs: List<StrChar>, rest: Bytes)
    requires cs.Cons? && cs.head.Raw? && (s.Normal? ==> cs.head.b != QUOTE)
    requires StringNext(s, cs.head.b).Some?
    ensures Feed(Pda(stack, InString(key, s)), PutChars(cs, rest))
         == Feed(Pda(stack, InString(key, StringNext(s, cs.head.b).value)), PutChars(cs.tail, rest))
  {
    FeedCons(Pda(stack, InString(key, s)), cs.head.b, PutChars(cs.tail, rest));
  }

  lemma {:induction false} AcceptChars(stack: List<Kind>, key: bool, cs: List<StrChar>, rest: Bytes)
    requires WfChars(cs) && Utf8Chars(cs)
    ensures Feed(Pda(stack, InString(key, Normal)), PutChars(cs, rest)) == Feed(Pda(stack, InString(key, Normal)), rest)
    decreases cs
  {
    if cs.Nil? {
    } else if !cs.head.Raw? || cs.head.b < 0x80 {
      AcceptChar(stack, key, cs.head, PutChars(cs.tail, rest));
      AcceptChars(stack, key, cs.tail, rest);
    } else {
      assert WfChars(cs.tail) && WfChars(cs.tail.tail);
      var s1 := StringNext(Normal, cs.head.b).value;
      AcceptRaw(stack, key, Normal, cs, rest);
      AcceptRaw(stack, key, s1, cs.tail, rest);
      if Utf8Two(cs) {
        AcceptChars(stack, key, cs.tail.tail, rest);
      } else {
        AcceptRaw(stack, key, Utf8Owed(s1.left - 1, 0x80, 0xBF), cs.tail.tail, rest);
        assert WfChars(cs.tail.tail.tail);
        if Utf8Three(cs) {
          AcceptChars(stack, key, cs.tail.tail.tail, rest);
        } else {
          AcceptRaw(stack, key, Utf8Owed(1, 0x80, 0xBF), cs.tail.tail.tail, rest);
          AcceptChars(stack, key, cs.tail.tail.tail.tail, rest);
        }
      }
    }
  }

  function AfterString(stack: List<Kind>, key: bool): Pda {
    if key then Pda(stack, Gap(Colon, 0)) else ValueDone(stack)
  }

  /** A string from its first byte after the opening quote. */
  lemma AcceptString(stack: List<Kind>, key: bool, cs: List<StrChar>, rest: Bytes)
    requires WfChars(cs) && Utf8Chars(cs)
    ensures Feed(Pda(stack, InString(key, Normal)), PutChars(cs, [QUOTE] + rest)) == Feed(AfterString(stack, key), rest)
  {
    AcceptChars(stack, key, cs, [QUOTE] + rest);
    FeedCons(Pda(stack, InString(key, Normal)), QUOTE, rest);
  }

  lemma {:induction false} AcceptDigits(stack: List<Kind>, n: NumMode, ds: List<Byte>, rest: Bytes)
    requires n.NInt? || n.NFrac? || n.NExpDigits?
    requires WfDigits(ds)
    ensures Feed(Pda(stack, InNumber(n)), Put(ds, rest)) == Feed(Pda(stack, InNumber(n)), rest)
    decreases ds
  {
    if ds.Cons? {
      FeedCons(Pda(stack, InNumber(n)), ds.head, Put(ds.tail, rest));
      AcceptDigits(stack, n, ds.tail, rest);
    }
  }

  function AfterExp(n: NumMode, e: Exponent): NumMode { if e.NoExp? then n else NExpDigits }

  lemma AcceptExp(stack: List<Kind>, n: NumMode, e: Exponent, rest: Bytes)
    requires WfExp(e) && (n.NZero? || n.NInt? || n.NFrac?)
    ensures Feed(Pda(stack, InNumber(n)), PutExp(e, rest)) == Feed(Pda(stack, InNumber(AfterExp(n, e))), rest)
  {
    match e
    case NoExp =>
    case Exp(b, sign, ds) =>
      var digits := Put(ds, rest);
      if sign.Some? {
        FeedCons(Pda(stack, InNumber(n)), b, [sign.value] + digits);
        FeedCons(Pda(stack, InNumber(NExp)), sign.value, digits);
        FeedCons(Pda(stack, InNumber(NExpSign)), ds.head, Put(ds.tail, rest));
      } else {
        FeedCons(Pda(stack, InNumber(n)), b, digits);
        FeedCons(Pda(stack, InNumber(NExp)), ds.head, Put(ds.tail, rest));
      }
      AcceptDigits(stack, NExpDigits, ds.tail, rest);
  }

  function AfterFrac(n: NumMode, f: List<Byte>): NumMode { if f.Nil? then n else NFrac }

  lemma AcceptFrac(stack: List<Kind>, n: NumMode, f: List<Byte>, rest: Bytes)
    requires WfDigits(f) && (n.NZero? || n.NInt?)
    ensures Feed(Pda(stack, InNumber(n)), PutFrac(f, rest)) == Feed(Pda(stack, InNumber(AfterFrac(n, f))), rest)
  {
    if f.Cons? {
      FeedCons(Pda(stack, InNumber(n)), DOT, Put(f, rest));
      FeedCons(Pda(stack, InNumber(NDot)), f.head, Put(f.tail, rest));
      AcceptDigits(stack, NFrac, f.tail, rest);
    }
  }

  /** A number, whose end the byte after it shows. */
  lemma AcceptNumber(stack: List<Kind>, p: Pda, n: Number, rest: Bytes)
    requires WfNumber(n) && rest != [] && NumberEnds(rest)
    requires forall c :: c == MINUS || IsDigit(c) ==> Step(p, c) == StartValue(stack, c)
    ensures Feed(p, PutNumber(n, rest)) == Feed(ValueDone(stack), rest)
  {
    var r2 := PutExp(n.exp, rest);
    var r1 := PutFrac(n.frac, r2);
    var first := if n.whole.head == ZERO then NZero else NInt;
    FeedCons(p, n.whole.head, Put(n.whole.tail, r1));
    if n.minus {
      FeedCons(p, MINUS, PutUnsigned(n, rest));
      FeedCons(Pda(stack, InNumber(NMinus)), n.whole.head, Put(n.whole.tail, r1));
    }
    if first == NInt { AcceptDigits(stack, NInt, n.whole.tail, r1); }
    AcceptFrac(stack, first, n.frac, r2);
    AcceptExp(stack, AfterFrac(first, n.frac), n.exp, rest);
    var last := AfterExp(AfterFrac(first, n.frac), n.exp);
    assert Step(Pda(stack, InNumber(last)), rest[0]) == Step(ValueDone(stack), rest[0]);
  }

  lemma {:induction false} AcceptWordRest(stack: List<Kind>, left: List<Byte>, rest: Bytes)
    requires left.Cons?
    ensures Feed(Pda(stack, InWord(left)), Put(left, rest)) == Feed(ValueDone(stack), rest)
    decreases left
  {
    FeedCons(Pda(stack, InWord(left)), left.head, Put(left.tail, rest));
    if left.tail.Cons? { AcceptWordRest(stack, left.tail, rest); }
  }

  /** Whether a value's text may be followed by rest: only a number minds. */
  predicate MayFollow(v: Value, rest: Bytes) { v.Num? ==> rest != [] && NumberEnds(rest) }

  lemma WsMayFollow(v: Value, w: List<Byte>, rest: Bytes)
    requires WfWs(w) && rest != [] && NumberEnds(rest)
    ensures MayFollow(v, Put(w, rest))
  {
  }

  /** A place where a value may start, with whitespace already read. */
  predicate ValuePlace(stack: List<Kind>, at: Place) { at.Val? || (at.ArrOpen? && stack.Cons? && stack.head.Arr?) }

  lemma {:induction false} AcceptValue(stack: List<Kind>, at: Place, ws: nat, v: Value, rest: Bytes)
    requires ValuePlace(stack, at) && ws <= MAX_WS
    requires WfValue(v) && Strict(v, MAX_WS) && MayFollow(v, rest)
    requires Length(stack) + Nesting(v) <= MAX_DEPTH
    ensures Feed(Pda(stack, Gap(at, ws)), PutValue(v, rest)) == Feed(ValueDone(stack), rest)
    decreases v, 0
  {
    hide Feed;
    var p := Pda(stack, Gap(at, ws));
    match v
    case Str(cs) =>
      FeedCons(p, QUOTE, PutChars(cs, [QUOTE] + rest));
      AcceptString(stack, false, cs, rest);
    case Num(n) => AcceptNumber(stack, p, n, rest);
    case Lit(w) =>
      FeedCons(p, WordText(w).head, Put(WordText(w).tail, rest));
      AcceptWordRest(stack, WordText(w).tail, rest);
    case Empty(k, w) =>
      FeedCons(p, Opener(k), Put(w, [Closer(k)] + rest));
      AcceptEmpty(stack, k, w, rest);
    case Full(k, es) =>
      FeedCons(p, Opener(k), PutEntries(es, [Closer(k)] + rest));
      AcceptEntries(stack, k, FirstPlace(k), es, rest);
  }

  function FirstPlace(k: Kind): Place { if k.Obj? then ObjOpen else ArrOpen }

  function NextPlace(k: Kind): Place { if k.Obj? then ObjKey else Val }

  lemma AcceptEmpty(stack: List<Kind>, k: Kind, w: List<Byte>, rest: Bytes)
    requires WfWs(w) && Length(w) <= MAX_WS
    ensures Feed(Pda(Cons(k, stack), Gap(FirstPlace(k), 0)), Put(w, [Closer(k)] + rest)) == Feed(ValueDone(stack), rest)
  {
    AcceptWs(Cons(k, stack), FirstPlace(k), 0, w, [Closer(k)] + rest);
    FeedCons(Pda(Cons(k, stack), Gap(FirstPlace(k), Length(w))), Closer(k), rest);
  }

  /** A container's entries and its closer. */
  lemma {:induction false} AcceptEntries(stack: List<Kind>, k: Kind, at: Place, es: Entries, rest: Bytes)
    requires at == FirstPlace(k) || at == NextPlace(k)
    requires WfEntries(k, es) && StrictEntries(es, MAX_WS)
    requires Length(stack) + 1 + EntriesNesting(es) <= MAX_DEPTH
    ensures Feed(Pda(Cons(k, stack), Gap(at, 0)), PutEntries(es, [Closer(k)] + rest)) == Feed(ValueDone(stack), rest)
    decreases es, 1
  {
    var after := Pda(Cons(k, stack), Gap(After, Length(es.e.ws)));
    match es
    case One(e) =>
      AcceptEntry(stack, k, at, e, [Closer(k)] + rest);
      FeedCons(after, Closer(k), rest);
    case More(e, tail) =>
      AcceptEntry(stack, k, at, e, [COMMA] + PutEntries(tail, [Closer(k)] + rest));
      FeedCons(after, COMMA, PutEntries(tail, [Closer(k)] + rest));
      AcceptEntries(stack, k, NextPlace(k), tail, rest);
  }

  lemma AcceptPrefix(stack: List<Kind>, k: Kind, at: Place, pre: Prefix, rest: Bytes) returns (at': Place, ws: nat)
    requires at == FirstPlace(k) || at == NextPlace(k)
    requires WfPrefix(k, pre) && StrictPrefix(pre, MAX_WS)
    ensures ValuePlace(Cons(k, stack), at') && ws <= MAX_WS
    ensures Feed(Pda(Cons(k, stack), Gap(at, 0)), PutPrefix(pre, rest)) == Feed(Pda(Cons(k, stack), Gap(at', ws)), rest)
  {
    var st := Cons(k, stack);
    match pre
    case NoKey(w1) =>
      AcceptWs(st, at, 0, w1, rest);
      at', ws := at, Length(w1);
    case Key(w1, key, w2, w3) =>
      var r2 := Put(w3, rest);
      var r1 := Put(w2, [COLON] + r2);
      AcceptWs(st, at, 0, w1, PutString(key, r1));
      FeedCons(Pda(st, Gap(at, Length(w1))), QUOTE, PutChars(key, [QUOTE] + r1));
      AcceptString(st, true, key, r1);
      AcceptWs(st, Colon, 0, w2, [COLON] + r2);
      FeedCons(Pda(st, Gap(Colon, Length(w2))), COLON, r2);
      AcceptWs(st, Val, 0, w3, rest);
      at', ws := Val, Length(w3);
  }

  lemma {:induction false} AcceptEntry(stack: List<Kind>, k: Kind, at: Place, e: Entry, rest: Bytes)
    requires at == FirstPlace(k) || at == NextPlace(k)
    requires WfEntry(k, e) && StrictEntry(e, MAX_WS)
    requires Length(stack) + 1 + EntryNesting(e) <= MAX_DEPTH
    requires rest != [] && NumberEnds(rest)
    ensures Feed(Pda(Cons(k, stack), Gap(at, 0)), PutEntry(e, rest))
         == Feed(Pda(Cons(k, stack), Gap(After, Length(e.ws))), rest)
    decreases e
  {
    var tail := Put(e.ws, rest);
    var at', ws := AcceptPrefix(stack, k, at, e.pre, PutValue(e.v, tail));
    WsMayFollow(e.v, e.ws, rest);
    AcceptValue(Cons(k, stack), at', ws, e.v, tail);
    AcceptWs(Cons(k, stack), After, 0, e.ws, rest);
  }

  /** A text the automaton is made for: an object within its limits, whitespace around it. */
  predicate Derives(d: Doc) {
    && WfDoc(d) && StrictDoc(d, MAX_WS)
    && (d.v.Empty? || d.v.Full?) && d.v.kind.Obj?
    && Nesting(d.v) <= MAX_DEPTH
  }

  lemma DerivedIsComplete(d: Doc)
    requires Derives(d)
    ensures Complete(Feed(INITIAL, PutDoc(d)))
  {
    var rest := Put(d.after, []);
    AcceptWs(Nil, Start, 0, d.before, PutValue(d.v, rest));
    var p := Pda(Nil, Gap(Start, Length(d.before)));
    match d.v {
      case Empty(k, w) =>
        FeedCons(p, Opener(k), Put(w, [Closer(k)] + rest));
        AcceptEmpty(Nil, k, w, rest);
      case Full(k, es) =>
        FeedCons(p, Opener(k), PutEntries(es, [Closer(k)] + rest));
        AcceptEntries(Nil, k, FirstPlace(k), es, rest);
    }
    AcceptWs(Nil, Done, 0, d.after, []);
  }
}
