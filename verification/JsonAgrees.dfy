/**
 * A text the automaton calls complete is one the reader reads, to the same
 * end and within the automaton's limits. With JsonAccepts this makes the
 * automaton, the grammar and the reader say the same of every text.
 */
module JsonAgrees {
  import opened Basics
  import opened JsonGrammar
  import opened JsonPrefix
  import opened JsonAccepts
  import opened JsonReader

  /** Whether t takes p to a complete object. */
  ghost predicate Ends(p: Pda, t: Bytes) { Complete(Feed(p, t)) }

  /** A text that completes the object has a next byte, and that byte does not fail. */
  lemma OneMore(p: Pda, t: Bytes)
    requires Ends(p, t) && !Complete(p)
    ensures t != [] && Step(p, t[0]) != Failed && Ends(Step(p, t[0]), t[1..]) &&
        Feed(p, t) == Feed(Step(p, t[0]), t[1..])
  {
    if t != [] { FeedFailed(t[1..]); }
  }

  lemma {:induction false} WsFollows(stack: List<Kind>, at: Place, ws: nat, t: Bytes)
    requires ws <= MAX_WS && Ends(Pda(stack, Gap(at, ws)), t)
    ensures var (w, rest) := ReadWs(t);
            ws + Length(w) <= MAX_WS &&
                Feed(Pda(stack, Gap(at, ws)), t) == Feed(Pda(stack, Gap(at, ws + Length(w))), rest)
    decreases t
  {
    if t != [] && IsWs(t[0]) {
      FeedFailed(t[1..]);
      WsFollows(stack, at, ws + 1, t[1..]);
    }
  }

  // ---- Strings ----

  /** One step inside a string, and the reader's step over the same unescaped byte. */
  lemma RawFollows(stack: List<Kind>, key: bool, s: StrMode, t: Bytes)
    requires s.Normal? || s.Utf8Owed?
    requires Ends(Pda(stack, InString(key, s)), t) && StrModeOk(s)
    requires s.Normal? ==> t != [] && t[0] != QUOTE && t[0] != BACKSLASH
    ensures t != [] && StringNext(s, t[0]).Some?
    ensures Ends(Pda(stack, InString(key, StringNext(s, t[0]).value)), t[1..])
    ensures Feed(Pda(stack, InString(key, s)), t) == Feed(Pda(stack, InString(key, StringNext(s, t[0]).value)), t[1..])
    ensures ReadChars(t).Ok? <==> ReadChars(t[1..]).Ok?
    ensures ReadChars(t).Ok? ==> ReadChars(t) == Ok(Cons(Raw(t[0]), ReadChars(t[1..]).v), ReadChars(t[1..]).rest)
  {
    OneMore(Pda(stack, InString(key, s)), t);
  }

  lemma {:induction false} EscapeFollows(stack: List<Kind>, key: bool, t: Bytes)
    requires Ends(Pda(stack, InString(key, Normal)), t) && t != [] && t[0] == BACKSLASH
    ensures ReadChar(t).Ok? && !ReadChar(t).v.Raw?
    ensures Feed(Pda(stack, InString(key, Normal)), t) == Feed(Pda(stack, InString(key, Normal)), ReadChar(t).rest)
  {
    var t1 := t[1..];
    OneMore(Pda(stack, InString(key, Normal)), t);
    OneMore(Pda(stack, InString(key, Escape)), t1);
    if t[1] == LETTER_U {
      HexFollows(stack, key, 4, t1[1..]);
      assert t1[1..][0] == t[2] && t1[1..][1] == t[3] && t1[1..][2] == t[4] && t1[1..][3] == t[5];
      assert t1[1..][4..] == t[6..];
    } else {
      assert t1[1..] == t[2..];
    }
  }

  lemma {:induction false} HexFollows(stack: List<Kind>, key: bool, left: nat, t: Bytes)
    requires 1 <= left <= 4 && Ends(Pda(stack, InString(key, HexOwed(left))), t)
    ensures |t| >= left && forall i :: 0 <= i < left ==> IsHex(t[i])
    ensures Feed(Pda(stack, InString(key, HexOwed(left))), t) == Feed(Pda(stack, InString(key, Normal)), t[left..])
    decreases left
  {
    OneMore(Pda(stack, InString(key, HexOwed(left))), t);
    if left > 1 {
      HexFollows(stack, key, left - 1, t[1..]);
      assert t[1..][left - 1..] == t[left..];
      forall i | 0 < i < left ensures IsHex(t[i]) { assert IsHex(t[1..][i - 1]); }
    }
  }

  lemma {:induction false} CharsFollow(stack: List<Kind>, key: bool, t: Bytes)
    requires Ends(Pda(stack, InString(key, Normal)), t)
    ensures ReadChars(t).Ok? && Utf8Chars(ReadChars(t).v)
    ensures Feed(Pda(stack, InString(key, Normal)), t) == Feed(AfterString(stack, key), ReadChars(t).rest)
    decreases |t|
  {
    if t[0] == QUOTE {
    } else if t[0] == BACKSLASH {
      EscapeFollows(stack, key, t);
      CharsFollow(stack, key, ReadChar(t).rest);
    } else {
      RawFollows(stack, key, Normal, t);
      if t[0] < 0x80 {
        CharsFollow(stack, key, t[1..]);
      } else {
        LeadFollows(stack, key, t);
      }
    }
  }

  lemma {:induction false} LeadFollows(stack: List<Kind>, key: bool, t: Bytes)
    requires Ends(Pda(stack, InString(key, Normal)), t) && t != [] && t[0] >= 0x80
    ensures ReadChars(t).Ok? && Utf8Chars(ReadChars(t).v)
    ensures Feed(Pda(stack, InString(key, Normal)), t) == Feed(AfterString(stack, key), ReadChars(t).rest)
    decreases |t|, 0
  {
    hide Feed;
    hide Step;
    hide ReadChars;
    RawFollows(stack, key, Normal, t);
    var s, t1 := LeadOwes(t[0]).value, t[1..];
    RawFollows(stack, key, s, t1);
    var t2 := t1[1..];
    if s.left == 1 {
      CharsFollow(stack, key, t2);
      assert Utf8Two(ReadChars(t).v);
    } else {
      RawFollows(stack, key, Utf8Owed(s.left - 1, 0x80, 0xBF), t2);
      var t3 := t2[1..];
      if s.left == 2 {
        CharsFollow(stack, key, t3);
        assert !Utf8Two(ReadChars(t).v) && Utf8Three(ReadChars(t).v);
      } else {
        RawFollows(stack, key, Utf8Owed(1, 0x80, 0xBF), t3);
        CharsFollow(stack, key, t3[1..]);
        assert !Utf8Two(ReadChars(t).v) && !Utf8Three(ReadChars(t).v) && Utf8Four(ReadChars(t).v);
      }
    }
  }

  // ---- Numbers and words ----

  lemma {:induction false} DigitsFollow(stack: List<Kind>, n: NumMode, t: Bytes)
    requires n.NInt? || n.NFrac? || n.NExpDigits?
    requires Ends(Pda(stack, InNumber(n)), t)
    ensures var rest := ReadDigits(t).1;
            rest != [] && Feed(Pda(stack, InNumber(n)), t) == Feed(Pda(stack, InNumber(n)), rest)
    decreases t
  {
    OneMore(Pda(stack, InNumber(n)), t);
    if IsDigit(t[0]) { DigitsFollow(stack, n, t[1..]); }
  }

  /** A number with no exponent ends where a byte that is not its own comes. */
  lemma NumberStops(stack: List<Kind>, n: NumMode, t: Bytes)
    requires n.NZero? || n.NInt? || n.NFrac? || n.NExpDigits?
    requires Ends(Pda(stack, InNumber(n)), t) && t != [] && (!n.NZero? ==> !IsDigit(t[0]))
    requires (n.NZero? || n.NInt? ==> t[0] != DOT) && (!n.NExpDigits? ==> !IsE(t[0]))
    ensures Feed(Pda(stack, InNumber(n)), t) == Feed(ValueDone(stack), t) && NumberEnds(t)
  {
    OneMore(Pda(stack, InNumber(n)), t);
  }

  lemma ExpFollows(stack: List<Kind>, n: NumMode, t: Bytes)
    requires n.NZero? || n.NInt? || n.NFrac?
    requires Ends(Pda(stack, InNumber(n)), t)
    requires t != [] && (n.NInt? || n.NFrac? ==> !IsDigit(t[0])) && (!n.NFrac? ==> t[0] != DOT)
    ensures ReadExp(t).Ok? && ReadExp(t).rest != []
    ensures Feed(Pda(stack, InNumber(n)), t) == Feed(ValueDone(stack), ReadExp(t).rest)
    ensures NumberEnds(ReadExp(t).rest)
  {
    hide Feed;
    if IsE(t[0]) {
      OneMore(Pda(stack, InNumber(n)), t);
      var t1 := t[1..];
      OneMore(Pda(stack, InNumber(NExp)), t1);
      if IsSign(t1[0]) {
        OneMore(Pda(stack, InNumber(NExpSign)), t1[1..]);
        assert t1[1..] == t[2..];
      }
      var t2 := if IsSign(t1[0]) then t1[1..] else t1;
      DigitsFollow(stack, NExpDigits, t2[1..]);
      DigitsEnd(t2[1..]);
      NumberStops(stack, NExpDigits, ReadDigits(t2).1);
    } else {
      NumberStops(stack, n, t);
    }
  }

  lemma {:induction false} DigitsEnd(t: Bytes)
    ensures var rest := ReadDigits(t).1; rest != [] ==> !IsDigit(rest[0])
    decreases t
  {
    if t != [] && IsDigit(t[0]) { DigitsEnd(t[1..]); }
  }

  lemma FracFollows(stack: List<Kind>, n: NumMode, t: Bytes)
    requires n.NZero? || n.NInt?
    requires Ends(Pda(stack, InNumber(n)), t)
    requires t != [] && (n.NInt? ==> !IsDigit(t[0]))
    ensures ReadFrac(t).Ok? && ReadExp(ReadFrac(t).rest).Ok?
    ensures var rest := ReadExp(ReadFrac(t).rest).rest;
            rest != [] && NumberEnds(rest) && Feed(Pda(stack, InNumber(n)), t) == Feed(ValueDone(stack), rest)
  {
    if t[0] == DOT {
      var t1 := t[1..];
      OneMore(Pda(stack, InNumber(n)), t);
      OneMore(Pda(stack, InNumber(NDot)), t1);
      DigitsFollow(stack, NFrac, t1[1..]);
      var t2 := ReadDigits(t1).1;
      ExpFollows(stack, NFrac, t2);
    } else {
      ExpFollows(stack, n, t);
    }
  }

  lemma UnsignedFollows(stack: List<Kind>, minus: bool, t: Bytes)
    requires t != [] && IsDigit(t[0])
    requires Ends(Pda(stack, InNumber(if t[0] == ZERO then NZero else NInt)), t[1..])
    ensures var r := ReadUnsigned(minus, t);
            r.Ok? && r.rest != [] && NumberEnds(r.rest)
            && Feed(Pda(stack, InNumber(if t[0] == ZERO then NZero else NInt)), t[1..]) ==
                Feed(ValueDone(stack), r.rest)
  {
    if t[0] == ZERO {
      FracFollows(stack, NZero, t[1..]);
    } else {
      DigitsFollow(stack, NInt, t[1..]);
      FracFollows(stack, NInt, ReadDigits(t[1..]).1);
    }
  }

  lemma NumberFollows(stack: List<Kind>, t: Bytes)
    requires t != [] && (t[0] == MINUS || IsDigit(t[0]))
    requires Ends(StartValue(stack, t[0]), t[1..])
    ensures var r := ReadNumber(t);
            r.Ok? && r.rest != [] && NumberEnds(r.rest) &&
                Feed(StartValue(stack, t[0]), t[1..]) == Feed(ValueDone(stack), r.rest)
  {
    if t[0] == MINUS {
      var t1 := t[1..];
      OneMore(Pda(stack, InNumber(NMinus)), t1);
      UnsignedFollows(stack, true, t1);
    } else {
      UnsignedFollows(stack, false, t);
    }
  }

  lemma {:induction false} WordFollows(stack: List<Kind>, left: List<Byte>, t: Bytes)
    requires left.Cons? && Ends(Pda(stack, InWord(left)), t)
    ensures ReadWord(left, t).Some? &&
        Feed(Pda(stack, InWord(left)), t) == Feed(ValueDone(stack), ReadWord(left, t).value)
    decreases left
  {
    OneMore(Pda(stack, InWord(left)), t);
    if left.tail.Cons? { WordFollows(stack, left.tail, t[1..]); }
  }

  // ---- Values ----

  /** The levels a reader has left where this many containers are open. */
  ghost predicate LevelsLeft(stack: List<Kind>, levels: nat) { Length(stack) + levels > MAX_DEPTH }

  lemma {:induction false} ValueFollows(stack: List<Kind>, at: Place, ws: nat, t: Bytes, levels: nat)
    requires ValuePlace(stack, at) && LevelsLeft(stack, levels) && Length(stack) <= MAX_DEPTH
    requires t != [] && !IsWs(t[0]) && (at.ArrOpen? ==> t[0] != CLOSE_BRACKET)
    requires Ends(Pda(stack, Gap(at, ws)), t)
    ensures var r := ReadValue(t, levels);
            && r.Ok? && Strict(r.v, MAX_WS) && Length(stack) + Nesting(r.v) <= MAX_DEPTH
            && Feed(Pda(stack, Gap(at, ws)), t) == Feed(ValueDone(stack), r.rest)
    decreases |t|, 0
  {
    OneMore(Pda(stack, Gap(at, ws)), t);
    var p := StartValue(stack, t[0]);
    assert Feed(Pda(stack, Gap(at, ws)), t) == Feed(p, t[1..]);
    if t[0] == OPEN_BRACE || t[0] == OPEN_BRACKET {
      ContainerFollows(stack, if t[0] == OPEN_BRACE then Obj else Arr, t[1..], levels);
    } else if t[0] == QUOTE {
      CharsFollow(stack, false, t[1..]);
    } else if t[0] == MINUS || IsDigit(t[0]) {
      NumberFollows(stack, t);
    } else if t[0] == WordText(True).head {
      WordFollows(stack, WordText(True).tail, t[1..]);
    } else if t[0] == WordText(False).head {
      WordFollows(stack, WordText(False).tail, t[1..]);
    } else {
      WordFollows(stack, WordText(Null).tail, t[1..]);
    }
  }

  lemma {:induction false} ContainerFollows(stack: List<Kind>, k: Kind, t: Bytes, levels: nat)
    requires LevelsLeft(stack, levels) && Ends(Push(stack, k), t) && levels > 0
    ensures var r := ReadContainer(k, t, levels);
            && r.Ok? && Strict(r.v, MAX_WS) && Length(stack) + Nesting(r.v) <= MAX_DEPTH
            && Feed(Push(stack, k), t) == Feed(ValueDone(stack), r.rest)
    decreases |t|, 3
  {
    hide Feed;
    hide Step;
    hide ReadWs;
    hide ReadEntries;
    hide Strict;
    hide StrictEntries;
    hide Nesting;
    hide EntriesNesting;
    PushFollows(stack, k, t);
    var (w, t1) := ReadWs(t);
    WsFollows(Cons(k, stack), FirstPlace(k), 0, t);
    OneMore(Pda(Cons(k, stack), Gap(FirstPlace(k), Length(w))), t1);
    if t1[0] == Closer(k) {
      EmptyFollows(stack, k, Length(w), w, t1);
    } else {
      EntriesFollow(stack, k, FirstPlace(k), t, levels - 1);
      FullIsRead(k, t, levels);
    }
  }

  lemma PushFollows(stack: List<Kind>, k: Kind, t: Bytes)
    requires Ends(Push(stack, k), t)
    ensures Push(stack, k) == Pda(Cons(k, stack), Gap(FirstPlace(k), 0)) && Length(stack) < MAX_DEPTH
  {
    FeedFailed(t);
  }

  /** A container closed before anything but whitespace. */
  lemma EmptyFollows(stack: List<Kind>, k: Kind, ws: nat, w: List<Byte>, t: Bytes)
    requires t != [] && t[0] == Closer(k) && Length(w) <= MAX_WS && Length(stack) < MAX_DEPTH
    ensures Step(Pda(Cons(k, stack), Gap(FirstPlace(k), ws)), t[0]) == ValueDone(stack)
    ensures Strict(Empty(k, w), MAX_WS) && Length(stack) + Nesting(Empty(k, w)) <= MAX_DEPTH
  {
  }

  lemma FullIsRead(k: Kind, t: Bytes, levels: nat)
    requires levels > 0 && ReadEntries(k, t, levels - 1).Ok?
    requires ReadWs(t).1 != [] && ReadWs(t).1[0] != Closer(k)
    ensures var es := ReadEntries(k, t, levels - 1);
            && ReadContainer(k, t, levels) == Ok(Full(k, es.v), es.rest)
            && (StrictEntries(es.v, MAX_WS) ==> Strict(Full(k, es.v), MAX_WS))
            && Nesting(Full(k, es.v)) == 1 + EntriesNesting(es.v)
  {
    hide ReadEntries;
    hide ReadWs;
  }

  lemma {:induction false} PrefixFollows(stack: List<Kind>, k: Kind, at: Place, t: Bytes) returns (at': Place, ws: nat)
    requires at == FirstPlace(k) || at == NextPlace(k)
    requires Ends(Pda(Cons(k, stack), Gap(at, 0)), t)
    requires at == FirstPlace(k) ==> ReadWs(t).1 != [] && ReadWs(t).1[0] != Closer(k)
    ensures var r := ReadPrefix(k, t);
            && r.Ok? && StrictPrefix(r.v, MAX_WS) && r.rest != [] && !IsWs(r.rest[0])
            && ValuePlace(Cons(k, stack), at') && (at'.ArrOpen? ==> r.rest[0] != CLOSE_BRACKET)
            && Feed(Pda(Cons(k, stack), Gap(at, 0)), t) == Feed(Pda(Cons(k, stack), Gap(at', ws)), r.rest)
  {
    hide Feed;
    hide ReadChars;
    hide ReadWs;
    hide Utf8Chars;
    var st := Cons(k, stack);
    WsFollows(st, at, 0, t);
    var (w1, t1) := ReadWs(t);
    at', ws := at, Length(w1);
    if k.Obj? {
      OneMore(Pda(st, Gap(at, ws)), t1);
      CharsFollow(st, true, t1[1..]);
      var t2 := ReadChars(t1[1..]).rest;
      WsFollows(st, Colon, 0, t2);
      var (w2, t3) := ReadWs(t2);
      OneMore(Pda(st, Gap(Colon, Length(w2))), t3);
      WsFollows(st, Val, 0, t3[1..]);
      at', ws := Val, Length(ReadWs(t3[1..]).0);
    }
    OneMore(Pda(st, Gap(at', ws)), ReadPrefix(k, t).rest);
  }

  lemma {:induction false} EntryFollows(stack: List<Kind>, k: Kind, at: Place, t: Bytes, levels: nat)
    requires at == FirstPlace(k) || at == NextPlace(k)
    requires LevelsLeft(Cons(k, stack), levels) && Length(stack) < MAX_DEPTH
    requires Ends(Pda(Cons(k, stack), Gap(at, 0)), t)
    requires at == FirstPlace(k) ==> ReadWs(t).1 != [] && ReadWs(t).1[0] != Closer(k)
    ensures var r := ReadEntry(k, t, levels);
            && r.Ok? && StrictEntry(r.v, MAX_WS) && Length(stack) + 1 + EntryNesting(r.v) <= MAX_DEPTH
            && r.rest != [] && !IsWs(r.rest[0])
            && Feed(Pda(Cons(k, stack), Gap(at, 0)), t) == Feed(Pda(Cons(k, stack), Gap(After, Length(r.v.ws))), r.rest)
    decreases |t|, 1
  {
    hide Feed;
    hide Step;
    hide ReadPrefix;
    hide ReadValue;
    hide ReadWs;
    hide Strict;
    hide StrictPrefix;
    hide Nesting;
    var at', ws := PrefixFollows(stack, k, at, t);
    var t1 := ReadPrefix(k, t).rest;
    ValueFollows(Cons(k, stack), at', ws, t1, levels);
    WsFollows(Cons(k, stack), After, 0, ReadValue(t1, levels).rest);
    var e := ReadEntry(k, t, levels);
    OneMore(Pda(Cons(k, stack), Gap(After, Length(e.v.ws))), e.rest);
  }

  lemma {:induction false} EntriesFollow(stack: List<Kind>, k: Kind, at: Place, t: Bytes, levels: nat)
    requires at == FirstPlace(k) || at == NextPlace(k)
    requires LevelsLeft(Cons(k, stack), levels) && Length(stack) < MAX_DEPTH
    requires Ends(Pda(Cons(k, stack), Gap(at, 0)), t)
    requires at == FirstPlace(k) ==> ReadWs(t).1 != [] && ReadWs(t).1[0] != Closer(k)
    ensures var r := ReadEntries(k, t, levels);
            && r.Ok? && StrictEntries(r.v, MAX_WS) && Length(stack) + 1 + EntriesNesting(r.v) <= MAX_DEPTH
            && Feed(Pda(Cons(k, stack), Gap(at, 0)), t) == Feed(ValueDone(stack), r.rest)
    decreases |t|, 2
  {
    hide ReadEntry;
    hide StrictEntry;
    hide EntryNesting;
    EntryFollows(stack, k, at, t, levels);
    var e := ReadEntry(k, t, levels);
    OneMore(Pda(Cons(k, stack), Gap(After, Length(e.v.ws))), e.rest);
    if e.rest[0] == COMMA { EntriesFollow(stack, k, NextPlace(k), e.rest[1..], levels); }
  }

  lemma CompleteIsRead(t: Bytes)
    requires Ends(INITIAL, t)
    ensures ReadDoc(t).Some? && Derives(ReadDoc(t).value)
  {
    hide ReadEntries;
    hide PutValue;
    hide PutEntries;
    var (w, t1) := ReadWs(t);
    WsFollows(Nil, Start, 0, t);
    OneMore(Pda(Nil, Gap(Start, Length(w))), t1);
    ContainerFollows(Nil, Obj, t1[1..], MAX_LEVELS);
    var r := ReadValue(t1, MAX_LEVELS);
    assert r == ReadContainer(Obj, t1[1..], MAX_LEVELS);
    WsFollows(Nil, Done, 0, r.rest);
    var (w', t3) := ReadWs(r.rest);
    if t3 != [] { FeedFailed(t3[1..]); }
    ReadDocWrites(t);
  }

  // ---- The automaton, the grammar and the reader ----

  /** Complete on exactly the derivable objects, within the limits, whitespace around them included. */
  lemma CompleteIffDerived(t: Bytes)
    ensures Complete(Feed(INITIAL, t)) <==> exists d: Doc :: Derives(d) && PutDoc(d) == t
  {
    if Complete(Feed(INITIAL, t)) {
      CompleteIsRead(t);
      ReadDocWrites(t);
    }
    if d: Doc :| Derives(d) && PutDoc(d) == t {
      DerivedIsComplete(d);
    }
  }

  /**
   * The two readers of JSON agree: the automaton calls a text complete exactly
   * when the parser reads it, as an object within the automaton's limits.
   */
  lemma CompleteIffReadWithinLimits(t: Bytes)
    ensures Complete(Feed(INITIAL, t)) <==> ReadDoc(t).Some? && Derives(ReadDoc(t).value)
  {
    if Complete(Feed(INITIAL, t)) { CompleteIsRead(t); }
    if ReadDoc(t).Some? && Derives(ReadDoc(t).value) {
      ReadDocWrites(t);
      DerivedIsComplete(ReadDoc(t).value);
    }
  }

  // ---- No dead end ----

  function Owed(s: StrMode): nat { if s.HexOwed? || s.Utf8Owed? then s.left else 0 }

  /** Bytes that finish the token being read. */
  function FinishToken(mode: Mode): Bytes
    decreases if mode.InString? then Owed(mode.s) else 0
  {
    match mode
    case InString(key, s) =>
      (match s
       case Normal => [QUOTE]
       case Escape => [QUOTE, QUOTE]
       case HexOwed(left) => if left <= 1 then [ZERO, QUOTE] else [ZERO] + FinishToken(InString(key, HexOwed(left - 1)))
       case Utf8Owed(left, lo, hi) => if left <= 1 then [lo, QUOTE]
           else [lo] + FinishToken(InString(key, Utf8Owed(left - 1, 0x80, 0xBF))))
    case InNumber(n) => if NumberComplete(n) then [] else [ZERO]
    case InWord(left) => Put(left, [])
    case Gap(_, _) => []
  }

  /** Bytes that take the place after the token to the end of a value. */
  function FinishValue(at: Place): Bytes {
    match at
    case Start => [OPEN_BRACE, CLOSE_BRACE]
    case ObjOpen => []
    case ObjKey => [QUOTE, QUOTE, COLON, ZERO]
    case Colon => [COLON, ZERO]
    case Val => [ZERO]
    case ArrOpen => []
    case After => []
    case Done => []
  }

  function Closers(stack: List<Kind>): Bytes {
    match stack
    case Nil => []
    case Cons(k, tail) => [Closer(k)] + Closers(tail)
  }

  /** A byte string that completes the object from any state short of failure. */
  function Finish(p: Pda): Bytes
    requires p.Pda?
  {
    var place := match p.mode
                 case Gap(at, _) => at
                 case InString(true, _) => Colon
                 case _ => After;
    FinishToken(p.mode) + FinishValue(place) + Closers(p.stack)
  }

  lemma {:induction false} ClosersEnd(stack: List<Kind>, p: Pda)
    requires stack.Cons? ==> Step(p, Closer(stack.head)) == ValueDone(stack.tail)
    requires stack.Nil? ==> Complete(p)
    ensures Ends(p, Closers(stack))
    decreases stack
  {
    if stack.Cons? { ClosersEnd(stack.tail, ValueDone(stack.tail)); }
  }

  lemma PlaceEnds(stack: List<Kind>, at: Place, ws: nat)
    requires PdaOk(Pda(stack, Gap(at, ws)))
    ensures Ends(Pda(stack, Gap(at, ws)), FinishValue(at) + Closers(stack))
  {
    var p := Pda(stack, Gap(at, ws));
    var f, c := FinishValue(at), Closers(stack);
    FeedConcat(p, f, c);
    match at
    case Start => assert Feed(p, f) == Feed(Step(Step(p, OPEN_BRACE), CLOSE_BRACE), f[1..][1..]);
    case ObjKey =>
      assert Feed(p, f) == Feed(Pda(stack, InString(true, Normal)), f[1..]);
      assert Feed(p, f) == Feed(Pda(stack, Gap(Colon, 0)), f[1..][1..]);
      assert Feed(p, f) == Feed(Pda(stack, Gap(Val, 0)), f[1..][1..][1..]);
      assert Feed(p, f) == Feed(Pda(stack, InNumber(NZero)), f[1..][1..][1..][1..]);
      ClosersEnd(stack, Pda(stack, InNumber(NZero)));
    case Colon =>
      assert Feed(p, f) == Feed(Pda(stack, Gap(Val, 0)), f[1..]);
      assert Feed(p, f) == Feed(Pda(stack, InNumber(NZero)), f[1..][1..]);
      ClosersEnd(stack, Pda(stack, InNumber(NZero)));
    case Val =>
      assert Feed(p, f) == Feed(Pda(stack, InNumber(NZero)), f[1..]);
      ClosersEnd(stack, Pda(stack, InNumber(NZero)));
    case _ => ClosersEnd(stack, p);
  }

  lemma {:induction false} StringFinishes(stack: List<Kind>, key: bool, s: StrMode)
    requires PdaOk(Pda(stack, InString(key, s)))
    ensures Feed(Pda(stack, InString(key, s)), FinishToken(InString(key, s))) == AfterString(stack, key)
    decreases Owed(s)
  {
    var p := Pda(stack, InString(key, s));
    var f := FinishToken(InString(key, s));
    assert Feed(p, f) == Feed(Step(p, f[0]), f[1..]);
    match s
    case Normal =>
    case Escape => assert Feed(p, f) == Feed(Step(Step(p, f[0]), f[1]), f[1..][1..]);
    case HexOwed(left) =>
      if left <= 1 {
        assert Feed(p, f) == Feed(Step(Step(p, f[0]), f[1]), f[1..][1..]);
      } else {
        StringFinishes(stack, key, HexOwed(left - 1));
      }
    case Utf8Owed(left, lo, hi) =>
      if left <= 1 {
        assert Feed(p, f) == Feed(Step(Step(p, f[0]), f[1]), f[1..][1..]);
      } else {
        StringFinishes(stack, key, Utf8Owed(left - 1, 0x80, 0xBF));
      }
  }

  lemma StringEnds(stack: List<Kind>, key: bool, s: StrMode)
    requires PdaOk(Pda(stack, InString(key, s)))
    ensures Ends(Pda(stack, InString(key, s)), Finish(Pda(stack, InString(key, s))))
  {
    hide Feed;
    var p := Pda(stack, InString(key, s));
    var f := FinishToken(p.mode);
    var place := if key then Colon else After;
    var after := FinishValue(place) + Closers(stack);
    assert Finish(p) == f + after;
    FeedConcat(p, f, after);
    StringFinishes(stack, key, s);
    PlaceEnds(stack, place, 0);
  }

  lemma NumberEndsHere(stack: List<Kind>, n: NumMode)
    requires PdaOk(Pda(stack, InNumber(n)))
    ensures Ends(Pda(stack, InNumber(n)), Finish(Pda(stack, InNumber(n))))
  {
    var p := Pda(stack, InNumber(n));
    var f := FinishToken(p.mode);
    assert Finish(p) == f + Closers(stack);
    FeedConcat(p, f, Closers(stack));
    ClosersEnd(stack, Feed(p, f));
  }

  lemma WordEnds(stack: List<Kind>, left: List<Byte>)
    requires PdaOk(Pda(stack, InWord(left)))
    ensures Ends(Pda(stack, InWord(left)), Finish(Pda(stack, InWord(left))))
  {
    hide Step;
    var p := Pda(stack, InWord(left));
    var f := FinishToken(p.mode);
    assert Finish(p) == f + Closers(stack);
    FeedConcat(p, f, Closers(stack));
    AcceptWordRest(stack, left, []);
    ValueDoneEnds(stack);
  }

  lemma ValueDoneEnds(stack: List<Kind>)
    ensures Ends(ValueDone(stack), Closers(stack))
  {
    ClosersEnd(stack, ValueDone(stack));
  }

  lemma NoDeadEnd(p: Pda)
    requires PdaOk(p) && p.Pda?
    ensures Ends(p, Finish(p))
  {
    hide Feed;
    hide PdaOk;
    match p.mode
    case Gap(at, ws) =>
      assert Finish(p) == FinishValue(at) + Closers(p.stack);
      PlaceEnds(p.stack, at, ws);
    case InString(key, s) => StringEnds(p.stack, key, s);
    case InNumber(n) => NumberEndsHere(p.stack, n);
    case InWord(left) => WordEnds(p.stack, left);
  }

  /** Not failed on exactly the prefixes of derivable objects. */
  lemma AcceptedIffViable(t: Bytes)
    ensures Feed(INITIAL, t) != Failed <==> exists e: Bytes, d: Doc :: Derives(d) && PutDoc(d) == t + e
  {
    var p := Feed(INITIAL, t);
    if p != Failed {
      FeedKeepsOk(INITIAL, t);
      NoDeadEnd(p);
      FeedConcat(INITIAL, t, Finish(p));
      CompleteIffDerived(t + Finish(p));
    }
    if e: Bytes, d: Doc :| Derives(d) && PutDoc(d) == t + e {
      DerivedIsComplete(d);
      FeedConcat(INITIAL, t, e);
      FeedFailed(e);
    }
  }
}
