/**
 * The automaton as the engine keeps it: a small struct updated in place a
 * byte at a time, with stale bytes in it wherever the state makes them
 * meaningless. Abstract says what a struct's fields mean.
 */
module JsonPrefixStruct {
  import opened Basics
  import opened JsonGrammar
  import opened JsonPrefix
  import opened JsonAccepts
  import opened JsonAgrees

  datatype State =
    | SStart | SObjOpen | SObjKey | SColon | SValue | SArrOpen | SAfter | SString | SNumber | SLiteral | SDone

  // sub within a number
  const N_MINUS: Byte := 0
  const N_ZERO: Byte := 1
  const N_INT: Byte := 2
  const N_DOT: Byte := 3
  const N_FRAC: Byte := 4
  const N_EXP: Byte := 5
  const N_EXP_SIGN: Byte := 6
  const N_EXP_DIGITS: Byte := 7

  // sub within a string
  const STR_NORMAL: Byte := 0
  const STR_ESCAPE: Byte := 1
  const STR_U1: Byte := 2
  const STR_U4: Byte := 5

  const KIND_OBJECT: Byte := 0x4F
  const KIND_ARRAY: Byte := 0x41

  /** The struct's fields, as a copy of it holds them. */
  datatype Fields = Fields(stack: seq<Byte>, depth: Byte, state: State, sub: Byte, lit: Byte, utf8Left: Byte,
                           utf8Lo: Byte, utf8Hi: Byte, ws: Byte, inKey: bool, done: bool, failed: bool)

  function KindOf(b: Byte): Kind { if b == KIND_OBJECT then Obj else Arr }

  /** The open containers, innermost first: the stack's slots below depth, and no other. */
  function AbsStack(stack: seq<Byte>, depth: nat): List<Kind>
    requires depth <= |stack|
  {
    if depth == 0 then Nil else Cons(KindOf(stack[depth - 1]), AbsStack(stack, depth - 1))
  }

  function AbsNumber(sub: Byte): NumMode {
    if sub == N_MINUS then NMinus else if sub == N_ZERO then NZero else if sub == N_INT then NInt
    else if sub == N_DOT then NDot else if sub == N_FRAC then NFrac else if sub == N_EXP then NExp
    else if sub == N_EXP_SIGN then NExpSign else NExpDigits
  }

  function AbsString(f: Fields): StrMode {
    if f.utf8Left > 0 then Utf8Owed(f.utf8Left, f.utf8Lo, f.utf8Hi)
    else if f.sub == STR_ESCAPE then Escape
    else if STR_U1 <= f.sub <= STR_U4 then HexOwed(STR_U4 + 1 - f.sub)
    else Normal
  }

  function WordOf(lit: Byte): Word {
    if lit == WordText(True).head then True else if lit == WordText(False).head then False else Null
  }

  function Drop(l: List<Byte>, n: nat): List<Byte> {
    if n == 0 || l.Nil? then l else Drop(l.tail, n - 1)
  }

  lemma {:induction false} DropNext(l: List<Byte>, n: nat)
    requires Drop(l, n).Cons?
    ensures Drop(l, n + 1) == Drop(l, n).tail
    decreases n
  {
    if n > 0 { DropNext(l.tail, n - 1); }
  }

  function AbsMode(f: Fields): Mode {
    match f.state
    case SString => InString(f.inKey, AbsString(f))
    case SNumber => InNumber(AbsNumber(f.sub))
    case SLiteral => InWord(Drop(WordText(WordOf(f.lit)), f.sub))
    case SStart => Gap(Start, f.ws)
    case SObjOpen => Gap(ObjOpen, f.ws)
    case SObjKey => Gap(ObjKey, f.ws)
    case SColon => Gap(Colon, f.ws)
    case SValue => Gap(Val, f.ws)
    case SArrOpen => Gap(ArrOpen, f.ws)
    case SAfter => Gap(After, f.ws)
    case SDone => Gap(Done, f.ws)
  }

  function Abstract(f: Fields): Pda
    requires f.depth <= |f.stack|
  {
    if f.failed then Failed else Pda(AbsStack(f.stack, f.depth), AbsMode(f))
  }

  ghost predicate Valid(f: Fields) {
    && |f.stack| == MAX_DEPTH && f.depth <= MAX_DEPTH
    && (forall i :: 0 <= i < f.depth ==> f.stack[i] == KIND_OBJECT || f.stack[i] == KIND_ARRAY)
    && (!f.failed ==>
          && PdaOk(Abstract(f))
          && (f.done <==> f.state.SDone?)
          && (!f.state.SString? ==> f.utf8Left == 0)
          && (f.state.SString? || f.state.SNumber? || f.state.SLiteral? ==> f.ws == 0)
          && (f.state.SString? && f.utf8Left > 0 ==> f.sub == STR_NORMAL)
          && (f.state.SString? ==> f.sub <= STR_U4)
          && (f.state.SNumber? ==> f.sub <= N_EXP_DIGITS)
          && (f.state.SLiteral? ==> f.sub <= 4))
  }

  lemma {:induction false} AbsStackPrefix(a: seq<Byte>, b: seq<Byte>, depth: nat)
    requires depth <= |a| && depth <= |b| && a[..depth] == b[..depth]
    ensures AbsStack(a, depth) == AbsStack(b, depth)
    decreases depth
  {
    if depth > 0 {
      assert a[depth - 1] == a[..depth][depth - 1] == b[depth - 1];
      assert a[..depth - 1] == a[..depth][..depth - 1] == b[..depth - 1];
      AbsStackPrefix(a, b, depth - 1);
    }
  }

  lemma {:induction false} AbsStackLength(stack: seq<Byte>, depth: nat)
    requires depth <= |stack|
    ensures Length(AbsStack(stack, depth)) == depth
    decreases depth
  {
    if depth > 0 { AbsStackLength(stack, depth - 1); }
  }

  class Jsonpfx {
    var stack: seq<Byte>
    var depth: Byte
    var state: State
    var sub: Byte
    var lit: Byte
    var utf8Left: Byte
    var utf8Lo: Byte
    var utf8Hi: Byte
    var ws: Byte
    var inKey: bool
    var done: bool
    var failed: bool

    function Now(): Fields
      reads this
    {
      Fields(stack, depth, state, sub, lit, utf8Left, utf8Lo, utf8Hi, ws, inKey, done, failed)
    }

    ghost predicate Ok()
      reads this
    {
      Valid(Now())
    }

    ghost function Abs(): Pda
      requires Ok()
      reads this
    {
      Abstract(Now())
    }

    constructor Init()
      ensures Ok() && Abs() == INITIAL
    {
      stack := seq(MAX_DEPTH, _ => 0);
      depth, sub, lit, utf8Left, ws := 0, 0, 0, 0, 0;
      state := SStart;
      utf8Lo, utf8Hi := 0x80, 0xBF;
      inKey, done, failed := false, false, false;
    }

    /** A copy to try a candidate on. */
    constructor Copy(f: Fields)
      ensures Now() == f
    {
      stack, depth, state, sub, lit := f.stack, f.depth, f.state, f.sub, f.lit;
      utf8Left, utf8Lo, utf8Hi, ws := f.utf8Left, f.utf8Lo, f.utf8Hi, f.ws;
      inKey, done, failed := f.inKey, f.done, f.failed;
    }

    method Fail() returns (ok: bool)
      modifies `failed
      ensures !ok && failed
    {
      failed := true;
      ok := false;
    }

    /**
     * A struct that has not failed, in no token, with no whitespace counted: where the second half
     * of FeedByte works.
     */
    ghost predicate Clear()
      reads this
    {
      |stack| == MAX_DEPTH && depth <= MAX_DEPTH && !failed && ws == 0
      && (forall i :: 0 <= i < depth ==> stack[i] == KIND_OBJECT || stack[i] == KIND_ARRAY)
    }

    method ValueDoneHere()
      requires Clear() && utf8Left == 0 && !done
      modifies `state, `done
      ensures Ok() && Abs() == ValueDone(AbsStack(stack, depth))
    {
      AbsStackLength(stack, depth);
      if depth == 0 {
        done := true;
        state := SDone;
      } else {
        state := SAfter;
      }
    }

    method PushHere(kind: Byte, next: State) returns (ok: bool)
      requires Clear() && !done && utf8Left == 0
      requires (kind == KIND_OBJECT && next == SObjOpen) || (kind == KIND_ARRAY && next == SArrOpen)
      modifies `stack, `depth, `state, `failed
      ensures Ok() && Abs() == Push(old(AbsStack(stack, depth)), KindOf(kind)) && ok == !failed
    {
      AbsStackLength(stack, depth);
      if depth >= MAX_DEPTH {
        ok := Fail();
        return;
      }
      var s := stack;
      stack := stack[depth := kind];
      AbsStackPrefix(stack, s, depth);
      depth := depth + 1;
      state := next;
      ok := true;
    }

    method CloseContainer() returns (ok: bool)
      requires Clear() && !done && utf8Left == 0 && depth > 0
      modifies `depth, `state, `done
      ensures Ok() && Abs() == ValueDone(old(AbsStack(stack, depth)).tail) && ok
    {
      depth := depth - 1;
      ValueDoneHere();
      ok := true;
    }

    method StartString(key: bool) returns (ok: bool)
      requires Clear() && !done && utf8Left == 0 && depth > 0
      requires key ==> KindOf(stack[depth - 1]) == Obj
      modifies `inKey, `state, `sub
      ensures Ok() && Abs() == Pda(old(AbsStack(stack, depth)), InString(key, Normal)) && ok
    {
      AbsStackLength(stack, depth);
      inKey := key;
      state := SString;
      sub := STR_NORMAL;
      ok := true;
    }

    method StartValueHere(c: Byte) returns (ok: bool)
      requires Clear() && !done && utf8Left == 0 && depth > 0
      modifies this
      ensures Ok() && Abs() == StartValue(old(AbsStack(stack, depth)), c) && ok == !failed
    {
      hide Drop;
      hide WordLeft;
      hide AbsString;
      hide Push;
      if c == OPEN_BRACE {
        ok := PushHere(KIND_OBJECT, SObjOpen);
      } else if c == OPEN_BRACKET {
        ok := PushHere(KIND_ARRAY, SArrOpen);
      } else if c == QUOTE {
        ok := StartString(false);
      } else if c == MINUS {
        ok := StartNumber(N_MINUS);
      } else if c == ZERO {
        ok := StartNumber(N_ZERO);
      } else if c == 0x74 || c == 0x66 || c == 0x6E {
        ok := StartLiteral(c);
      } else if 0x31 <= c <= 0x39 {
        ok := StartNumber(N_INT);
      } else {
        ok := Fail();
      }
    }

    method StartNumber(form: Byte) returns (ok: bool)
      requires Clear() && !done && utf8Left == 0 && depth > 0
      requires form == N_MINUS || form == N_ZERO || form == N_INT
      modifies `state, `sub
      ensures Ok() && Abs() == Pda(old(AbsStack(stack, depth)), InNumber(AbsNumber(form))) && ok
    {
      AbsStackLength(stack, depth);
      state, sub, ok := SNumber, form, true;
    }

    method StartLiteral(c: Byte) returns (ok: bool)
      requires Clear() && !done && utf8Left == 0 && depth > 0
      requires c == 0x74 || c == 0x66 || c == 0x6E
      modifies `state, `lit, `sub
      ensures Ok() && Abs() == Pda(old(AbsStack(stack, depth)), InWord(WordText(WordOf(c)).tail)) && ok
    {
      AbsStackLength(stack, depth);
      state, lit, sub, ok := SLiteral, c, 1, true;
      assert Drop(WordText(WordOf(lit)), sub) == Drop(WordText(WordOf(lit)).tail, 0);
    }

    method NumberContinue(c: Byte) returns (more: bool)
      requires Ok() && !failed && state == SNumber
      modifies `sub
      ensures Ok() && more == NumberNext(old(AbsNumber(sub)), c).Some?
      ensures more ==> Abs() == old(Pda(AbsStack(stack, depth), InNumber(NumberNext(AbsNumber(sub), c).value)))
      ensures !more ==> sub == old(sub)
    {
      more := true;
      if sub == N_MINUS {
        if c == ZERO { sub := N_ZERO; } else if 0x31 <= c <= 0x39 { sub := N_INT; } else { more := false; }
      } else if sub == N_ZERO {
        if c == DOT { sub := N_DOT; } else if IsE(c) { sub := N_EXP; } else { more := false; }
      } else if sub == N_INT {
        if IsDigit(c) { } else if c == DOT { sub := N_DOT; } else if IsE(c) { sub := N_EXP; } else { more := false; }
      } else if sub == N_DOT {
        if IsDigit(c) { sub := N_FRAC; } else { more := false; }
      } else if sub == N_FRAC {
        if IsDigit(c) { } else if IsE(c) { sub := N_EXP; } else { more := false; }
      } else if sub == N_EXP {
        if IsSign(c) { sub := N_EXP_SIGN; } else if IsDigit(c) { sub := N_EXP_DIGITS; } else { more := false; }
      } else if sub == N_EXP_SIGN {
        if IsDigit(c) { sub := N_EXP_DIGITS; } else { more := false; }
      } else {
        more := IsDigit(c);
      }
    }

    /** What the string methods share: reading c inside a string. */
    ghost predicate InsideString()
      reads this
    {
      Ok() && !failed && state == SString
    }

    method Utf8Byte(c: Byte) returns (ok: bool)
      requires InsideString() && utf8Left > 0
      modifies this
      ensures Ok() && Abs() == old(StepString(AbsStack(stack, depth), inKey, AbsString(Now()), c)) && ok == !failed
    {
      if c < utf8Lo || c > utf8Hi {
        ok := Fail();
        return;
      }
      utf8Left := utf8Left - 1;
      utf8Lo := 0x80;
      utf8Hi := 0xBF;
      ok := true;
    }

    method EscapeByte(c: Byte) returns (ok: bool)
      requires InsideString() && utf8Left == 0 && sub != STR_NORMAL
      modifies this
      ensures Ok() && Abs() == old(StepString(AbsStack(stack, depth), inKey, AbsString(Now()), c)) && ok == !failed
    {
      ok := true;
      if sub == STR_ESCAPE {
        if c == LETTER_U {
          sub := STR_U1;
        } else if IsShort(c) {
          sub := STR_NORMAL;
        } else {
          ok := Fail();
        }
      } else if !IsHex(c) {
        ok := Fail();
      } else {
        sub := if sub == STR_U4 then STR_NORMAL else sub + 1;
      }
    }

    /** A UTF-8 lead byte: how many bytes it owes, and the range of the first of them. */
    method LeadByte(c: Byte) returns (ok: bool)
      requires InsideString() && utf8Left == 0 && sub == STR_NORMAL && c >= 0x80
      modifies this
      ensures Ok() && Abs() == old(StepString(AbsStack(stack, depth), inKey, AbsString(Now()), c)) && ok == !failed
    {
      hide AbsStack;
      hide Drop;
      hide WordText;
      hide WordLeft;
      var left: Byte, lo: Byte, hi: Byte := 0, 0x80, 0xBF;
      if 0xC2 <= c <= 0xDF {
        left := 1;
      } else if c == 0xE0 {
        left, lo := 2, 0xA0;
      } else if 0xE1 <= c <= 0xEC || c == 0xEE || c == 0xEF {
        left := 2;
      } else if c == 0xED {
        left, hi := 2, 0x9F;
      } else if c == 0xF0 {
        left, lo := 3, 0x90;
      } else if 0xF1 <= c <= 0xF3 {
        left := 3;
      } else if c == 0xF4 {
        left, hi := 3, 0x8F;
      }
      assert LeadOwes(c) == if left == 0 then None else Some(Utf8Owed(left, lo, hi));
      hide LeadOwes;
      utf8Left, utf8Lo, utf8Hi := left, lo, hi;
      ok := true;
      if left == 0 { ok := Fail(); }
    }

    method StringByte(c: Byte) returns (ok: bool)
      requires InsideString()
      modifies this
      ensures Ok() && Abs() == old(StepString(AbsStack(stack, depth), inKey, AbsString(Now()), c)) && ok == !failed
    {
      if utf8Left > 0 {
        ok := Utf8Byte(c);
      } else if sub != STR_NORMAL {
        ok := EscapeByte(c);
      } else if c == QUOTE {
        ok := true;
        if inKey { state := SColon; } else { ValueDoneHere(); }
      } else if c == BACKSLASH {
        ok := true;
        sub := STR_ESCAPE;
      } else if c < 0x20 {
        ok := Fail();
      } else if c < 0x80 {
        ok := true;
      } else {
        ok := LeadByte(c);
      }
    }

    method LiteralByte(c: Byte) returns (ok: bool)
      requires Ok() && !failed && state == SLiteral
      modifies this
      ensures Ok() && Abs() == old(Step(Abs(), c)) && ok == !failed
    {
      var left := Drop(WordText(WordOf(lit)), sub);
      DropNext(WordText(WordOf(lit)), sub);
      if c != left.head {
        ok := Fail();
        return;
      }
      sub := sub + 1;
      if Drop(WordText(WordOf(lit)), sub).Nil? { ValueDoneHere(); }
      ok := true;
    }

    method AfterByte(c: Byte) returns (ok: bool)
      requires Ok() && !failed && state == SAfter && ws == 0 && !IsWs(c)
      modifies this
      ensures Ok() && Abs() == old(StepGap(AbsStack(stack, depth), After, 0, c)) && ok == !failed
    {
      hide Drop;
      hide WordText;
      hide WordLeft;
      hide AbsString;
      AbsStackLength(stack, depth);
      var top := stack[depth - 1];
      if c == COMMA {
        state := if top == KIND_OBJECT then SObjKey else SValue;
        ok := true;
      } else if (c == CLOSE_BRACE && top == KIND_OBJECT) || (c == CLOSE_BRACKET && top == KIND_ARRAY) {
        ok := CloseContainer();
      } else {
        ok := Fail();
      }
    }

    method ObjectByte(c: Byte) returns (ok: bool)
      requires Ok() && !failed && (state == SObjOpen || state == SObjKey) && ws == 0 && !IsWs(c)
      modifies this
      ensures Ok() && Abs() == old(StepGap(AbsStack(stack, depth), AbsMode(Now()).at, 0, c)) && ok == !failed
    {
      AbsStackLength(stack, depth);
      if state == SObjOpen && c == CLOSE_BRACE {
        ok := CloseContainer();
      } else if c == QUOTE {
        ok := StartString(true);
      } else {
        ok := Fail();
      }
    }

    method GapByte(c: Byte) returns (ok: bool)
      requires Ok() && !failed && AbsMode(Now()).Gap?
      modifies this
      ensures Ok() && Abs() == old(StepGap(AbsStack(stack, depth), AbsMode(Now()).at, ws, c)) && ok == !failed
    {
      if IsWs(c) {
        ws := ws + 1;
        if ws > MAX_WS { ok := Fail(); } else { ok := true; }
        return;
      }
      ws := 0;
      ok := TokenByte(c);
    }

    /** A byte outside any token that is not whitespace. */
    method TokenByte(c: Byte) returns (ok: bool)
      requires Ok() && !failed && AbsMode(Now()).Gap? && ws == 0 && !IsWs(c)
      modifies this
      ensures Ok() && Abs() == old(StepGap(AbsStack(stack, depth), AbsMode(Now()).at, 0, c)) && ok == !failed
    {
      hide StartValue;
      hide Push;
      hide ValueDone;
      AbsStackLength(stack, depth);
      ok := false;
      match state
      case SStart => if c == OPEN_BRACE { ok := PushHere(KIND_OBJECT, SObjOpen); } else { ok := Fail(); }
      case SObjOpen => ok := ObjectByte(c);
      case SObjKey => ok := ObjectByte(c);
      case SColon => if c == COLON { state, ok := SValue, true; } else { ok := Fail(); }
      case SValue => ok := StartValueHere(c);
      case SArrOpen => if c == CLOSE_BRACKET { ok := CloseContainer(); } else { ok := StartValueHere(c); }
      case SAfter => ok := AfterByte(c);
      case SDone => ok := Fail();
      case SString | SNumber | SLiteral => assert false;
    }

    method FeedByte(c: Byte) returns (ok: bool)
      requires Ok()
      modifies this
      ensures Ok() && Abs() == old(Step(Abs(), c)) && ok == !failed
      decreases !failed && state == SNumber
    {
      if failed { return false; }
      match state
      case SString => ok := StringByte(c);
      case SNumber =>
        var more := NumberContinue(c);
        if more { return true; }
        if !NumberComplete(AbsNumber(sub)) {
          ok := Fail();
          return;
        }
        ValueDoneHere();
        ok := FeedByte(c);
      case SLiteral => ok := LiteralByte(c);
      case _ => ok := GapByte(c);
    }

    method FeedBytes(bytes: Bytes) returns (ok: bool)
      requires Ok()
      modifies this
      ensures Ok() && Abs() == Feed(old(Abs()), bytes) && ok == !failed
    {
      for i := 0 to |bytes|
        invariant Ok() && Feed(old(Abs()), bytes) == Feed(Abs(), bytes[i..])
      {
        ok := FeedByte(bytes[i]);
        assert bytes[i..][1..] == bytes[i + 1..];
        if !ok {
          FeedFailed(bytes[i + 1..]);
          return;
        }
      }
      ok := !failed;
    }

    /** Whether feeding these bytes would keep it valid; a copy is fed, not this. */
    method Accepts(bytes: Bytes) returns (ok: bool)
      requires Ok()
      ensures ok <==> Feed(Abs(), bytes) != Failed
    {
      var copy := new Jsonpfx.Copy(Now());
      ok := copy.FeedBytes(bytes);
    }

    /** The bytes that could come next. */
    method NextBytes() returns (allowed: seq<bool>)
      requires Ok()
      ensures |allowed| == 256 && forall b: Byte :: allowed[b] <==> Step(Abs(), b) != Failed
    {
      allowed := [];
      for b := 0 to 256
        invariant |allowed| == b && forall c :: 0 <= c < b ==> (allowed[c] <==> Step(Abs(), c) != Failed)
      {
        var copy := new Jsonpfx.Copy(Now());
        var ok := copy.FeedByte(b);
        allowed := allowed + [ok];
      }
    }

    method IsComplete() returns (complete: bool)
      requires Ok()
      ensures complete <==> Complete(Abs())
    {
      complete := done && !failed;
    }
  }

  /** The automaton over a whole text: whether it starts a JSON object, and whether it is one. */
  method Judge(t: Bytes) returns (starts: bool, whole: bool)
    ensures starts <==> exists e: Bytes, d: Doc :: Derives(d) && PutDoc(d) == t + e
    ensures whole <==> exists d: Doc :: Derives(d) && PutDoc(d) == t
  {
    var p := new Jsonpfx.Init();
    starts := p.FeedBytes(t);
    whole := p.IsComplete();
    AcceptedIffViable(t);
    CompleteIffDerived(t);
  }

  // ---- The state as a key ----

  /** The struct with the stack's slots past its depth cleared. */
  function ClearedKey(f: Fields): Fields
    requires f.depth <= |f.stack|
  {
    f.(stack := f.stack[..f.depth] + seq(|f.stack| - f.depth, _ => 0))
  }

  lemma ClearedKeyMeansTheSame(f: Fields)
    requires Valid(f)
    ensures Valid(ClearedKey(f)) && Abstract(ClearedKey(f)) == Abstract(f)
  {
    var g := ClearedKey(f);
    assert f.stack[..f.depth] == g.stack[..f.depth];
    AbsStackPrefix(f.stack, g.stack, f.depth);
  }

  /** Two states with one key accept the same bytes, whatever follows: what a pop leaves behind means nothing. */
  lemma SameKeySameLanguage(a: Fields, b: Fields, t: Bytes)
    requires Valid(a) && Valid(b) && ClearedKey(a) == ClearedKey(b)
    ensures Abstract(a) == Abstract(b)
    ensures Feed(Abstract(a), t) == Feed(Abstract(b), t)
  {
    ClearedKeyMeansTheSame(a);
    ClearedKeyMeansTheSame(b);
  }
}
