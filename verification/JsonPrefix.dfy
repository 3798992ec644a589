/**
 * The automaton that answers whether bytes so far start a JSON object, as a
 * pushdown automaton (Pda, Step, Feed). JsonPrefixStruct has the struct the
 * engine keeps, whose methods are proved to follow it.
 */
module JsonPrefix {
  import opened Basics
  import opened JsonGrammar

  const MAX_DEPTH: nat := 64
  const MAX_WS: nat := 16

  datatype NumMode = NMinus | NZero | NInt | NDot | NFrac | NExp | NExpSign | NExpDigits

  /** Inside a string: after a backslash, with hex digits owed, or with UTF-8 continuation bytes owed. */
  datatype StrMode = Normal | Escape | HexOwed(left: nat) | Utf8Owed(left: nat, lo: Byte, hi: Byte)

  datatype Place = Start | ObjOpen | ObjKey | Colon | Val | ArrOpen | After | Done

  datatype Mode =
    | Gap(at: Place, ws: nat)
    | InString(key: bool, s: StrMode)
    | InNumber(n: NumMode)
    | InWord(left: List<Byte>)

  /** The open containers, innermost first, and what may come next. */
  datatype Pda = Pda(stack: List<Kind>, mode: Mode) | Failed

  const INITIAL := Pda(Nil, Gap(Start, 0))

  predicate Complete(p: Pda) { p.Pda? && p.mode.Gap? && p.mode.at.Done? }

  function ValueDone(stack: List<Kind>): Pda {
    Pda(stack, Gap(if stack.Nil? then Done else After, 0))
  }

  function Push(stack: List<Kind>, k: Kind): Pda {
    if Length(stack) >= MAX_DEPTH then Failed
    else Pda(Cons(k, stack), Gap(if k.Obj? then ObjOpen else ArrOpen, 0))
  }

  function StartValue(stack: List<Kind>, c: Byte): Pda {
    if c == OPEN_BRACE then Push(stack, Obj)
    else if c == OPEN_BRACKET then Push(stack, Arr)
    else if c == QUOTE then Pda(stack, InString(false, Normal))
    else if c == MINUS then Pda(stack, InNumber(NMinus))
    else if c == ZERO then Pda(stack, InNumber(NZero))
    else if IsDigit(c) then Pda(stack, InNumber(NInt))
    else if c == WordText(True).head then Pda(stack, InWord(WordText(True).tail))
    else if c == WordText(False).head then Pda(stack, InWord(WordText(False).tail))
    else if c == WordText(Null).head then Pda(stack, InWord(WordText(Null).tail))
    else Failed
  }

  function NumberNext(n: NumMode, c: Byte): Option<NumMode> {
    match n
    case NMinus => if c == ZERO then Some(NZero) else if IsDigit(c) then Some(NInt) else None
    case NZero => if c == DOT then Some(NDot) else if IsE(c) then Some(NExp) else None
    case NInt => if IsDigit(c) then Some(NInt) else if c == DOT then Some(NDot) else if IsE(c) then Some(NExp) else None
    case NDot => if IsDigit(c) then Some(NFrac) else None
    case NFrac => if IsDigit(c) then Some(NFrac) else if IsE(c) then Some(NExp) else None
    case NExp => if IsSign(c) then Some(NExpSign) else if IsDigit(c) then Some(NExpDigits) else None
    case NExpSign => if IsDigit(c) then Some(NExpDigits) else None
    case NExpDigits => if IsDigit(c) then Some(NExpDigits) else None
  }

  predicate NumberComplete(n: NumMode) { n.NZero? || n.NInt? || n.NFrac? || n.NExpDigits? }

  /** What a UTF-8 lead byte owes: how many bytes, and the range of the first. */
  function LeadOwes(c: Byte): Option<StrMode> {
    if 0xC2 <= c <= 0xDF then Some(Utf8Owed(1, 0x80, 0xBF))
    else if c == 0xE0 then Some(Utf8Owed(2, 0xA0, 0xBF))
    else if c == 0xED then Some(Utf8Owed(2, 0x80, 0x9F))
    else if 0xE1 <= c <= 0xEF then Some(Utf8Owed(2, 0x80, 0xBF))
    else if c == 0xF0 then Some(Utf8Owed(3, 0x90, 0xBF))
    else if 0xF1 <= c <= 0xF3 then Some(Utf8Owed(3, 0x80, 0xBF))
    else if c == 0xF4 then Some(Utf8Owed(3, 0x80, 0x8F))
    else None
  }

  /** The mode after one more byte of a string that c does not close. */
  function StringNext(s: StrMode, c: Byte): Option<StrMode> {
    match s
    case Normal =>
      if c == BACKSLASH then Some(Escape)
      else if c < 0x20 then None
      else if c < 0x80 then Some(Normal)
      else LeadOwes(c)
    case Escape => if c == LETTER_U then Some(HexOwed(4)) else if IsShort(c) then Some(Normal) else None
    case HexOwed(left) => if !IsHex(c) then None else if left <= 1 then Some(Normal) else Some(HexOwed(left - 1))
    case Utf8Owed(left, lo, hi) =>
      if c < lo || c > hi then None else if left <= 1 then Some(Normal) else Some(Utf8Owed(left - 1, 0x80, 0xBF))
  }

  function StepString(stack: List<Kind>, key: bool, s: StrMode, c: Byte): Pda {
    if s.Normal? && c == QUOTE then
      if key then Pda(stack, Gap(Colon, 0)) else ValueDone(stack)
    else
      match StringNext(s, c)
      case None => Failed
      case Some(s') => Pda(stack, InString(key, s'))
  }

  function StepGap(stack: List<Kind>, at: Place, ws: nat, c: Byte): Pda {
    if IsWs(c) then
      if ws + 1 > MAX_WS then Failed else Pda(stack, Gap(at, ws + 1))
    else
      match at
      case Start => if c == OPEN_BRACE then Push(stack, Obj) else Failed
      case ObjOpen =>
        if c == CLOSE_BRACE && stack.Cons? then ValueDone(stack.tail)
        else if c == QUOTE then Pda(stack, InString(true, Normal))
        else Failed
      case ObjKey => if c == QUOTE then Pda(stack, InString(true, Normal)) else Failed
      case Colon => if c == COLON then Pda(stack, Gap(Val, 0)) else Failed
      case Val => StartValue(stack, c)
      case ArrOpen => if c == CLOSE_BRACKET && stack.Cons? then ValueDone(stack.tail) else StartValue(stack, c)
      case After =>
        if stack.Nil? then Failed
        else if c == COMMA then Pda(stack, Gap(if stack.head.Obj? then ObjKey else Val, 0))
        else if c == Closer(stack.head) then ValueDone(stack.tail)
        else Failed
      case Done => Failed
  }

  function Step(p: Pda, c: Byte): Pda {
    match p
    case Failed => Failed
    case Pda(stack, Gap(at, ws)) => StepGap(stack, at, ws, c)
    case Pda(stack, InString(key, s)) => StepString(stack, key, s, c)
    case Pda(stack, InNumber(n)) =>
      (match NumberNext(n, c)
       case Some(n') => Pda(stack, InNumber(n'))
       case None =>
         if !NumberComplete(n) then Failed
         else var after := ValueDone(stack); StepGap(after.stack, after.mode.at, 0, c))
    case Pda(stack, InWord(left)) =>
      if left.Nil? || c != left.head then Failed
      else if left.tail.Nil? then ValueDone(stack)
      else Pda(stack, InWord(left.tail))
  }

  function Feed(p: Pda, t: Bytes): Pda
    decreases t
  {
    if t == [] then p else Feed(Step(p, t[0]), t[1..])
  }

  // ---- What every state reached keeps ----

  predicate StrModeOk(s: StrMode) {
    match s
    case HexOwed(left) => 1 <= left <= 4
    case Utf8Owed(left, lo, hi) => 1 <= left <= 3 && 0x80 <= lo <= hi <= 0xBF
    case _ => true
  }

  predicate WordLeft(left: List<Byte>) {
    left.Cons? && (left == WordText(True).tail || left == WordText(True).tail.tail ||
        left == WordText(True).tail.tail.tail
                || left == WordText(False).tail || left == WordText(False).tail.tail ||
                    left == WordText(False).tail.tail.tail
                || left == WordText(False).tail.tail.tail.tail
                || left == WordText(Null).tail || left == WordText(Null).tail.tail ||
                    left == WordText(Null).tail.tail.tail)
  }

  predicate PdaOk(p: Pda) {
    match p
    case Failed => true
    case Pda(stack, mode) =>
      Length(stack) <= MAX_DEPTH &&
      match mode
      case Gap(at, ws) =>
        ws <= MAX_WS &&
        (match at
         case Start => stack.Nil?
         case Done => stack.Nil?
         case ObjOpen => stack.Cons? && stack.head.Obj?
         case ObjKey => stack.Cons? && stack.head.Obj?
         case Colon => stack.Cons? && stack.head.Obj?
         case ArrOpen => stack.Cons? && stack.head.Arr?
         case Val => stack.Cons?
         case After => stack.Cons?)
      case InString(key, s) => stack.Cons? && (key ==> stack.head.Obj?) && StrModeOk(s)
      case InNumber(_) => stack.Cons?
      case InWord(left) => stack.Cons? && WordLeft(left)
  }

  lemma StepKeepsOk(p: Pda, c: Byte)
    requires PdaOk(p)
    ensures PdaOk(Step(p, c))
  {
    hide StepGap;
    hide StepString;
    match p
    case Failed =>
    case Pda(stack, Gap(at, ws)) => GapKeepsOk(stack, at, ws, c);
    case Pda(stack, InString(key, s)) => StringKeepsOk(stack, key, s, c);
    case Pda(stack, InNumber(n)) => ValueDoneOk(stack, c);
    case Pda(stack, InWord(left)) => ValueDoneOk(stack, c);
  }

  lemma GapKeepsOk(stack: List<Kind>, at: Place, ws: nat, c: Byte)
    requires PdaOk(Pda(stack, Gap(at, ws)))
    ensures PdaOk(StepGap(stack, at, ws, c))
  {
  }

  lemma StringKeepsOk(stack: List<Kind>, key: bool, s: StrMode, c: Byte)
    requires PdaOk(Pda(stack, InString(key, s)))
    ensures PdaOk(StepString(stack, key, s, c))
  {
    hide WordText;
  }

  lemma ValueDoneOk(stack: List<Kind>, c: Byte)
    requires Length(stack) <= MAX_DEPTH && stack.Cons?
    ensures var after := ValueDone(stack); PdaOk(after) && PdaOk(StepGap(after.stack, after.mode.at, 0, c))
  {
    hide StepGap;
    GapKeepsOk(stack, After, 0, c);
  }

  lemma {:induction false} FeedKeepsOk(p: Pda, t: Bytes)
    requires PdaOk(p)
    ensures PdaOk(Feed(p, t))
    decreases t
  {
    if t != [] {
      StepKeepsOk(p, t[0]);
      FeedKeepsOk(Step(p, t[0]), t[1..]);
    }
  }

  lemma {:induction false} FeedFailed(t: Bytes)
    ensures Feed(Failed, t) == Failed
  {
    if t != [] { FeedFailed(t[1..]); }
  }

  lemma {:induction false} FeedConcat(p: Pda, a: Bytes, b: Bytes)
    ensures Feed(p, a + b) == Feed(Feed(p, a), b)
    decreases a
  {
    if a == [] {
      assert a + b == b;
    } else {
      assert (a + b)[1..] == a[1..] + b;
      FeedConcat(Step(p, a[0]), a[1..], b);
    }
  }
}
