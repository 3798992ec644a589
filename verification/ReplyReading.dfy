/**
 * What a reply in Qwen3's own format says: reasoning between its tags at the
 * start, then text, then tool calls. Reading takes the whole reply at once;
 * it is what the incremental parser (ReplyParser) must amount to, however the
 * reply arrives.
 */
module ReplyReading {
  import opened Basics

  const NEWLINE: Byte := 0x0A
  const OPEN_THINK: Bytes := [0x3C, 0x74, 0x68, 0x69, 0x6E, 0x6B, 0x3E]
  const CLOSE_THINK: Bytes := [0x3C, 0x2F, 0x74, 0x68, 0x69, 0x6E, 0x6B, 0x3E]
  const OPEN_CALL: Bytes := [0x3C, 0x74, 0x6F, 0x6F, 0x6C, 0x5F, 0x63, 0x61, 0x6C, 0x6C, 0x3E]
  const CLOSE_CALL: Bytes := [0x3C, 0x2F, 0x74, 0x6F, 0x6F, 0x6C, 0x5F, 0x63, 0x61, 0x6C, 0x6C, 0x3E]

  predicate IsSpace(c: Byte) { c == 0x0A || c == 0x20 || c == 0x09 || c == 0x0D }

  datatype Kind = Reasoning | Text

  datatype ToolCall = ToolCall(name: Bytes, args: Bytes)

  /** What is reported: bytes of a kind, or a whole call. */
  datatype MaybePart = Span(kind: Kind, data: Bytes) | Call(call: ToolCall)

  type Part = p: MaybePart | p.Span? ==> p.data != [] witness Span(Text, [NEWLINE])

  /** The same with each byte on its own, so that only what was said counts and not how it was cut. */
  datatype Event = OneByte(kind: Kind, b: Byte) | OneCall(call: ToolCall)

  /**
   * How replies are read: whether they may open with reasoning, whether
   * <tool_call> blocks are calls, and what call a block's body is, if one.
   */
  datatype Rules = Rules(think: bool, tools: bool, callOf: Bytes -> Option<ToolCall>)

  // ---- Tags ----

  predicate At(t: Bytes, i: nat, tag: Bytes) { i + |tag| <= |t| && t[i..i + |tag|] == tag }

  /** Where a tag first begins. */
  function Find(t: Bytes, tag: Bytes): (r: Option<nat>)
    ensures r.Some? ==> At(t, r.value, tag) && forall i :: 0 <= i < r.value ==> !At(t, i, tag)
    ensures r.None? ==> forall i :: 0 <= i <= |t| ==> !At(t, i, tag)
  {
    if At(t, 0, tag) then Some(0)
    else if t == [] then None
    else
      assert forall i :: 0 < i <= |t| ==> (At(t, i, tag) <==> At(t[1..], i - 1, tag)) by { AtTail(t, tag); }
      match Find(t[1..], tag)
      case None => None
      case Some(c) => Some(c + 1)
  }

  lemma AtTail(t: Bytes, tag: Bytes)
    requires t != []
    ensures forall i :: 0 < i <= |t| ==> (At(t, i, tag) <==> At(t[1..], i - 1, tag))
  {
    forall i | 0 < i <= |t| ensures At(t, i, tag) <==> At(t[1..], i - 1, tag) {
      var j := i + |tag|;
      if j <= |t| { assert t[1..][i - 1..j - 1] == t[i..j]; }
    }
  }

  lemma FoundFirst(t: Bytes, tag: Bytes, c: nat)
    requires At(t, c, tag) && forall i :: 0 <= i < c ==> !At(t, i, tag)
    ensures Find(t, tag) == Some(c)
  {
  }

  lemma NotFound(t: Bytes, tag: Bytes)
    requires forall i :: 0 <= i <= |t| ==> !At(t, i, tag)
    ensures Find(t, tag) == None
  {
  }

  /** A tag found stays where it was found as the text grows. */
  lemma FoundStays(t: Bytes, more: Bytes, tag: Bytes)
    requires Find(t, tag).Some?
    ensures Find(t + more, tag) == Find(t, tag)
  {
    var c := Find(t, tag).value;
    forall i | 0 <= i <= c ensures At(t + more, i, tag) <==> At(t, i, tag) {
      assert i + |tag| <= |t| ==> (t + more)[i..i + |tag|] == t[i..i + |tag|];
    }
    FoundFirst(t + more, tag, c);
  }

  /** Whether the last k bytes of t begin a tag without finishing it. */
  predicate Grows(t: Bytes, k: nat, tag: Bytes) { k <= |t| && k < |tag| && t[|t| - k..] == tag[..k] }

  /** The longest end of t that could still grow into the tag. */
  predicate IsHoldback(t: Bytes, tag: Bytes, k: nat) {
    Grows(t, k, tag) && forall j :: k < j < |tag| ==> !Grows(t, j, tag)
  }

  /** A tag that begins in t and ends after it grows from the end of t. */
  lemma GrowsFrom(t: Bytes, more: Bytes, i: nat, tag: Bytes)
    requires At(t + more, i, tag) && i <= |t| < i + |tag|
    ensures Grows(t, |t| - i, tag)
  {
    var j := |t| - i;
    forall x | 0 <= x < j
      ensures t[i..][x] == tag[..j][x]
    {
      assert (t + more)[i..i + |tag|][x] == (t + more)[i + x];
    }
  }

  /** With no tag in t, one that comes later begins in what is held back, or after it. */
  lemma HoldbackIsEnough(t: Bytes, more: Bytes, tag: Bytes, k: nat, i: nat)
    requires tag != [] && Find(t, tag).None? && IsHoldback(t, tag, k)
    requires i < |t| - k
    ensures !At(t + more, i, tag)
  {
    var full := t + more;
    if At(full, i, tag) {
      if i + |tag| <= |t| {
        assert t[i..i + |tag|] == full[i..i + |tag|];
        assert At(t, i, tag);
      } else {
        GrowsFrom(t, more, i, tag);
      }
    }
  }

  /** Bytes before it only move where a tag is. */
  lemma AtShifted(head: Bytes, tail: Bytes, i: nat, tag: Bytes)
    requires |head| <= i
    ensures At(head + tail, i, tag) <==> At(tail, i - |head|, tag)
  {
    if i + |tag| <= |head + tail| { assert (head + tail)[i..i + |tag|] == tail[i - |head|..i - |head| + |tag|]; }
  }

  lemma NoneBefore(t: Bytes, more: Bytes, tag: Bytes, k: nat, tail: Bytes, limit: nat)
    requires tag != [] && Find(t, tag).None? && IsHoldback(t, tag, k) && k <= |t|
    requires tail == t[|t| - k..] + more && forall i: nat :: i < limit ==> !At(tail, i, tag)
    ensures forall i: nat :: i < |t| - k + limit ==> !At(t + more, i, tag)
  {
    hide At;
    hide Find;
    hide IsHoldback;
    var head := t[..|t| - k];
    assert t + more == head + tail;
    forall i: nat | i < |t| - k + limit
      ensures !At(t + more, i, tag)
    {
      if i < |head| { HoldbackIsEnough(t, more, tag, k, i); } else { AtShifted(head, tail, i, tag); }
    }
  }

  lemma Cut(t: Bytes, more: Bytes, n: nat)
    requires n <= |t|
    ensures t + more == t[..n] + (t[n..] + more) && |t[..n]| == n
  {
  }

  lemma FindInHoldback(t: Bytes, more: Bytes, tag: Bytes, k: nat)
    requires tag != [] && Find(t, tag).None? && IsHoldback(t, tag, k)
    ensures k <= |t|
    ensures var late := Find(t[|t| - k..] + more, tag);
            Find(t + more, tag) == if late.None? then None else Some(|t| - k + late.value)
  {
    hide At;
    hide Find;
    hide IsHoldback;
    Fits(t, tag, k);
    Cut(t, more, |t| - k);
    FindLate(t, more, tag, k, t[..|t| - k], t[|t| - k..] + more);
  }

  lemma Fits(t: Bytes, tag: Bytes, k: nat)
    requires IsHoldback(t, tag, k)
    ensures k <= |t|
  {
  }

  lemma FindLate(t: Bytes, more: Bytes, tag: Bytes, k: nat, head: Bytes, tail: Bytes)
    requires tag != [] && Find(t, tag).None? && IsHoldback(t, tag, k) && k <= |t|
    requires tail == t[|t| - k..] + more && t + more == head + tail && |head| == |t| - k
    ensures var late := Find(tail, tag);
            Find(t + more, tag) == if late.None? then None else Some(|head| + late.value)
  {
    hide At;
    hide Find;
    hide IsHoldback;
    var late := Find(tail, tag);
    if late.Some? {
      NoneBefore(t, more, tag, k, tail, late.value);
      FoundAfter(head, tail, t + more, tag, late.value);
    } else {
      NoneBefore(t, more, tag, k, tail, |tail| + 1);
      NotFound(t + more, tag);
    }
  }

  lemma FoundAfter(head: Bytes, tail: Bytes, full: Bytes, tag: Bytes, c: nat)
    requires full == head + tail && At(tail, c, tag) && forall i: nat :: i < |head| + c ==> !At(full, i, tag)
    ensures Find(full, tag) == Some(|head| + c)
  {
    hide At;
    AtShifted(head, tail, |head| + c, tag);
    FoundFirst(full, tag, |head| + c);
  }

  // ---- Newlines at the ends of parts ----

  /** Newlines read and held back, and whether the part has begun. */
  datatype Held = Held(nl: nat, any: bool)

  const FRESH := Held(0, false)

  function Newlines(kind: Kind, n: nat): seq<Event> { seq(n, _ => OneByte(kind, NEWLINE)) }

  /** Newlines that turned out to be inside the part, or none while it has not begun. */
  function Released(kind: Kind, h: Held): seq<Event> { if h.any then Newlines(kind, h.nl) else [] }

  function PartByte(h: Held, kind: Kind, b: Byte): (Held, seq<Event>) {
    if b == NEWLINE then (Held(h.nl + 1, h.any), [])
    else (Held(0, true), Released(kind, h) + [OneByte(kind, b)])
  }

  /** Bytes of a part: what they leave held back, and what they say. */
  function PartBytes(h: Held, kind: Kind, s: Bytes): (Held, seq<Event>)
    decreases |s|
  {
    if s == [] then (h, [])
    else
      var (h1, e1) := PartBytes(h, kind, s[..|s| - 1]);
      var (h2, e2) := PartByte(h1, kind, s[|s| - 1]);
      (h2, e1 + e2)
  }

  lemma {:induction false} PartBytesConcat(h: Held, kind: Kind, a: Bytes, b: Bytes)
    ensures var (h1, e1) := PartBytes(h, kind, a);
            var (h2, e2) := PartBytes(h1, kind, b);
            PartBytes(h, kind, a + b) == (h2, e1 + e2)
    decreases |b|
  {
    if b == [] {
      assert a + b == a;
      assert PartBytes(h, kind, a).1 + [] == PartBytes(h, kind, a).1;
    } else {
      var most := b[..|b| - 1];
      assert (a + b)[..|a + b| - 1] == a + most;
      PartBytesConcat(h, kind, a, most);
      var (h1, e1) := PartBytes(h, kind, a);
      var (h2, e2) := PartBytes(h1, kind, most);
      var (h3, e3) := PartByte(h2, kind, b[|b| - 1]);
      assert PartBytes(h, kind, a + b) == (h3, (e1 + e2) + e3);
      assert PartBytes(h1, kind, b) == (h3, e2 + e3);
      assert (e1 + e2) + e3 == e1 + (e2 + e3);
    }
  }

  // ---- Reading ----

  datatype Phase = Start | Reason | InText | Tool | AfterCall | Finished

  function Rank(p: Phase): nat {
    match p
    case Start => 2
    case AfterCall => 1
    case _ => 0
  }

  function SkipSpace(t: Bytes): (rest: Bytes)
    ensures |rest| <= |t| && (rest == [] || !IsSpace(rest[0]))
  {
    if t == [] || !IsSpace(t[0]) then t else SkipSpace(t[1..])
  }

  /** Where the next tool call begins. */
  function FindCall(r: Rules, t: Bytes): Option<nat> { if r.tools then Find(t, OPEN_CALL) else None }

  /** What the rest of a reply says, read from a phase to its end. */
  function Reading(r: Rules, phase: Phase, h: Held, t: Bytes): seq<Event>
    decreases |t|, Rank(phase)
  {
    match phase
    case Start =>
      if r.think && At(t, 0, OPEN_THINK) then Reading(r, Reason, FRESH, t[|OPEN_THINK|..])
      else Reading(r, InText, FRESH, t)
    case Reason =>
      (match Find(t, CLOSE_THINK)
       case Some(c) => PartBytes(h, Reasoning, t[..c]).1 + Reading(r, InText, FRESH, t[c + |CLOSE_THINK|..])
       case None => PartBytes(h, Reasoning, t).1)
    case InText =>
      (match FindCall(r, t)
       case Some(c) =>
         var (h', e) := PartBytes(h, Text, t[..c]);
         e + Reading(r, Tool, Held(0, h'.any), t[c + |OPEN_CALL|..])
       case None => TextEnd(h, t))
    case Tool =>
      (match Find(t, CLOSE_CALL)
       case Some(c) =>
         (match r.callOf(t[..c])
          case Some(call) => [OneCall(call)] + Reading(r, AfterCall, h, t[c + |CLOSE_CALL|..])
          case None =>
            var (h', e) := PartBytes(h, Text, OPEN_CALL + t[..c] + CLOSE_CALL);
            e + Reading(r, AfterCall, h', t[c + |CLOSE_CALL|..]))
       case None => TextEnd(h, OPEN_CALL + t))
    case AfterCall =>
      var rest := SkipSpace(t);
      if rest == [] then []
      else if At(rest, 0, OPEN_CALL) then Reading(r, Tool, h, rest[|OPEN_CALL|..])
      else Reading(r, InText, FRESH, rest)
    case Finished => []
  }

  /** Text to the reply's end, which keeps the newlines it ends with. */
  function TextEnd(h: Held, t: Bytes): seq<Event> {
    var (h', e) := PartBytes(h, Text, t);
    e + Released(Text, h')
  }

  /** A whole reply. */
  function Read(r: Rules, t: Bytes): seq<Event> { Reading(r, Start, FRESH, t) }

  // Reading t and whatever follows it, a turn at a time: what is settled by t alone.

  lemma StartSettled(r: Rules, h: Held, t: Bytes, more: Bytes)
    requires !(r.think && |t| < |OPEN_THINK| && t == OPEN_THINK[..|t|]) || more == []
    ensures Reading(r, Start, h, t + more) ==
              if r.think && At(t, 0, OPEN_THINK) then Reading(r, Reason, FRESH, t[|OPEN_THINK|..] + more)
              else Reading(r, InText, FRESH, t + more)
  {
    if r.think { OpeningSettled(t, more, OPEN_THINK); }
    if At(t, 0, OPEN_THINK) { assert (t + more)[|OPEN_THINK|..] == t[|OPEN_THINK|..] + more; }
  }

  lemma OpeningSettled(t: Bytes, more: Bytes, tag: Bytes)
    requires !(|t| < |tag| && t == tag[..|t|]) || more == []
    ensures At(t + more, 0, tag) <==> At(t, 0, tag)
  {
    if more == [] {
      assert t + more == t;
    } else if |t| >= |tag| {
      assert (t + more)[..|tag|] == t[..|tag|];
    } else {
      assert (t + more)[..|t|] == t;
      assert tag[..|t|] != t;
      assert |t + more| >= |tag| ==> (t + more)[..|tag|][..|t|] == (t + more)[..|t|];
    }
  }

  lemma ReasonFound(r: Rules, h: Held, t: Bytes, more: Bytes, c: nat)
    requires Find(t, CLOSE_THINK) == Some(c)
    ensures Reading(r, Reason, h, t + more)
         == PartBytes(h, Reasoning, t[..c]).1 + Reading(r, InText, FRESH, t[c + |CLOSE_THINK|..] + more)
  {
    FoundStays(t, more, CLOSE_THINK);
    assert (t + more)[..c] == t[..c];
    assert (t + more)[c + |CLOSE_THINK|..] == t[c + |CLOSE_THINK|..] + more;
  }

  /** Reasoning read up to what is held back, and from there on, is the reasoning read at once. */
  lemma ReasonHeldBack(r: Rules, h: Held, t: Bytes, more: Bytes, hold: nat)
    requires Find(t, CLOSE_THINK).None? && IsHoldback(t, CLOSE_THINK, hold)
    ensures var (h', e) := PartBytes(h, Reasoning, t[..|t| - hold]);
            Reading(r, Reason, h, t + more) == e + Reading(r, Reason, h', t[|t| - hold..] + more)
  {
    hide PartBytes;
    hide Find;
    var n := |t| - hold;
    var tail := t[n..] + more;
    FindInHoldback(t, more, CLOSE_THINK, hold);
    assert t + more == t[..n] + tail;
    var late := Find(tail, CLOSE_THINK);
    var (h', e) := PartBytes(h, Reasoning, t[..n]);
    if late.None? {
      PartBytesConcat(h, Reasoning, t[..n], tail);
    } else {
      var c := late.value;
      PartBytesConcat(h, Reasoning, t[..n], tail[..c]);
      assert (t + more)[..n + c] == t[..n] + tail[..c];
      assert (t + more)[n + c + |CLOSE_THINK|..] == tail[c + |CLOSE_THINK|..];
      var rest := Reading(r, InText, FRESH, tail[c + |CLOSE_THINK|..]);
      assert (e + PartBytes(h', Reasoning, tail[..c]).1) + rest == e + (PartBytes(h', Reasoning, tail[..c]).1 + rest);
    }
  }

  lemma TextFound(r: Rules, h: Held, t: Bytes, more: Bytes, c: nat)
    requires FindCall(r, t) == Some(c)
    ensures var (h', e) := PartBytes(h, Text, t[..c]);
            Reading(r, InText, h, t + more) == e + Reading(r, Tool, Held(0, h'.any), t[c + |OPEN_CALL|..] + more)
  {
    FoundStays(t, more, OPEN_CALL);
    assert (t + more)[..c] == t[..c];
    assert (t + more)[c + |OPEN_CALL|..] == t[c + |OPEN_CALL|..] + more;
  }

  lemma TextHeldBack(r: Rules, h: Held, t: Bytes, more: Bytes, hold: nat)
    requires hold <= |t| && FindCall(r, t).None?
    requires if r.tools then IsHoldback(t, OPEN_CALL, hold) else hold == 0
    ensures var (h', e) := PartBytes(h, Text, t[..|t| - hold]);
            Reading(r, InText, h, t + more) == e + Reading(r, InText, h', t[|t| - hold..] + more)
  {
    hide PartBytes;
    hide Find;
    hide IsHoldback;
    var n := |t| - hold;
    if r.tools { FindInHoldback(t, more, OPEN_CALL, hold); }
    Cut(t, more, n);
    TextSplit(r, h, t[..n], t[n..] + more);
  }

  /** Text whose first call, if any, comes after head: head is read as text, then the rest. */
  lemma TextSplit(r: Rules, h: Held, head: Bytes, tail: Bytes)
    requires FindCall(r, head + tail) == match FindCall(r, tail) case None => None case Some(c) => Some(|head| + c)
    ensures var (h', e) := PartBytes(h, Text, head);
            Reading(r, InText, h, head + tail) == e + Reading(r, InText, h', tail)
  {
    hide PartBytes;
    hide Find;
    hide Released;
    var late := FindCall(r, tail);
    var (h', e) := PartBytes(h, Text, head);
    if late.None? {
      PartBytesConcat(h, Text, head, tail);
      var (h'', e') := PartBytes(h', Text, tail);
      assert (e + e') + Released(Text, h'') == e + (e' + Released(Text, h''));
    } else {
      var c := late.value;
      PartBytesConcat(h, Text, head, tail[..c]);
      assert (head + tail)[..|head| + c] == head + tail[..c];
      assert (head + tail)[|head| + c + |OPEN_CALL|..] == tail[c + |OPEN_CALL|..];
      var (h'', e') := PartBytes(h', Text, tail[..c]);
      var rest := Reading(r, Tool, Held(0, h''.any), tail[c + |OPEN_CALL|..]);
      assert (e + e') + rest == e + (e' + rest);
    }
  }

  lemma ToolFound(r: Rules, h: Held, t: Bytes, more: Bytes, c: nat)
    requires Find(t, CLOSE_CALL) == Some(c)
    ensures var next := t[c + |CLOSE_CALL|..] + more;
            match r.callOf(t[..c])
            case Some(call) => Reading(r, Tool, h, t + more) == [OneCall(call)] + Reading(r, AfterCall, h, next)
            case None =>
              var (h', e) := PartBytes(h, Text, OPEN_CALL + t[..c] + CLOSE_CALL);
              Reading(r, Tool, h, t + more) == e + Reading(r, AfterCall, h', next)
  {
    hide PartBytes;
    hide Find;
    FoundStays(t, more, CLOSE_CALL);
    assert (t + more)[..c] == t[..c];
    assert (t + more)[c + |CLOSE_CALL|..] == t[c + |CLOSE_CALL|..] + more;
  }

  lemma {:induction false} SpaceSkipped(t: Bytes, n: nat)
    requires n <= |t| && forall q :: 0 <= q < n ==> IsSpace(t[q])
    ensures SkipSpace(t) == SkipSpace(t[n..])
    decreases n
  {
    if n > 0 {
      assert t[1..][n - 1..] == t[n..];
      SpaceSkipped(t[1..], n - 1);
    }
  }

  lemma AfterSpace(r: Rules, h: Held, space: Bytes, t: Bytes)
    requires forall q :: 0 <= q < |space| ==> IsSpace(space[q])
    ensures Reading(r, AfterCall, h, space + t) == Reading(r, AfterCall, h, t)
  {
    SpaceSkipped(space + t, |space|);
    assert (space + t)[|space|..] == t;
  }

  /** After a call: t is what is left past the whitespace, and not empty. */
  lemma AfterSettled(r: Rules, h: Held, space: Bytes, t: Bytes, more: Bytes)
    requires (forall q :: 0 <= q < |space| ==> IsSpace(space[q])) && t != [] && !IsSpace(t[0])
    requires !(|t| < |OPEN_CALL| && t == OPEN_CALL[..|t|]) || more == []
    ensures Reading(r, AfterCall, h, space + t + more) ==
              if At(t, 0, OPEN_CALL) then Reading(r, Tool, h, t[|OPEN_CALL|..] + more)
              else Reading(r, InText, FRESH, t + more)
  {
    hide Reading;
    hide At;
    assert space + t + more == space + (t + more);
    AfterSpace(r, h, space, t + more);
    OpeningSettled(t, more, OPEN_CALL);
    AfterHere(r, h, t + more);
    AtLength(t, OPEN_CALL);
    if At(t, 0, OPEN_CALL) { assert (t + more)[|OPEN_CALL|..] == t[|OPEN_CALL|..] + more; }
  }

  lemma AtLength(t: Bytes, tag: Bytes)
    ensures At(t, 0, tag) ==> |tag| <= |t|
  {
  }

  lemma AfterHere(r: Rules, h: Held, t: Bytes)
    requires t != [] && !IsSpace(t[0])
    ensures At(t, 0, OPEN_CALL) ==> |OPEN_CALL| <= |t|
    ensures Reading(r, AfterCall, h, t) ==
              if At(t, 0, OPEN_CALL) then Reading(r, Tool, h, t[|OPEN_CALL|..]) else Reading(r, InText, FRESH, t)
  {
    hide PartBytes;
    hide Find;
    hide FindCall;
    assert SkipSpace(t) == t;
  }

  // Reading t to the reply's end.

  lemma ReasonToEnd(r: Rules, h: Held, t: Bytes)
    requires Find(t, CLOSE_THINK).None?
    ensures Reading(r, Reason, h, t) == PartBytes(h, Reasoning, t).1
  {
  }

  lemma TextToEnd(r: Rules, h: Held, t: Bytes)
    requires FindCall(r, t).None?
    ensures var (h', e) := PartBytes(h, Text, t);
            Reading(r, InText, h, t) == e + Released(Text, h')
  {
  }

  lemma ToolToEnd(r: Rules, h: Held, t: Bytes)
    requires Find(t, CLOSE_CALL).None?
    ensures var (h', e) := PartBytes(h, Text, OPEN_CALL + t);
            Reading(r, Tool, h, t) == e + Released(Text, h')
  {
  }

  lemma AfterToEnd(r: Rules, h: Held)
    ensures Reading(r, AfterCall, h, []) == []
  {
  }

  // ---- Parts and events ----

  function SpanEvents(kind: Kind, data: Bytes): seq<Event> {
    seq(|data|, i requires 0 <= i < |data| => OneByte(kind, data[i]))
  }

  function EventsOf(p: MaybePart): seq<Event> {
    match p
    case Span(kind, data) => SpanEvents(kind, data)
    case Call(c) => [OneCall(c)]
  }

  function Flatten(parts: seq<Part>): seq<Event> {
    if parts == [] then [] else Flatten(parts[..|parts| - 1]) + EventsOf(parts[|parts| - 1])
  }
}
