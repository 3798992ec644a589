/**
 * An assistant's turn in the chat template, and its inverse: a final turn the
 * template writes is read back by the reply parser as its reasoning with the
 * newlines around it dropped, its text, and its calls.
 */
module ChatTurn {
  import opened Basics
  import opened JsonTree
  import opened JsonWriter
  import opened FloatRepr
  import opened ChatCall
  import R = ReplyReading

  const NL: Bytes := [R.NEWLINE]

  // ---- Newlines at the ends ----

  function LStrip(s: Bytes): Bytes { if s != [] && s[0] == R.NEWLINE then LStrip(s[1..]) else s }

  function RStrip(s: Bytes): Bytes { if s != [] && s[|s| - 1] == R.NEWLINE then RStrip(s[..|s| - 1]) else s }

  function Strip(s: Bytes): Bytes { RStrip(LStrip(s)) }

  method StripFront(s: Bytes) returns (r: Bytes)
    ensures r == LStrip(s)
  {
    r := s;
    while r != [] && r[0] == R.NEWLINE
      invariant LStrip(r) == LStrip(s)
    {
      r := r[1..];
    }
  }

  method StripBack(s: Bytes) returns (r: Bytes)
    ensures r == RStrip(s)
  {
    r := s;
    while r != [] && r[|r| - 1] == R.NEWLINE
      invariant RStrip(r) == RStrip(s)
    {
      r := r[..|r| - 1];
    }
  }

  lemma {:induction false} LStripMore(s: Bytes, b: Byte)
    ensures LStrip(s + [b]) == if LStrip(s) == [] then (if b == R.NEWLINE then [] else [b]) else LStrip(s) + [b]
    decreases s
  {
    if s == [] {
      assert s + [b] == [b];
      assert [b][1..] == [];
    } else {
      assert (s + [b])[1..] == s[1..] + [b];
      if s[0] == R.NEWLINE { LStripMore(s[1..], b); }
    }
  }

  lemma RStripMore(s: Bytes, b: Byte)
    ensures RStrip(s + [b]) == if b == R.NEWLINE then RStrip(s) else s + [b]
  {
    assert (s + [b])[..|s|] == s;
  }

  /** What has been said of a part whose bytes so far, but for the newlines before them, are these. */
  ghost predicate Told(kind: R.Kind, bytes: Bytes, h: R.Held, e: seq<R.Event>) {
    && (h.any <==> bytes != [])
    && e == R.SpanEvents(kind, RStrip(bytes))
    && e + R.Released(kind, h) == R.SpanEvents(kind, bytes)
  }

  lemma ToldNewline(kind: R.Kind, bytes: Bytes, h: R.Held, e: seq<R.Event>)
    requires Told(kind, bytes, h, e)
    ensures Told(kind, if bytes == [] then [] else bytes + NL, R.Held(h.nl + 1, h.any), e)
  {
    if bytes != [] {
      RStripMore(bytes, R.NEWLINE);
      var more := [R.OneByte(kind, R.NEWLINE)];
      assert R.Newlines(kind, h.nl + 1) == R.Newlines(kind, h.nl) + more;
      assert e + (R.Newlines(kind, h.nl) + more) == e + R.Newlines(kind, h.nl) + more;
      assert R.SpanEvents(kind, bytes + NL) == R.SpanEvents(kind, bytes) + more;
    }
  }

  lemma ToldByte(kind: R.Kind, bytes: Bytes, h: R.Held, e: seq<R.Event>, b: Byte)
    requires Told(kind, bytes, h, e) && b != R.NEWLINE
    ensures Told(kind, bytes + [b], R.Held(0, true), e + (R.Released(kind, h) + [R.OneByte(kind, b)]))
  {
    RStripMore(bytes, b);
    var e2 := e + (R.Released(kind, h) + [R.OneByte(kind, b)]);
    assert e2 == e + R.Released(kind, h) + [R.OneByte(kind, b)];
    assert R.SpanEvents(kind, bytes + [b]) == R.SpanEvents(kind, bytes) + [R.OneByte(kind, b)];
    assert R.Newlines(kind, 0) == [];
    assert e2 + [] == e2;
  }

  /**
   * What a part says, read from its start: its bytes without the newlines before and after; and
   * with those after it, if they are let out.
   */
  lemma {:induction false} PartSays(kind: R.Kind, s: Bytes)
    ensures var (h, e) := R.PartBytes(R.FRESH, kind, s); Told(kind, LStrip(s), h, e)
    decreases |s|
  {
    if s == [] { return; }
    hide Told;
    var n := |s| - 1;
    var most, b := s[..n], s[n];
    assert s == most + [b];
    PartSays(kind, most);
    LStripMore(most, b);
    var (h, e) := R.PartBytes(R.FRESH, kind, most);
    if b == R.NEWLINE {
      assert e + [] == e;
      ToldNewline(kind, LStrip(most), h, e);
    } else {
      assert LStrip(most) == [] ==> LStrip(most) + [b] == [b];
      ToldByte(kind, LStrip(most), h, e, b);
    }
  }

  // ---- Finding tags, and Python's split ----

  function LastAt(s: Bytes, tag: Bytes, i: nat): (r: Option<nat>)
    requires i <= |s|
    ensures r.Some? ==> r.value <= i && R.At(s, r.value, tag) && forall j :: r.value < j <= i ==> !R.At(s, j, tag)
    ensures r.None? ==> forall j :: 0 <= j <= i ==> !R.At(s, j, tag)
  {
    if R.At(s, i, tag) then Some(i) else if i == 0 then None else LastAt(s, tag, i - 1)
  }

  /** Where a tag last begins. */
  function FindLast(s: Bytes, tag: Bytes): Option<nat> { LastAt(s, tag, |s|) }

  method FindFirstLoop(s: Bytes, sub: Bytes) returns (at: Option<nat>)
    ensures at == R.Find(s, sub)
  {
    var i := 0;
    while i + |sub| <= |s|
      invariant forall j :: 0 <= j < i ==> !R.At(s, j, sub)
    {
      if s[i..i + |sub|] == sub {
        R.FoundFirst(s, sub, i);
        return Some(i);
      }
      i := i + 1;
    }
    R.NotFound(s, sub);
    at := None;
  }

  method FindLastLoop(s: Bytes, sub: Bytes) returns (at: Option<nat>)
    ensures at == FindLast(s, sub)
  {
    var i := 0;
    at := None;
    while i + |sub| <= |s|
      invariant at.Some? ==> at.value < i && R.At(s, at.value, sub) && forall j :: at.value < j < i ==> !R.At(s, j, sub)
      invariant at.None? ==> forall j :: 0 <= j < i ==> !R.At(s, j, sub)
    {
      if s[i..i + |sub|] == sub { at := Some(i); }
      i := i + 1;
    }
    var last := FindLast(s, sub);
    if last.Some? { assert R.At(s, last.value, sub); }
  }

  /** Python's s.split(tag). */
  function Split(s: Bytes, tag: Bytes): (parts: seq<Bytes>)
    requires tag != []
    ensures parts != []
    decreases |s|
  {
    match R.Find(s, tag)
    case None => [s]
    case Some(c) => [s[..c]] + Split(s[c + |tag|..], tag)
  }

  /** No proper end of the tag begins it, so no two of it overlap. */
  predicate Borderless(tag: Bytes) { forall k :: 0 < k < |tag| ==> tag[..k] != tag[|tag| - k..] }

  lemma FirstByteOnce(tag: Bytes)
    requires tag != [] && forall i :: 0 < i < |tag| ==> tag[i] != tag[0]
    ensures Borderless(tag)
  {
    forall k | 0 < k < |tag| ensures tag[..k] != tag[|tag| - k..] {
      assert tag[..k][0] == tag[0];
      assert tag[|tag| - k..][0] == tag[|tag| - k];
    }
  }

  /** Two of a tag that overlap give it a border. */
  lemma Overlap(s: Bytes, tag: Bytes, c: nat, i: nat)
    requires R.At(s, c, tag) && R.At(s, i, tag) && c < i < c + |tag|
    ensures var k := c + |tag| - i; tag[..k] == tag[|tag| - k..]
  {
    var k := c + |tag| - i;
    assert s[i..i + |tag|][..k] == s[i..c + |tag|];
    assert s[c..c + |tag|][|tag| - k..] == s[i..c + |tag|];
  }

  lemma LastIs(s: Bytes, tag: Bytes, v: nat)
    requires R.At(s, v, tag) && forall j :: v < j <= |s| ==> !R.At(s, j, tag)
    ensures FindLast(s, tag) == Some(v)
  {
  }

  /** After the first of a tag, the last of them is the last in the rest. */
  lemma LastAfterFirst(s: Bytes, tag: Bytes, c: nat)
    requires tag != [] && Borderless(tag) && R.Find(s, tag) == Some(c)
    ensures c + |tag| <= |s|
    ensures FindLast(s, tag) ==
        match FindLast(s[c + |tag|..], tag) case None => Some(c) case Some(l) => Some(c + |tag| + l)
  {
    hide Borderless;
    hide FindLast;
    hide R.Find;
    hide R.At;
    FirstFits(s, tag);
    TagFits(s, c, tag);
    var cut := c + |tag|;
    var head, tail := s[..cut], s[cut..];
    assert s == head + tail;
    var l := FindLast(tail, tag);
    var v := if l.None? then c else cut + l.value;
    LastSays(tail, tag);
    if l.Some? { R.AtShifted(head, tail, v, tag); }
    forall j | v < j <= |s| ensures !R.At(s, j, tag) {
      NotLater(s, head, tail, tag, c, j);
    }
    LastIs(s, tag, v);
  }

  lemma TagFits(s: Bytes, c: nat, tag: Bytes)
    requires R.At(s, c, tag)
    ensures c + |tag| <= |s|
  {
  }

  lemma FirstFits(s: Bytes, tag: Bytes)
    ensures R.Find(s, tag).Some? ==> R.At(s, R.Find(s, tag).value, tag)
  {
  }

  lemma LastSays(s: Bytes, tag: Bytes)
    ensures var l := FindLast(s, tag);
            && (l.Some? ==> R.At(s, l.value, tag) && forall j :: l.value < j <= |s| ==> !R.At(s, j, tag))
            && (l.None? ==> forall j :: 0 <= j <= |s| ==> !R.At(s, j, tag))
  {
  }

  /** A tag after the first is one in the rest. */
  lemma NotLater(s: Bytes, head: Bytes, tail: Bytes, tag: Bytes, c: nat, j: nat)
    requires Borderless(tag) && s == head + tail && R.At(s, c, tag) && |head| == c + |tag| && c < j <= |s|
    requires j >= |head| ==> !R.At(tail, j - |head|, tag)
    ensures !R.At(s, j, tag)
  {
    hide Borderless;
    hide R.At;
    if R.At(s, j, tag) {
      NoOverlap(s, tag, c, j);
      R.AtShifted(head, tail, j, tag);
      assert false;
    }
  }

  lemma NoOverlap(s: Bytes, tag: Bytes, c: nat, i: nat)
    requires Borderless(tag) && R.At(s, c, tag) && R.At(s, i, tag) && c < i
    ensures i >= c + |tag|
  {
    if i < c + |tag| { Overlap(s, tag, c, i); }
  }

  /** The last of a split is what follows the last tag. */
  lemma {:induction false} SplitLast(s: Bytes, tag: Bytes)
    requires tag != [] && Borderless(tag)
    ensures var parts, last := Split(s, tag), FindLast(s, tag);
            parts[|parts| - 1] == if last.None? then s else s[last.value + |tag|..]
    decreases |s|
  {
    hide Borderless;
    hide R.At;
    hide FindLast;
    var c := R.Find(s, tag);
    if c.Some? {
      LastAfterFirst(s, tag, c.value);
      var cut := c.value + |tag|;
      var tail := s[cut..];
      SplitLast(tail, tag);
      var l := FindLast(tail, tag);
      LastFits(tail, tag);
      if l.Some? { assert tail[l.value + |tag|..] == s[cut + l.value + |tag|..]; }
      assert Split(s, tag) == [s[..c.value]] + Split(tail, tag);
    } else {
      NoLast(s, tag);
    }
  }

  lemma SplitFirst(s: Bytes, tag: Bytes)
    requires tag != []
    ensures R.Find(s, tag).Some? ==> R.Find(s, tag).value + |tag| <= |s|
    ensures var c := R.Find(s, tag); Split(s, tag)[0] == if c.None? then s else s[..c.value]
  {
  }

  lemma LastFits(s: Bytes, tag: Bytes)
    ensures FindLast(s, tag).Some? ==> FindLast(s, tag).value + |tag| <= |s|
  {
  }

  lemma NoLast(s: Bytes, tag: Bytes)
    requires R.Find(s, tag).None?
    ensures FindLast(s, tag).None?
  {
  }

  // ---- A message's parts ----

  const CONTENT: Bytes := [0x63, 0x6F, 0x6E, 0x74, 0x65, 0x6E, 0x74]
  const REASONING_CONTENT: Bytes := [0x72, 0x65, 0x61, 0x73, 0x6F, 0x6E, 0x69, 0x6E, 0x67, 0x5F] + CONTENT
  const TOOL_CALLS: Bytes := [0x74, 0x6F, 0x6F, 0x6C, 0x5F, 0x63, 0x61, 0x6C, 0x6C, 0x73]

  /** A member that is a string, or none. */
  function StrMember(m: Tree, key: Bytes): Option<Bytes> {
    var v := Get(m, key);
    if v.Some? && v.value.Text? then Some(v.value.s) else None
  }

  function Calls(m: Tree): seq<Tree> {
    var v := Get(m, TOOL_CALLS);
    if v.Some? && v.value.Items? then v.value.items else []
  }

  /** Reasoning written inside the content, between its tags, and the content after it. */
  function TakenApart(content: Bytes): (Bytes, Bytes) {
    match R.Find(content, R.CLOSE_THINK)
    case None => ([], content)
    case Some(close) =>
      var before := RStrip(content[..close]);
      var open := FindLast(before, R.OPEN_THINK);
      LastFits(before, R.OPEN_THINK);
      var inside := if open.None? then before else before[open.value + |R.OPEN_THINK|..];
      var last := FindLast(content, R.CLOSE_THINK);
      LastFits(content, R.CLOSE_THINK);
      (LStrip(inside), LStrip(if last.None? then content else content[last.value + |R.CLOSE_THINK|..]))
  }

  lemma ThinkTags()
    ensures Borderless(R.OPEN_THINK) && Borderless(R.CLOSE_THINK)
  {
    FirstByteOnce(R.OPEN_THINK);
    FirstByteOnce(R.CLOSE_THINK);
  }

  /** The last part of a Python split. */
  function AfterSplit(s: Bytes, tag: Bytes): Bytes
    requires tag != []
  {
    var parts := Split(s, tag);
    parts[|parts| - 1]
  }

  /** Finding the first and the last tag takes the content apart as the template's own Python does, with its splits. */
  lemma TakenApartAsPython(content: Bytes)
    requires R.Find(content, R.CLOSE_THINK).Some?
    ensures TakenApart(content) ==
        (LStrip(AfterSplit(RStrip(Split(content, R.CLOSE_THINK)[0]), R.OPEN_THINK)),
            LStrip(AfterSplit(content, R.CLOSE_THINK)))
  {
    hide Borderless;
    hide FindLast;
    hide Split;
    hide R.Find;
    hide R.At;
    hide LStrip;
    hide RStrip;
    ThinkTags();
    var close := R.Find(content, R.CLOSE_THINK).value;
    SplitFirst(content, R.CLOSE_THINK);
    SplitLast(RStrip(content[..close]), R.OPEN_THINK);
    SplitLast(content, R.CLOSE_THINK);
  }

  /** An assistant message's reasoning and content. */
  function Parts(m: Tree): (Bytes, Bytes) {
    var c := StrMember(m, CONTENT);
    var content := if c.Some? then c.value else [];
    var r := StrMember(m, REASONING_CONTENT);
    if r.Some? then (r.value, content) else TakenApart(content)
  }

  method TakeApart(m: Tree) returns (reasoning: Bytes, content: Bytes)
    ensures (reasoning, content) == Parts(m)
  {
    hide StrMember;
    hide TakenApart;
    var c := StrMember(m, CONTENT);
    content := if c.Some? then c.value else [];
    var r := StrMember(m, REASONING_CONTENT);
    if r.Some? { return r.value, content; }
    reasoning, content := TakeThinking(content);
  }

  method TakeThinking(content: Bytes) returns (reasoning: Bytes, rest: Bytes)
    ensures (reasoning, rest) == TakenApart(content)
  {
    hide FindLast;
    hide R.Find;
    hide R.At;
    hide LStrip;
    hide RStrip;
    SplitFirst(content, R.CLOSE_THINK);
    FirstThenLast(content, R.CLOSE_THINK);
    var close := FindFirstLoop(content, R.CLOSE_THINK);
    if close.None? { return [], content; }
    var before := StripBack(content[..close.value]);
    var open := FindLastLoop(before, R.OPEN_THINK);
    LastFits(before, R.OPEN_THINK);
    if open.Some? { before := before[open.value + |R.OPEN_THINK|..]; }
    reasoning := StripFront(before);
    var last := FindLastLoop(content, R.CLOSE_THINK);
    LastFits(content, R.CLOSE_THINK);
    rest := StripFront(content[last.value + |R.CLOSE_THINK|..]);
  }

  lemma FirstThenLast(s: Bytes, tag: Bytes)
    ensures R.Find(s, tag).Some? ==> FindLast(s, tag).Some?
  {
    FirstFits(s, tag);
    LastSays(s, tag);
  }

  // ---- The turn as it is written ----

  const START: Bytes := [0x3C, 0x7C, 0x69, 0x6D, 0x5F, 0x73, 0x74, 0x61, 0x72, 0x74, 0x7C, 0x3E,
                         0x61, 0x73, 0x73, 0x69, 0x73, 0x74, 0x61, 0x6E, 0x74, 0x0A]
  const END: Bytes := [0x3C, 0x7C, 0x69, 0x6D, 0x5F, 0x65, 0x6E, 0x64, 0x7C, 0x3E, 0x0A]

  function CallText(f: Floats, call: Tree): Bytes
    requires Sound(f)
  {
    R.OPEN_CALL + BodyOf(f, call) + R.CLOSE_CALL
  }

  /** Calls, each on a line of its own; the first only if something was said before it. */
  function CallsText(f: Floats, calls: seq<Tree>, apart: bool): Bytes
    requires Sound(f)
  {
    if calls == [] then [] else (if apart then NL else []) + CallText(f, calls[0]) + CallsText(f, calls[1..], true)
  }

  /** Reasoning between its tags, and the content. */
  function Thought(reasoning: Bytes, content: Bytes): Bytes {
    R.OPEN_THINK + NL + Strip(reasoning) + NL + R.CLOSE_THINK + NL + NL + LStrip(content)
  }

  /** What stands between a turn's markers. after: the turn comes after the last query; last: it is the last message. */
  function TurnText(f: Floats, m: Tree, after: bool, last: bool): Bytes
    requires Sound(f)
  {
    var (reasoning, content) := Parts(m);
    (if after && (last || reasoning != []) then Thought(reasoning, content) else content) +
        CallsText(f, Calls(m), content != [])
  }

  lemma Four(a: Bytes, b: Bytes, c: Bytes, d: Bytes)
    ensures a + (b + c + d) == a + b + c + d && a + [] == a && a + (b + c) == a + b + c
  {
  }

  method WriteCalls(w: Writer, calls: seq<Tree>, apart: bool)
    requires Sound(w.f)
    modifies w
    ensures w.data == old(w.data) + CallsText(w.f, calls, apart)
  {
    hide Sound;
    hide BodyOf;
    ghost var start := w.data;
    assert calls[0..] == calls;
    for j := 0 to |calls|
      invariant w.data + CallsText(w.f, calls[j..], j > 0 || apart) == start + CallsText(w.f, calls, apart)
    {
      ghost var rest := CallsText(w.f, calls[j + 1..], true);
      assert calls[j..][1..] == calls[j + 1..];
      Four(w.data, if j > 0 || apart then NL else [], CallText(w.f, calls[j]), rest);
      Four(w.data, [], [], []);
      if (j == 0 && apart) || j > 0 { w.Append(NL); }
      WriteCall(w, calls[j]);
    }
    Four(w.data, [], [], []);
  }

  /**
   * A turn between its markers: with its reasoning as a final turn has it, or
   * its own content and its calls alone.
   */
  method WriteTurn(w: Writer, m: Tree, after: bool, last: bool) returns (ghost between: Bytes)
    requires Sound(w.f)
    modifies w
    ensures w.data == old(w.data) + START + between + END && between == TurnText(w.f, m, after, last)
    ensures IsTurn(w.f, m, after, last, between)
  {
    TurnIsOwn(w.f, m, after, last);
    between := TurnText(w.f, m, after, last);
    hide IsTurn;
    hide Sound;
    hide Parts;
    hide CallsText;
    var reasoning, content := TakeApart(m);
    w.Append(START);
    ghost var start := w.data;
    if after && (last || reasoning != []) {
      w.Append(R.OPEN_THINK + NL);
      var front := StripFront(reasoning);
      var inside := StripBack(front);
      w.Append(inside);
      w.Append(NL + R.CLOSE_THINK + NL + NL);
      var said := StripFront(content);
      w.Append(said);
      Joined(start, R.OPEN_THINK, inside, R.CLOSE_THINK, said);
    } else {
      w.Append(content);
    }
    ghost var body := if after && (last || reasoning != []) then Thought(reasoning, content) else content;
    assert w.data == start + body;
    WriteCalls(w, Calls(m), content != []);
    Four(start, body, CallsText(w.f, Calls(m), content != []), []);
    w.Append(END);
  }

  const ROLE: Bytes := [0x72, 0x6F, 0x6C, 0x65]
  const USER: Bytes := [0x75, 0x73, 0x65, 0x72]
  const ASSISTANT: Bytes := [0x61, 0x73, 0x73, 0x69, 0x73, 0x74, 0x61, 0x6E, 0x74]
  const OPEN_RESPONSE: Bytes := [0x3C, 0x74, 0x6F, 0x6F, 0x6C, 0x5F, 0x72, 0x65, 0x73, 0x70, 0x6F, 0x6E, 0x73, 0x65,
      0x3E]
  const CLOSE_RESPONSE: Bytes := [0x3C, 0x2F] + OPEN_RESPONSE[1..]

  predicate RoleIs(m: Tree, role: Bytes) { StrMember(m, ROLE) == Some(role) }

  predicate StartsWith(s: Bytes, pre: Bytes) { |s| >= |pre| && s[..|pre|] == pre }

  predicate EndsWith(s: Bytes, suf: Bytes) { |s| >= |suf| && s[|s| - |suf|..] == suf }

  /** Whether a message is the user's own query, and not tool responses handed back. */
  predicate IsQuery(m: Tree) {
    var c := StrMember(m, CONTENT);
    RoleIs(m, USER) && c.Some? && !(StartsWith(c.value, OPEN_RESPONSE) && EndsWith(c.value, CLOSE_RESPONSE))
  }

  /** The last query, or the last message if there is none. */
  method LastQuery(msgs: seq<Tree>) returns (q: nat)
    requires msgs != []
    ensures q < |msgs|
    ensures forall j :: q < j < |msgs| ==> !IsQuery(msgs[j])
    ensures IsQuery(msgs[q]) || (q == |msgs| - 1 && forall j :: 0 <= j < |msgs| ==> !IsQuery(msgs[j]))
  {
    hide IsQuery;
    var k: nat := |msgs|;
    while k > 0
      invariant k <= |msgs| && forall j :: k <= j < |msgs| ==> !IsQuery(msgs[j])
    {
      k := k - 1;
      if IsQuery(msgs[k]) { return k; }
    }
    q := |msgs| - 1;
  }

  /** The last message, an assistant's: it keeps its reasoning exactly when a query came before it. */
  method WriteFinalTurn(w: Writer, msgs: seq<Tree>)
    requires Sound(w.f) && msgs != [] && RoleIs(msgs[|msgs| - 1], ASSISTANT)
    modifies w
    ensures var asked := exists j :: 0 <= j < |msgs| && IsQuery(msgs[j]);
            w.data == old(w.data) + START + TurnText(w.f, msgs[|msgs| - 1], asked, true) + END
  {
    hide TurnText;
    var n := |msgs|;
    var q := LastQuery(msgs);
    NotAQuery(msgs[n - 1]);
    ghost var between := WriteTurn(w, msgs[n - 1], n - 1 > q, true);
  }

  lemma NotAQuery(m: Tree)
    requires RoleIs(m, ASSISTANT)
    ensures !IsQuery(m)
  {
    assert |ASSISTANT| != |USER|;
  }

  lemma Joined(data: Bytes, open: Bytes, inside: Bytes, close: Bytes, said: Bytes)
    ensures data + (open + NL) + inside + (NL + close + NL + NL) + said ==
        data + (open + NL + inside + NL + close + NL + NL + said)
  {
  }

  // ---- The turn as it is read back ----

  predicate NoTag(s: Bytes, tag: Bytes) { R.Find(s, tag).None? }

  predicate OneLine(tag: Bytes) { tag != [] && R.NEWLINE !in tag }

  predicate EndsLine(s: Bytes) { s != [] && s[|s| - 1] == R.NEWLINE }

  /** A tag at the start of a line is found there if there is none before. */
  lemma TagFound(x: Bytes, tag: Bytes, rest: Bytes)
    requires OneLine(tag) && EndsLine(x) && NoTag(x, tag)
    ensures R.Find(x + tag + rest, tag) == Some(|x|)
  {
    var t := x + tag + rest;
    assert t[|x|..|x| + |tag|] == tag;
    forall i | 0 <= i < |x| ensures !R.At(t, i, tag) {
      if i + |tag| <= |x| {
        assert t[i..i + |tag|] == x[i..i + |tag|];
        assert !R.At(x, i, tag);
      } else if i + |tag| <= |t| {
        assert t[i..i + |tag|][|x| - 1 - i] == R.NEWLINE;
      }
    }
    R.FoundFirst(t, tag, |x|);
  }

  /** Newlines around text put no tag in it. */
  lemma NoTagPadded(s: Bytes, tag: Bytes)
    requires OneLine(tag) && NoTag(s, tag)
    ensures NoTag(NL + s, tag) && NoTag(s + NL, tag)
  {
    forall i | 0 <= i <= |s| + 1 ensures !R.At(NL + s, i, tag) {
      var t := NL + s;
      if i == 0 {
        assert i + |tag| <= |t| ==> t[0..|tag|][0] == R.NEWLINE;
      } else {
        R.AtShifted(NL, s, i, tag);
      }
    }
    R.NotFound(NL + s, tag);
    forall i | 0 <= i <= |s| + 1 ensures !R.At(s + NL, i, tag) {
      var t := s + NL;
      if i + |tag| <= |s| {
        assert t[i..i + |tag|] == s[i..i + |tag|];
        assert !R.At(s, i, tag);
      } else if i + |tag| <= |t| {
        assert t[i..i + |tag|][|s| - i] == R.NEWLINE;
      }
    }
    R.NotFound(s + NL, tag);
  }

  lemma StripFrontLine(s: Bytes)
    ensures LStrip(NL + s) == LStrip(s)
  {
    assert (NL + s)[1..] == s;
  }

  lemma StripBackLine(s: Bytes)
    ensures Strip(s + NL) == Strip(s)
  {
    LStripMore(s, R.NEWLINE);
    RStripMore(LStrip(s), R.NEWLINE);
  }

  lemma {:induction false} LStripDone(s: Bytes)
    ensures LStrip(s) == [] || LStrip(s)[0] != R.NEWLINE
    ensures LStrip(LStrip(s)) == LStrip(s)
  {
    if s != [] && s[0] == R.NEWLINE { LStripDone(s[1..]); }
  }

  lemma {:induction false} RStripDone(s: Bytes)
    ensures RStrip(s) == [] || (RStrip(s)[0] == s[0] && RStrip(s)[|RStrip(s)| - 1] != R.NEWLINE)
    ensures RStrip(RStrip(s)) == RStrip(s)
    decreases |s|
  {
    if s != [] && s[|s| - 1] == R.NEWLINE { RStripDone(s[..|s| - 1]); }
  }

  lemma StripTwice(s: Bytes)
    ensures Strip(Strip(s)) == Strip(s)
  {
    LStripDone(s);
    RStripDone(LStrip(s));
  }

  function Rules(f: Floats): R.Rules
    requires Sound(f)
  {
    R.Rules(true, true, b => CallOf(f, b))
  }

  /** Whether a call is one the template writes readably: nothing in it closes it early. */
  predicate Readable(f: Floats, call: Tree)
    requires Sound(f)
  {
    GoodCall(f, call) && NoTag(BodyOf(f, call), R.CLOSE_CALL)
  }

  predicate AllReadable(f: Floats, calls: seq<Tree>)
    requires Sound(f)
  {
    forall j :: 0 <= j < |calls| ==> Readable(f, calls[j])
  }

  /** Calls that are read back where nothing closes them early. */
  predicate AllGood(f: Floats, calls: seq<Tree>)
    requires Sound(f)
  {
    forall j :: 0 <= j < |calls| ==> GoodCall(f, calls[j])
  }

  function CallEvents(f: Floats, calls: seq<Tree>): seq<R.Event>
    requires Sound(f) && AllGood(f, calls)
  {
    if calls == [] then [] else [R.OneCall(CallRead(f, calls[0]))] + CallEvents(f, calls[1..])
  }

  lemma BodyEndsLine(f: Floats, call: Tree)
    requires Sound(f)
    ensures EndsLine(BodyOf(f, call))
  {
    var fn := Unwrapped(call);
    var name, args := Shown(f, Get(fn, NAME), []), Shown(f, Get(fn, ARGUMENTS), EMPTY_OBJECT);
    ObjectOnto(NAME, name, ARGUMENTS, args, NL);
  }

  lemma CallTags()
    ensures OneLine(R.OPEN_CALL) && OneLine(R.CLOSE_CALL) && OneLine(R.CLOSE_THINK)
  {
  }

  /** A call read from after its opening tag. */
  lemma ReadCall(f: Floats, h: R.Held, call: Tree, rest: Bytes)
    requires Sound(f) && Readable(f, call)
    ensures R.Reading(Rules(f), R.Tool, h, BodyOf(f, call) + R.CLOSE_CALL + rest)
         == [R.OneCall(CallRead(f, call))] + R.Reading(Rules(f), R.AfterCall, h, rest)
  {
    hide BodyOf;
    hide CallOf;
    hide GoodCall;
    hide CallRead;
    hide R.Find;
    var body := BodyOf(f, call);
    var t := body + R.CLOSE_CALL + rest;
    CallTags();
    BodyEndsLine(f, call);
    TagFound(body, R.CLOSE_CALL, rest);
    CallRoundTrip(f, call);
    assert t[..|body|] == body;
    assert t[|body| + |R.CLOSE_CALL|..] == rest;
  }

  /** What calls say after one, or where there is none, begins with the first. */
  lemma CallComes(f: Floats, h: R.Held, calls: seq<Tree>, apart: bool)
    requires Sound(f) && calls != []
    ensures R.Reading(Rules(f), R.AfterCall, h, CallsText(f, calls, apart)) ==
        R.Reading(Rules(f), R.Tool, h, BodyOf(f, calls[0]) + R.CLOSE_CALL + CallsText(f, calls[1..], true))
  {
    hide BodyOf;
    hide Rules;
    hide Sound;
    hide R.Reading;
    var tail := BodyOf(f, calls[0]) + R.CLOSE_CALL + CallsText(f, calls[1..], true);
    var gap := if apart then NL else [];
    CallsBegin(f, calls, apart);
    TagFirst(R.OPEN_CALL, tail);
    R.AfterSpace(Rules(f), h, gap, R.OPEN_CALL + tail);
    R.AfterHere(Rules(f), h, R.OPEN_CALL + tail);
  }

  lemma CallsBegin(f: Floats, calls: seq<Tree>, apart: bool)
    requires Sound(f) && calls != []
    ensures CallsText(f, calls, apart) == (if apart then NL else []) +
        (R.OPEN_CALL + (BodyOf(f, calls[0]) + R.CLOSE_CALL + CallsText(f, calls[1..], true)))
  {
    hide BodyOf;
    hide Sound;
    Regroup(if apart then NL else [], R.OPEN_CALL, BodyOf(f, calls[0]), R.CLOSE_CALL, CallsText(f, calls[1..], true));
  }

  lemma Regroup(gap: Bytes, open: Bytes, body: Bytes, close: Bytes, rest: Bytes)
    ensures gap + (open + body + close) + rest == gap + (open + (body + close + rest))
  {
  }

  lemma TagFirst(tag: Bytes, tail: Bytes)
    requires tag != []
    ensures var t := tag + tail; t != [] && t[0] == tag[0] && R.At(t, 0, tag) && t[|tag|..] == tail
  {
    assert (tag + tail)[..|tag|] == tag;
  }

  /** Calls read from after one, or from where there is none. */
  lemma {:induction false} ReadCalls(f: Floats, h: R.Held, calls: seq<Tree>, apart: bool)
    requires Sound(f) && AllReadable(f, calls)
    ensures R.Reading(Rules(f), R.AfterCall, h, CallsText(f, calls, apart)) == CallEvents(f, calls)
    decreases |calls|
  {
    hide BodyOf;
    hide Readable;
    hide Rules;
    hide CallRead;
    hide Sound;
    hide R.Find;
    hide R.PartBytes;
    if calls != [] {
      CallComes(f, h, calls, apart);
      ReadCall(f, h, calls[0], CallsText(f, calls[1..], true));
      ReadCalls(f, h, calls[1..], true);
    }
  }

  /** Text and the calls after it. */
  lemma ReadText(f: Floats, content: Bytes, calls: seq<Tree>)
    requires Sound(f) && NoTag(LStrip(content), R.OPEN_CALL) && AllReadable(f, calls)
    ensures R.Reading(Rules(f), R.InText, R.FRESH, NL + (NL + LStrip(content)) + CallsText(f, calls, content != []))
         == R.SpanEvents(R.Text, if calls == [] then LStrip(content) else Strip(content)) + CallEvents(f, calls)
  {
    var said := LStrip(content);
    var x := NL + (NL + said);
    CallTags();
    NoTagPadded(said, R.OPEN_CALL);
    NoTagPadded(NL + said, R.OPEN_CALL);
    StripFrontLine(NL + said);
    StripFrontLine(said);
    LStripDone(content);
    if calls == [] {
      assert x + [] == x;
      TextOnly(f, x);
      assert R.SpanEvents(R.Text, said) + [] == R.SpanEvents(R.Text, said);
    } else {
      var line := if content != [] then x + NL else x;
      NoTagPadded(x, R.OPEN_CALL);
      StripBackLine(x);
      var rest := CallsText(f, calls[1..], true);
      var after := BodyOf(f, calls[0]) + R.CLOSE_CALL + rest;
      TextAndCalls(line, x, if content != [] then NL else [], BodyOf(f, calls[0]), rest);
      assert EndsLine(line);
      assert AllReadable(f, calls[1..]);
      TextThenCall(f, line, calls[0], rest);
      var h := R.Held(0, R.PartBytes(R.FRESH, R.Text, line).0.any);
      ReadCalls(f, h, calls[1..], true);
      CallFirst(f, calls);
    }
  }

  lemma CallFirst(f: Floats, calls: seq<Tree>)
    requires Sound(f) && calls != [] && AllGood(f, calls)
    ensures CallEvents(f, calls) == [R.OneCall(CallRead(f, calls[0]))] + CallEvents(f, calls[1..])
  {
  }

  lemma TextAndCalls(line: Bytes, x: Bytes, gap: Bytes, body: Bytes, rest: Bytes)
    requires line == x + gap
    ensures x + (gap + (R.OPEN_CALL + body + R.CLOSE_CALL) + rest) == line + R.OPEN_CALL + (body + R.CLOSE_CALL + rest)
  {
  }

  lemma TextOnly(f: Floats, x: Bytes)
    requires Sound(f) && NoTag(x, R.OPEN_CALL)
    ensures R.Reading(Rules(f), R.InText, R.FRESH, x) == R.SpanEvents(R.Text, LStrip(x))
  {
    hide R.PartBytes;
    PartSays(R.Text, x);
  }

  lemma TextThenCall(f: Floats, line: Bytes, call: Tree, rest: Bytes)
    requires Sound(f) && Readable(f, call) && EndsLine(line) && NoTag(line, R.OPEN_CALL)
    ensures var h := R.Held(0, R.PartBytes(R.FRESH, R.Text, line).0.any);
            R.Reading(Rules(f), R.InText, R.FRESH, line + R.OPEN_CALL + (BodyOf(f, call) + R.CLOSE_CALL + rest)) ==
              R.SpanEvents(R.Text, Strip(line)) +
                  ([R.OneCall(CallRead(f, call))] + R.Reading(Rules(f), R.AfterCall, h, rest))
  {
    hide BodyOf;
    hide CallRead;
    hide GoodCall;
    hide CallOf;
    hide R.PartBytes;
    hide R.Find;
    var after := BodyOf(f, call) + R.CLOSE_CALL + rest;
    var t := line + R.OPEN_CALL + after;
    CallTags();
    TagFound(line, R.OPEN_CALL, after);
    PartSays(R.Text, line);
    assert t[..|line|] == line;
    assert t[|line| + |R.OPEN_CALL|..] == after;
    ReadCall(f, R.Held(0, R.PartBytes(R.FRESH, R.Text, line).0.any), call, rest);
  }

  /** A message's own reasoning and content: its members, or its content taken apart as the template's Python does. */
  function Own(m: Tree): (Bytes, Bytes) {
    var content := match StrMember(m, CONTENT) case Some(c) => c case None => [];
    match StrMember(m, REASONING_CONTENT)
    case Some(r) => (r, content)
    case None =>
      if NoTag(content, R.CLOSE_THINK) then ([], content)
      else
        (LStrip(AfterSplit(RStrip(Split(content, R.CLOSE_THINK)[0]), R.OPEN_THINK)),
         LStrip(AfterSplit(content, R.CLOSE_THINK)))
  }

  /** Whether a turn keeps its reasoning: after the last query, the last message or one with any. */
  predicate Shows(m: Tree, after: bool, last: bool) { after && (last || Own(m).0 != []) }

  /**
   * What stands between a turn's markers. A turn that keeps its reasoning is
   * written as the final one is. Any other begins with its message's own
   * content, and is that content when there are no calls; with calls, and no
   * tag inside, it is read as the content and the calls.
   */
  ghost predicate IsTurn(f: Floats, m: Tree, after: bool, last: bool, t: Bytes)
    requires Sound(f)
  {
    if Shows(m, after, last) then t == TurnText(f, m, true, true) else IsPlain(f, Own(m).1, Calls(m), t)
  }

  ghost predicate IsPlain(f: Floats, content: Bytes, calls: seq<Tree>, t: Bytes)
    requires Sound(f)
  {
    && content <= t && (calls == [] ==> t == content)
    && (AllReadable(f, calls) && NoTag(content, R.OPEN_CALL) ==>
          R.Reading(Rules(f), R.InText, R.FRESH, t) ==
            R.SpanEvents(R.Text, if calls == [] then LStrip(content) else Strip(content)) + CallEvents(f, calls))
  }

  lemma PartsAreOwn(m: Tree)
    ensures Parts(m) == Own(m)
  {
    hide R.Find;
    hide Split;
    hide LStrip;
    hide RStrip;
    var content := match StrMember(m, CONTENT) case Some(c) => c case None => [];
    if !NoTag(content, R.CLOSE_THINK) {
      TakenApartAsPython(content);
      hide TakenApart;
    }
  }

  lemma TurnIsOwn(f: Floats, m: Tree, after: bool, last: bool)
    requires Sound(f)
    ensures IsTurn(f, m, after, last, TurnText(f, m, after, last))
  {
    hide TurnText;
    hide Own;
    hide Shows;
    hide IsPlain;
    WrittenTurn(f, m, after, last);
    if !Shows(m, after, last) { PlainIs(f, Own(m).1, Calls(m)); }
  }

  lemma PlainIs(f: Floats, content: Bytes, calls: seq<Tree>)
    requires Sound(f)
    ensures IsPlain(f, content, calls, content + CallsText(f, calls, content != []))
  {
    hide R.Reading;
    hide R.Find;
    hide LStrip;
    hide RStrip;
    hide Rules;
    hide CallEvents;
    hide Readable;
    NothingAfter(f, content);
    if AllReadable(f, calls) && NoTag(content, R.OPEN_CALL) { ReadPlainTurn(f, content, calls); }
  }

  lemma NothingAfter(f: Floats, content: Bytes)
    requires Sound(f)
    ensures content + CallsText(f, [], content != []) == content
  {
    assert content + [] == content;
  }

  lemma WrittenTurn(f: Floats, m: Tree, after: bool, last: bool)
    requires Sound(f)
    ensures var content := Own(m).1;
            TurnText(f, m, after, last) ==
              if Shows(m, after, last) then TurnText(f, m, true, true)
              else content + CallsText(f, Calls(m), content != [])
  {
    PartsAreOwn(m);
    hide Parts;
    hide Own;
  }

  /** Content alone, or with calls after it, read as text. */
  lemma ReadPlainTurn(f: Floats, content: Bytes, calls: seq<Tree>)
    requires Sound(f) && AllReadable(f, calls) && NoTag(content, R.OPEN_CALL)
    ensures AllGood(f, calls)
    ensures R.Reading(Rules(f), R.InText, R.FRESH, content + CallsText(f, calls, content != [])) ==
              R.SpanEvents(R.Text, if calls == [] then LStrip(content) else Strip(content)) + CallEvents(f, calls)
  {
    GoodIfReadable(f, calls);
    hide *;
    if calls == [] {
      PlainAlone(f, content);
    } else {
      FirstReadable(f, calls);
      CallsBegin(f, calls, content != []);
      CallFirst(f, calls);
      var rest := CallsText(f, calls[1..], true);
      if content != [] { TextToCall(f, content, calls[0], rest); } else { CallAtOnce(f, calls[0], rest); }
      var h := if content == [] then R.FRESH else R.Held(0, R.PartBytes(R.FRESH, R.Text, content + NL).0.any);
      ReadCalls(f, h, calls[1..], true);
    }
  }

  lemma PlainAlone(f: Floats, content: Bytes)
    requires Sound(f) && NoTag(content, R.OPEN_CALL)
    ensures AllGood(f, [])
    ensures R.Reading(Rules(f), R.InText, R.FRESH, content + CallsText(f, [], content != [])) ==
              R.SpanEvents(R.Text, LStrip(content)) + CallEvents(f, [])
  {
    hide R.Reading;
    hide R.Find;
    hide LStrip;
    assert content + [] == content;
    TextOnly(f, content);
    assert R.SpanEvents(R.Text, LStrip(content)) + [] == R.SpanEvents(R.Text, LStrip(content));
  }

  /** Content, a newline, and a call. */
  lemma TextToCall(f: Floats, content: Bytes, call: Tree, rest: Bytes)
    requires Sound(f) && Readable(f, call) && NoTag(content, R.OPEN_CALL)
    ensures var h := R.Held(0, R.PartBytes(R.FRESH, R.Text, content + NL).0.any);
            R.Reading(Rules(f), R.InText, R.FRESH,
                      content + (NL + (R.OPEN_CALL + (BodyOf(f, call) + R.CLOSE_CALL + rest)))) ==
              R.SpanEvents(R.Text, Strip(content)) +
                  ([R.OneCall(CallRead(f, call))] + R.Reading(Rules(f), R.AfterCall, h, rest))
  {
    hide R.Reading;
    hide R.Find;
    hide R.PartBytes;
    hide BodyOf;
    hide Readable;
    hide CallRead;
    hide LStrip;
    hide RStrip;
    var z := BodyOf(f, call) + R.CLOSE_CALL + rest;
    CallTags();
    NoTagPadded(content, R.OPEN_CALL);
    StripBackLine(content);
    assert content + (NL + (R.OPEN_CALL + z)) == (content + NL) + R.OPEN_CALL + z;
    TextThenCall(f, content + NL, call, rest);
  }

  /** A call where text would begin. */
  lemma CallAtOnce(f: Floats, call: Tree, rest: Bytes)
    requires Sound(f) && Readable(f, call)
    ensures R.Reading(Rules(f), R.InText, R.FRESH,
                      [] + ([] + (R.OPEN_CALL + (BodyOf(f, call) + R.CLOSE_CALL + rest)))) ==
              R.SpanEvents(R.Text, Strip([])) +
                  ([R.OneCall(CallRead(f, call))] + R.Reading(Rules(f), R.AfterCall, R.FRESH, rest))
  {
    hide R.Reading;
    hide BodyOf;
    hide Readable;
    hide CallRead;
    var z := BodyOf(f, call) + R.CLOSE_CALL + rest;
    assert [] + ([] + (R.OPEN_CALL + z)) == R.OPEN_CALL + z;
    BlockAtOnce(f, z);
    ReadCall(f, R.FRESH, call, rest);
  }

  lemma FirstReadable(f: Floats, calls: seq<Tree>)
    requires Sound(f) && AllReadable(f, calls) && calls != []
    ensures Readable(f, calls[0]) && GoodCall(f, calls[0]) && AllReadable(f, calls[1..]) && AllGood(f, calls[1..])
  {
    hide GoodCall;
  }

  lemma GoodIfReadable(f: Floats, calls: seq<Tree>)
    requires Sound(f) && AllReadable(f, calls)
    ensures AllGood(f, calls)
  {
  }

  /** A block where text begins. */
  lemma BlockAtOnce(f: Floats, z: Bytes)
    requires Sound(f)
    ensures R.Reading(Rules(f), R.InText, R.FRESH, R.OPEN_CALL + z) == R.Reading(Rules(f), R.Tool, R.FRESH, z)
    ensures Strip([]) == [] && R.SpanEvents(R.Text, []) == []
  {
    hide R.Find;
    var t := R.OPEN_CALL + z;
    TagFirst(R.OPEN_CALL, z);
    R.FoundFirst(t, R.OPEN_CALL, 0);
    assert t[..0] == [];
  }

  /** Whether nothing in a turn passes for a tag that is not its own. */
  predicate ReadableTurn(f: Floats, m: Tree)
    requires Sound(f)
  {
    var (reasoning, content) := Parts(m);
    NoTag(Strip(reasoning), R.CLOSE_THINK) && NoTag(LStrip(content), R.OPEN_CALL) && AllReadable(f, Calls(m))
  }

  /** What a final turn says: its reasoning stripped, its text, and its calls. */
  function TurnEvents(f: Floats, m: Tree): seq<R.Event>
    requires Sound(f) && AllGood(f, Calls(m))
  {
    var (reasoning, content) := Parts(m);
    var calls := Calls(m);
    R.SpanEvents(R.Reasoning, Strip(reasoning))
    + (R.SpanEvents(R.Text, if calls == [] then LStrip(content) else Strip(content)) + CallEvents(f, calls))
  }

  /** A final turn the template writes is read back as what it says. */
  lemma TurnReadBack(f: Floats, m: Tree)
    requires Sound(f) && ReadableTurn(f, m)
    ensures R.Read(Rules(f), TurnText(f, m, true, true)) == TurnEvents(f, m)
  {
    hide Rules;
    hide R.PartBytes;
    hide R.Find;
    hide CallsText;
    hide CallEvents;
    hide Readable;
    hide Parts;
    hide LStrip;
    hide RStrip;
    var (reasoning, content) := Parts(m);
    var calls := CallsText(f, Calls(m), content != []);
    var inside := Strip(reasoning);
    var x := NL + inside + NL;
    var after := NL + (NL + LStrip(content)) + calls;
    var t1 := x + R.CLOSE_THINK + after;
    TurnShape(inside, LStrip(content), calls);
    assert TurnText(f, m, true, true) == R.OPEN_THINK + t1;
    ReasonRead(f, inside, after);
    StripTwice(reasoning);
    ReadText(f, content, Calls(m));
  }

  lemma TurnShape(inside: Bytes, said: Bytes, calls: Bytes)
    ensures (R.OPEN_THINK + NL + inside + NL + R.CLOSE_THINK + NL + NL + said) + calls
         == R.OPEN_THINK + (NL + inside + NL + R.CLOSE_THINK + (NL + (NL + said) + calls))
  {
  }

  lemma ReasonRead(f: Floats, inside: Bytes, after: Bytes)
    requires Sound(f) && NoTag(inside, R.CLOSE_THINK)
    ensures R.Read(Rules(f), R.OPEN_THINK + (NL + inside + NL + R.CLOSE_THINK + after))
         == R.SpanEvents(R.Reasoning, Strip(inside)) + R.Reading(Rules(f), R.InText, R.FRESH, after)
  {
    hide R.PartBytes;
    hide R.Find;
    var x := NL + inside + NL;
    var t1 := x + R.CLOSE_THINK + after;
    var t := R.OPEN_THINK + t1;
    assert t[..|R.OPEN_THINK|] == R.OPEN_THINK && t[|R.OPEN_THINK|..] == t1;
    assert R.Read(Rules(f), t) == R.Reading(Rules(f), R.Reason, R.FRESH, t1);
    CallTags();
    NoTagPadded(inside, R.CLOSE_THINK);
    NoTagPadded(NL + inside, R.CLOSE_THINK);
    TagFound(x, R.CLOSE_THINK, after);
    assert t1[..|x|] == x && t1[|x| + |R.CLOSE_THINK|..] == after;
    PartSays(R.Reasoning, x);
    StripFrontLine(inside);
    StripBackLine(NL + inside);
  }

  // ---- What its own tag inside reasoning does ----

  /** The reasoning that events say. */
  function ReasoningIn(es: seq<R.Event>): Bytes {
    if es == [] then []
    else (if es[0].OneByte? && es[0].kind.Reasoning? then [es[0].b] else []) + ReasoningIn(es[1..])
  }

  lemma {:induction false} ReasoningInBoth(a: seq<R.Event>, b: seq<R.Event>)
    ensures ReasoningIn(a + b) == ReasoningIn(a) + ReasoningIn(b)
    decreases a
  {
    if a == [] {
      assert a + b == b;
    } else {
      assert (a + b)[1..] == a[1..] + b;
      ReasoningInBoth(a[1..], b);
    }
  }

  lemma {:induction false} ReasoningInSpan(kind: R.Kind, s: Bytes)
    ensures ReasoningIn(R.SpanEvents(kind, s)) == if kind.Reasoning? then s else []
    decreases s
  {
    if s != [] {
      assert R.SpanEvents(kind, s)[1..] == R.SpanEvents(kind, s[1..]);
      ReasoningInSpan(kind, s[1..]);
    }
  }

  lemma {:induction false} NoReasoningInNewlines(n: nat)
    ensures ReasoningIn(R.Newlines(R.Text, n)) == []
  {
    if n > 0 {
      assert R.Newlines(R.Text, n)[1..] == R.Newlines(R.Text, n - 1);
      NoReasoningInNewlines(n - 1);
    }
  }

  lemma NoReasoningReleased(h: R.Held)
    ensures ReasoningIn(R.Released(R.Text, h)) == []
  {
    NoReasoningInNewlines(h.nl);
  }

  lemma {:induction false} NoReasoningInText(h: R.Held, s: Bytes)
    ensures ReasoningIn(R.PartBytes(h, R.Text, s).1) == []
    decreases |s|
  {
    if s != [] {
      var n := |s| - 1;
      NoReasoningInText(h, s[..n]);
      var (h1, e1) := R.PartBytes(h, R.Text, s[..n]);
      var (h2, e2) := R.PartByte(h1, R.Text, s[n]);
      NoReasoningReleased(h1);
      ReasoningInBoth(R.Released(R.Text, h1), [R.OneByte(R.Text, s[n])]);
      ReasoningInBoth(e1, e2);
    }
  }

  lemma NoReasoningAtEnd(h: R.Held, s: Bytes)
    ensures ReasoningIn(R.TextEnd(h, s)) == []
  {
    var (h', e) := R.PartBytes(h, R.Text, s);
    NoReasoningInText(h, s);
    NoReasoningReleased(h');
    ReasoningInBoth(e, R.Released(R.Text, h'));
  }

  /** Once reasoning is over, nothing more is read as reasoning. */
  lemma {:induction false} NoMoreReasoning(r: R.Rules, phase: R.Phase, h: R.Held, t: Bytes)
    requires !phase.Start? && !phase.Reason?
    ensures ReasoningIn(R.Reading(r, phase, h, t)) == []
    decreases |t|, R.Rank(phase)
  {
    hide R.PartBytes;
    hide R.Find;
    match phase
    case InText =>
      var c := R.FindCall(r, t);
      if c.Some? {
        FirstFits(t, R.OPEN_CALL);
        var (h', e) := R.PartBytes(h, R.Text, t[..c.value]);
        NoReasoningInText(h, t[..c.value]);
        var rest := t[c.value + |R.OPEN_CALL|..];
        NoMoreReasoning(r, R.Tool, R.Held(0, h'.any), rest);
        ReasoningInBoth(e, R.Reading(r, R.Tool, R.Held(0, h'.any), rest));
      } else {
        NoReasoningAtEnd(h, t);
      }
    case Tool =>
      var c := R.Find(t, R.CLOSE_CALL);
      if c.Some? {
        FirstFits(t, R.CLOSE_CALL);
        var body, rest := t[..c.value], t[c.value + |R.CLOSE_CALL|..];
        var text := R.OPEN_CALL + body + R.CLOSE_CALL;
        var (h', e) := R.PartBytes(h, R.Text, text);
        NoReasoningInText(h, text);
        NoMoreReasoning(r, R.AfterCall, h, rest);
        NoMoreReasoning(r, R.AfterCall, h', rest);
        ReasoningInBoth(e, R.Reading(r, R.AfterCall, h', rest));
      } else {
        NoReasoningAtEnd(h, R.OPEN_CALL + t);
      }
    case AfterCall =>
      var rest := R.SkipSpace(t);
      if rest != [] {
        if R.At(rest, 0, R.OPEN_CALL) {
          NoMoreReasoning(r, R.Tool, h, rest[|R.OPEN_CALL|..]);
        } else {
          NoMoreReasoning(r, R.InText, R.FRESH, rest);
        }
      }
    case Finished =>
  }

  lemma {:induction false} StripShrinks(s: Bytes)
    ensures |LStrip(s)| <= |s|
  {
    if s != [] && s[0] == R.NEWLINE { StripShrinks(s[1..]); }
  }

  lemma {:induction false} RStripShrinks(s: Bytes)
    ensures |RStrip(s)| <= |s|
    decreases |s|
  {
    if s != [] && s[|s| - 1] == R.NEWLINE { RStripShrinks(s[..|s| - 1]); }
  }

  /** A tag inside comes before the one that closes, and what is read ends there. */
  lemma ReasoningCutShort(inside: Bytes, after: Bytes)
    requires !NoTag(inside, R.CLOSE_THINK)
    ensures var t := NL + inside + NL + R.CLOSE_THINK + after;
            var c := R.Find(t, R.CLOSE_THINK);
            c.Some? && c.value <= |t| && |Strip(t[..c.value])| < |inside|
  {
    hide R.Find;
    hide R.At;
    hide LStrip;
    hide RStrip;
    var p := R.Find(inside, R.CLOSE_THINK).value;
    var tail := NL + R.CLOSE_THINK + after;
    assert NL + inside + NL + R.CLOSE_THINK + after == NL + (inside + tail);
    CallTags();
    TagInside(inside, tail, R.CLOSE_THINK);
    StripFrontLine(inside[..p]);
    StripShrinks(inside[..p]);
    RStripShrinks(LStrip(inside[..p]));
  }

  /** A tag inside a text is the first there is, one newline later, when a line is put before it. */
  lemma TagInside(inside: Bytes, tail: Bytes, tag: Bytes)
    requires OneLine(tag) && R.Find(inside, tag).Some?
    ensures var p := R.Find(inside, tag).value;
            && p < |inside| && R.Find(NL + (inside + tail), tag) == Some(p + 1)
            && (NL + (inside + tail))[..p + 1] == NL + inside[..p]
  {
    hide R.Find;
    var p := R.Find(inside, tag).value;
    var rest := inside + tail;
    FirstFits(inside, tag);
    R.FoundStays(inside, tail, tag);
    NotAtLine(rest, tag);
    hide R.At;
    forall i | 0 < i < p + 1 ensures !R.At(NL + rest, i, tag) { R.AtShifted(NL, rest, i, tag); }
    R.AtShifted(NL, rest, p + 1, tag);
    R.FoundFirst(NL + rest, tag, p + 1);
  }

  lemma NotAtLine(rest: Bytes, tag: Bytes)
    requires OneLine(tag)
    ensures !R.At(NL + rest, 0, tag)
  {
    var t := NL + rest;
    assert |tag| <= |t| ==> t[0..|tag|][0] == R.NEWLINE;
  }

  /**
   * A final turn's reasoning is read back exactly when its own closing tag is not inside it,
   * whatever the text and the calls are.
   */
  lemma ReasoningReadBack(f: Floats, m: Tree)
    requires Sound(f)
    ensures var inside := Strip(Parts(m).0);
            ReasoningIn(R.Read(Rules(f), TurnText(f, m, true, true))) == inside <==> NoTag(inside, R.CLOSE_THINK)
  {
    hide R.PartBytes;
    hide R.Find;
    hide CallsText;
    hide Parts;
    hide LStrip;
    hide RStrip;
    hide CallOf;
    var (reasoning, content) := Parts(m);
    var inside := Strip(reasoning);
    var after := NL + (NL + LStrip(content)) + CallsText(f, Calls(m), content != []);
    TurnShape(inside, LStrip(content), CallsText(f, Calls(m), content != []));
    StripTwice(reasoning);
    if NoTag(inside, R.CLOSE_THINK) {
      ReasonRead(f, inside, after);
      ReasoningInSpan(R.Reasoning, inside);
      NoMoreReasoning(Rules(f), R.InText, R.FRESH, after);
      ReasoningInBoth(R.SpanEvents(R.Reasoning, inside), R.Reading(Rules(f), R.InText, R.FRESH, after));
    } else {
      ReasonCut(f, inside, after);
    }
  }

  lemma Opens(f: Floats, rest: Bytes)
    requires Sound(f)
    ensures R.Read(Rules(f), R.OPEN_THINK + rest) == R.Reading(Rules(f), R.Reason, R.FRESH, rest)
  {
    hide R.PartBytes;
    hide R.Find;
    var t := R.OPEN_THINK + rest;
    assert t[..|R.OPEN_THINK|] == R.OPEN_THINK && t[|R.OPEN_THINK|..] == rest;
  }

  lemma ReasonCut(f: Floats, inside: Bytes, after: Bytes)
    requires Sound(f) && !NoTag(inside, R.CLOSE_THINK)
    ensures |ReasoningIn(R.Read(Rules(f), R.OPEN_THINK + (NL + inside + NL + R.CLOSE_THINK + after)))| < |inside|
  {
    hide R.PartBytes;
    hide R.Find;
    hide LStrip;
    hide RStrip;
    hide ReasoningIn;
    hide CallOf;
    var t1 := NL + inside + NL + R.CLOSE_THINK + after;
    Opens(f, t1);
    ReasoningCutShort(inside, after);
    FirstFits(t1, R.CLOSE_THINK);
    var c := R.Find(t1, R.CLOSE_THINK).value;
    var rest := t1[c + |R.CLOSE_THINK|..];
    PartSays(R.Reasoning, t1[..c]);
    ReasoningInSpan(R.Reasoning, Strip(t1[..c]));
    NoMoreReasoning(Rules(f), R.InText, R.FRESH, rest);
    ReasoningInBoth(R.SpanEvents(R.Reasoning, Strip(t1[..c])), R.Reading(Rules(f), R.InText, R.FRESH, rest));
  }
}
