/**
 * One conversation in three shapes: whatever the system message, the user's
 * texts and tool results and the assistant's reasoning, texts and calls, and
 * however many pieces each comes in, the chat, Messages and Responses requests
 * that say it become the same messages, with a newline between two pieces.
 */
module ConvertAgree {
  import opened Basics
  import opened JsonGrammar
  import opened FloatRepr
  import opened JsonTree
  import opened ChatCall
  import opened ChatTurn
  import opened Convert

  // ---- A conversation ----

  /** Text as it comes: one string, or a list of parts. */
  datatype Words = Whole(text: Bytes) | Parts(texts: seq<Bytes>) {
    function Pieces(): seq<Bytes> { if Whole? then [text] else texts }

    /** What it says. */
    function All(): Bytes { Lines(Pieces()) }
  }

  datatype Result = Result(id: Bytes, text: Words)

  /** What the user says: results of calls, then text. */
  datatype Ask = Ask(results: seq<Result>, text: Option<Words>)

  /** A call: its arguments are an object, and text is that object's JSON. */
  datatype Use = Use(id: Bytes, name: Bytes, args: Tree, text: Bytes)

  /** Pieces of reasoning, none if it has none; its text; and its calls. */
  datatype Reply = Reply(reasoning: seq<Bytes>, text: Words, uses: seq<Use>)

  datatype Exchange = Exchange(reply: Reply, ask: Ask)

  /** Asks and replies in turn, the last an ask. */
  datatype Talking = Talking(system: Option<Words>, first: Ask, rest: seq<Exchange>)

  predicate WfAsk(a: Ask) {
    (a.results != [] || a.text.Some?) && (a.text.Some? ==> a.text.value.Pieces() != [])
  }

  predicate WfUse(u: Use) { u.args.Members? && ReadTree(u.text) == Some(u.args) }

  predicate WfReply(r: Reply) { forall k :: 0 <= k < |r.uses| ==> WfUse(r.uses[k]) }

  predicate WfTalking(t: Talking) {
    WfAsk(t.first) && forall k :: 0 <= k < |t.rest| ==> WfReply(t.rest[k].reply) && WfAsk(t.rest[k].ask)
  }

  // ---- Pieces of text ----

  /** Pieces one after another, a newline between each two. */
  function Lines(ts: seq<Bytes>): Bytes {
    if ts == [] then [] else if |ts| == 1 then ts[0] else ts[0] + ([0x0A] + Lines(ts[1..]))
  }

  /** Where piece k begins: after the pieces before it and a newline after each. */
  function Offset(ts: seq<Bytes>, k: nat): nat
    requires k <= |ts|
  {
    if k == 0 then 0 else Offset(ts, k - 1) + |ts[k - 1]| + 1
  }

  lemma {:induction false} OffsetLater(ts: seq<Bytes>, k: nat)
    requires 0 < k <= |ts|
    ensures Offset(ts, k) == |ts[0]| + 1 + Offset(ts[1..], k - 1)
  {
    if k > 1 { OffsetLater(ts, k - 1); }
  }

  /** Lines are as long as their pieces and the newlines between, each piece is at its own place, and newlines join. */
  lemma {:induction false} LinesHold(ts: seq<Bytes>, k: nat)
    requires k < |ts|
    ensures |Lines(ts)| + 1 == Offset(ts, |ts|)
    ensures Offset(ts, k) + |ts[k]| <= |Lines(ts)|
    ensures Lines(ts)[Offset(ts, k)..Offset(ts, k) + |ts[k]|] == ts[k]
    ensures k + 1 < |ts| ==> Offset(ts, k) + |ts[k]| < |Lines(ts)| && Lines(ts)[Offset(ts, k) + |ts[k]|] == 0x0A
    decreases |ts|
  {
    OffsetLater(ts, |ts|);
    if |ts| > 1 {
      var more := ts[1..];
      var later := if k == 0 then 0 else k - 1;
      LinesHold(more, later);
      LineAfter(ts[0], Lines(more), Offset(more, later), |more[later]|);
      if k > 0 { OffsetLater(ts, k); }
    }
  }

  lemma LineAfter(a: Bytes, b: Bytes, from: nat, n: nat)
    requires from + n <= |b|
    ensures var t := a + ([0x0A] + b);
            && |t| == |a| + 1 + |b| && t[..|a|] == a && t[|a|] == 0x0A
            && t[|a| + 1 + from..|a| + 1 + from + n] == b[from..from + n]
            && (from + n < |b| ==> t[|a| + 1 + from + n] == b[from + n])
  {
  }

  /** Reasoning, if there is any. */
  function Thoughts(ps: seq<Bytes>): Option<Bytes> { if ps == [] then None else Some(Lines(ps)) }

  // ---- What it comes to ----

  function AskSays(a: Ask): seq<OutMsg> {
    ResultsSay(a.results) + (if a.text.Some? then [Alone(USER, a.text.value.All(), None)] else [])
  }

  function ResultsSay(rs: seq<Result>): seq<OutMsg> {
    if rs == [] then [] else [ResultSays(rs[0])] + ResultsSay(rs[1..])
  }

  function ResultSays(x: Result): OutMsg { Alone(ROLE_TOOL, x.text.All(), Some(x.id)) }

  function UsesSay(put: Put, us: seq<Use>): seq<OutCall> {
    if us == [] then [] else [OutCall(us[0].id, us[0].name, put(Some(us[0].args)))] + UsesSay(put, us[1..])
  }

  function ReplySays(put: Put, r: Reply): OutMsg { Turn(r.text.All(), Thoughts(r.reasoning), UsesSay(put, r.uses)) }

  function RestSays(put: Put, xs: seq<Exchange>): seq<OutMsg> {
    if xs == [] then [] else [ReplySays(put, xs[0].reply)] + AskSays(xs[0].ask) + RestSays(put, xs[1..])
  }

  function SystemSays(s: Option<Words>): seq<OutMsg> {
    if s.Some? then [Alone(ROLE_SYSTEM, s.value.All(), None)] else []
  }

  function Says(put: Put, t: Talking): seq<OutMsg> { SystemSays(t.system) + (AskSays(t.first) + RestSays(put, t.rest)) }

  /** Arguments in an object and in a string of its JSON are written the same. */
  ghost predicate PutsAlike(put: Put) {
    forall u: Use :: WfUse(u) ==> put(Some(Text(u.text))) == put(Some(u.args))
  }

  // ---- Objects of a few members ----

  function One(k: Bytes, v: Tree): Tree { Members([Member(k, v)]) }

  function Two(k1: Bytes, v1: Tree, k2: Bytes, v2: Tree): Tree { Members([Member(k1, v1), Member(k2, v2)]) }

  function Three(k1: Bytes, v1: Tree, k2: Bytes, v2: Tree, k3: Bytes, v3: Tree): Tree {
    Members([Member(k1, v1), Member(k2, v2), Member(k3, v3)])
  }

  function Four(k1: Bytes, v1: Tree, k2: Bytes, v2: Tree, k3: Bytes, v3: Tree, k4: Bytes, v4: Tree): Tree {
    Members([Member(k1, v1), Member(k2, v2), Member(k3, v3), Member(k4, v4)])
  }

  lemma FirstOf(m: Member, ms: seq<Member>, key: Bytes)
    ensures FirstWith([m] + ms, key) == if m.key == key then Some(m.value) else FirstWith(ms, key)
  {
    assert ([m] + ms)[1..] == ms;
  }

  lemma GetOne(k: Bytes, v: Tree, key: Bytes)
    ensures Get(One(k, v), key) == if key == k then Some(v) else None
  {
    assert [Member(k, v)] + [] == [Member(k, v)];
    FirstOf(Member(k, v), [], key);
  }

  /** One more at the end of what is there. */
  lemma Grown<T>(out: seq<T>, x: T, more: seq<T>)
    ensures out + [x] + more == out + ([x] + more) && out + [] == out
  {
  }

  lemma Regrouped<T>(out: seq<T>, a: seq<T>, b: seq<T>, c: seq<T>)
    ensures out + a + b + c == out + (a + b + c) && a + b + c == a + (b + c)
  {
  }

  /** What is said after an exchange, and all from it on. */
  lemma RestSaysMore(put: Put, out: seq<OutMsg>, xs: seq<Exchange>)
    requires xs != []
    ensures out + [ReplySays(put, xs[0].reply)] + AskSays(xs[0].ask) + RestSays(put, xs[1..]) == out + RestSays(put, xs)
  {
    hide ReplySays;
    hide AskSays;
    Regrouped(out, [ReplySays(put, xs[0].reply)], AskSays(xs[0].ask), RestSays(put, xs[1..]));
  }

  lemma RestSaysNone(put: Put, out: seq<OutMsg>)
    ensures out + RestSays(put, []) == out
  {
  }

  lemma GetTwo(k1: Bytes, v1: Tree, k2: Bytes, v2: Tree, key: Bytes)
    ensures Get(Two(k1, v1, k2, v2), key) == if key == k1 then Some(v1) else if key == k2 then Some(v2) else None
  {
    var m1, m2 := Member(k1, v1), Member(k2, v2);
    FirstOf(m2, [], key);
    assert [m2] + [] == [m2] && [m1] + [m2] == [m1, m2];
    FirstOf(m1, [m2], key);
  }

  lemma GetThree(k1: Bytes, v1: Tree, k2: Bytes, v2: Tree, k3: Bytes, v3: Tree, key: Bytes)
    ensures Get(Three(k1, v1, k2, v2, k3, v3), key)
         == if key == k1 then Some(v1) else if key == k2 then Some(v2) else if key == k3 then Some(v3) else None
  {
    var m1 := Member(k1, v1);
    var more := [Member(k2, v2), Member(k3, v3)];
    GetTwo(k2, v2, k3, v3, key);
    assert [m1] + more == Three(k1, v1, k2, v2, k3, v3).members;
    FirstOf(m1, more, key);
  }

  lemma GetFour(k1: Bytes, v1: Tree, k2: Bytes, v2: Tree, k3: Bytes, v3: Tree, k4: Bytes, v4: Tree, key: Bytes)
    ensures Get(Four(k1, v1, k2, v2, k3, v3, k4, v4), key)
         == if key == k1 then Some(v1) else if key == k2 then Some(v2) else if key == k3 then Some(v3)
             else if key == k4 then Some(v4) else None
  {
    var m1 := Member(k1, v1);
    var more := [Member(k2, v2), Member(k3, v3), Member(k4, v4)];
    GetThree(k2, v2, k3, v3, k4, v4, key);
    assert [m1] + more == Four(k1, v1, k2, v2, k3, v3, k4, v4).members;
    FirstOf(m1, more, key);
  }

  /** A word with no NUL in it is what strcmp sees of it. */
  lemma {:induction false} WholeWord(s: Bytes)
    requires forall k :: 0 <= k < |s| ==> s[k] != 0
    ensures UpToNul(s) == s
    decreases s
  {
    if s != [] {
      WholeWord(s[1..]);
      assert s == [s[0]] + s[1..];
    }
  }

  lemma IsWord(s: Bytes, w: Bytes)
    requires forall k :: 0 <= k < |s| ==> s[k] != 0
    ensures StrIs(Some(Text(s)), w) <==> s == w
  {
    WholeWord(s);
  }

  // ---- Between messages ----

  /** Nothing being gathered. */
  function Closed(out: seq<OutMsg>): Conv { NO_CONV.(out := out) }

  /** An assistant's turn gathered, whole. */
  function Gathering(out: seq<OutMsg>, reasoning: Option<Bytes>, text: Bytes, calls: seq<OutCall>, anyText: bool): Conv
  {
    var why := if reasoning.Some? then reasoning.value else [];
    Conv(out, true, text, why, calls, anyText, reasoning.Some?, reasoning.Some?)
  }

  lemma GatheringCloses(out: seq<OutMsg>, reasoning: Option<Bytes>, text: Bytes, calls: seq<OutCall>, anyText: bool)
    ensures Flushed(Gathering(out, reasoning, text, calls, anyText)) == Closed(out + [Turn(text, reasoning, calls)])
  {
  }

  /** Text and reasoning join what is gathered, in either order. */
  lemma Gathers(out: seq<OutMsg>, reasoning: Option<Bytes>, text: Bytes, any: bool)
    requires text != [] ==> any
    ensures var c0 := Opened(Closed(out));
            var c1 := if any then Texted(c0, text) else c0;
            var c2 := if reasoning.Some? then Reasoned(c1, reasoning.value) else c1;
            c2 == Gathering(out, reasoning, text, [], any)
    ensures var c0 := Opened(Closed(out));
            var c1 := if reasoning.Some? then Reasoned(c0, reasoning.value) else c0;
            var c2 := if any then Texted(c1, text) else c1;
            c2 == Gathering(out, reasoning, text, [], any)
  {
    assert [] + text == text;
    assert reasoning.Some? ==> [] + reasoning.value == reasoning.value;
  }

  // ---- Pieces as they are given ----

  function TextPart(kind: Bytes, text: Bytes): Tree { Two(TYPE, Text(kind), TEXT, Text(text)) }

  function TextItems(kind: Bytes, ts: seq<Bytes>): seq<Tree> {
    if ts == [] then [] else [TextPart(kind, ts[0])] + TextItems(kind, ts[1..])
  }

  /** Words as a message's content. */
  function Content(kind: Bytes, w: Words): Tree {
    match w
    case Whole(text) => Text(text)
    case Parts(texts) => Items(TextItems(kind, texts))
  }

  /** The kinds of part the shapes have. */
  predicate Plainly(kind: Bytes, types: seq<Bytes>) {
    kind in types && kind in {TEXT, INPUT_TEXT, OUTPUT_TEXT, REASONING_TEXT}
  }

  /** Pieces gathered after what is gathered already. */
  function AndLines(g: Gathered, ts: seq<Bytes>): Gathered {
    if ts == [] then g else Gathered(if g.any then g.text + ([0x0A] + Lines(ts)) else g.text + Lines(ts), true)
  }

  lemma AndThenLines(g: Gathered, ts: seq<Bytes>)
    requires ts != []
    ensures AndLines(AndThen(g, ts[0]), ts[1..]) == AndLines(g, ts)
  {
    var before := if g.any then g.text + [0x0A] else g.text;
    assert AndThen(g, ts[0]).text == before + ts[0];
    if |ts| > 1 {
      Onto(before, ts[0], [0x0A] + Lines(ts[1..]));
    }
    assert g.any ==> before + Lines(ts) == g.text + ([0x0A] + Lines(ts));
  }

  lemma Onto(a: Bytes, b: Bytes, c: Bytes)
    ensures (a + b) + c == a + (b + c)
  {
  }

  lemma PartRead(kind: Bytes, types: seq<Bytes>, text: Bytes)
    requires Plainly(kind, types)
    ensures Known(TextPart(kind, text), types) && Get(TextPart(kind, text), TEXT) == Some(Text(text))
  {
    hide UpToNul;
    GetTwo(TYPE, Text(kind), TEXT, Text(text), TYPE);
    GetTwo(TYPE, Text(kind), TEXT, Text(text), TEXT);
    IsWord(kind, kind);
  }

  lemma {:induction false} PartsRead(kind: Bytes, types: seq<Bytes>, ts: seq<Bytes>, g: Gathered)
    requires Plainly(kind, types)
    ensures TextParts(TextItems(kind, ts), types, g) == Some(AndLines(g, ts))
    decreases ts
  {
    hide TextPart;
    hide Known;
    hide AndThen;
    hide AndLines;
    hide Lines;
    if ts == [] {
      NoMore(g);
    } else {
      PartRead(kind, types, ts[0]);
      PartsRead(kind, types, ts[1..], AndThen(g, ts[0]));
      AndThenLines(g, ts);
      assert TextItems(kind, ts)[1..] == TextItems(kind, ts[1..]);
    }
  }

  lemma NoMore(g: Gathered)
    ensures AndLines(g, []) == g
  {
  }

  /** Words are read as what they say, however they come. */
  lemma WordsRead(kind: Bytes, types: seq<Bytes>, w: Words)
    requires Plainly(kind, types)
    ensures TextOf(Some(Content(kind, w)), types, NO_TEXT) == Some(Gathered(w.All(), w.Pieces() != []))
    ensures Given(Some(Content(kind, w)))
  {
    hide Known;
    assert [] + w.All() == w.All();
    if w.Parts? { PartsRead(kind, types, w.texts, NO_TEXT); }
  }

  // ---- As chat completions ----

  function TextOrNull(s: Option<Bytes>): Tree { if s.Some? then Text(s.value) else Atom(Null) }

  function ChatUse(u: Use): Tree {
    Three(ID, Text(u.id), TYPE, Text(FUNCTION), FUNCTION, Two(NAME, Text(u.name), ARGUMENTS, Text(u.text)))
  }

  function ChatUses(us: seq<Use>): seq<Tree> { if us == [] then [] else [ChatUse(us[0])] + ChatUses(us[1..]) }

  function ChatReply(r: Reply): Tree {
    Four(ROLE, Text(ASSISTANT), CONTENT, Content(TEXT, r.text), REASONING_CONTENT, TextOrNull(Thoughts(r.reasoning)),
        TOOL_CALLS, Items(ChatUses(r.uses)))
  }

  function ChatResult(x: Result): Tree {
    Three(ROLE, Text(ROLE_TOOL), TOOL_CALL_ID, Text(x.id), CONTENT, Content(TEXT, x.text))
  }

  function ChatResults(rs: seq<Result>): seq<Tree> {
    if rs == [] then [] else [ChatResult(rs[0])] + ChatResults(rs[1..])
  }

  function Said(role: Bytes, w: Words): Tree { Two(ROLE, Text(role), CONTENT, Content(TEXT, w)) }

  function ChatAsk(a: Ask): seq<Tree> {
    ChatResults(a.results) + (if a.text.Some? then [Said(USER, a.text.value)] else [])
  }

  function ChatRest(xs: seq<Exchange>): seq<Tree> {
    if xs == [] then [] else [ChatReply(xs[0].reply)] + ChatAsk(xs[0].ask) + ChatRest(xs[1..])
  }

  function ChatSystem(s: Option<Words>): seq<Tree> { if s.Some? then [Said(ROLE_SYSTEM, s.value)] else [] }

  function AsChat(t: Talking): Tree {
    One(MESSAGES, Items(ChatSystem(t.system) + (ChatAsk(t.first) + ChatRest(t.rest))))
  }

  lemma {:induction false} ChatBoth(put: Put, c: Conv, a: seq<Tree>, b: seq<Tree>)
    ensures ChatMessages(put, c, a + b) ==
              match ChatMessages(put, c, a) case None => None case Some(d) => ChatMessages(put, d, b)
    decreases a
  {
    hide ChatMessage;
    if a == [] {
      assert a + b == b;
    } else {
      assert (a + b)[1..] == a[1..] + b;
      var c1 := ChatMessage(put, c, a[0]);
      if c1.Some? { ChatBoth(put, c1.value, a[1..], b); }
    }
  }

  lemma ChatOne(put: Put, c: Conv, m: Tree)
    ensures ChatMessages(put, c, [m]) == ChatMessage(put, c, m)
  {
    hide ChatMessage;
    assert [m][1..] == [];
  }

  lemma ChatUseRead(put: Put, c: Conv, u: Use)
    requires WfUse(u) && PutsAlike(put)
    ensures var m, fn := ChatUse(u), Two(NAME, Text(u.name), ARGUMENTS, Text(u.text));
            && Get(m, FUNCTION) == Some(fn) && Get(m, ID) == Some(Text(u.id))
            && Get(fn, NAME) == Some(Text(u.name)) && Get(fn, ARGUMENTS) == Some(Text(u.text))
            && put(Some(Text(u.text))) == put(Some(u.args))
  {
    var fn := Two(NAME, Text(u.name), ARGUMENTS, Text(u.text));
    GetThree(ID, Text(u.id), TYPE, Text(FUNCTION), FUNCTION, fn, FUNCTION);
    GetThree(ID, Text(u.id), TYPE, Text(FUNCTION), FUNCTION, fn, ID);
    GetTwo(NAME, Text(u.name), ARGUMENTS, Text(u.text), NAME);
    GetTwo(NAME, Text(u.name), ARGUMENTS, Text(u.text), ARGUMENTS);
  }

  lemma ChatUsesMore(us: seq<Use>)
    requires us != []
    ensures var cs := ChatUses(us); cs != [] && cs[0] == ChatUse(us[0]) && cs[1..] == ChatUses(us[1..])
  {
  }

  lemma UsesSayMore(put: Put, calls: seq<OutCall>, us: seq<Use>)
    requires us != []
    ensures var call := OutCall(us[0].id, us[0].name, put(Some(us[0].args)));
            calls + [call] + UsesSay(put, us[1..]) == calls + UsesSay(put, us)
  {
    Grown(calls, OutCall(us[0].id, us[0].name, put(Some(us[0].args))), UsesSay(put, us[1..]));
  }

  lemma UsesNone(put: Put, calls: seq<OutCall>)
    ensures calls + UsesSay(put, []) == calls && ChatUses([]) == []
  {
  }

  lemma {:induction false} ChatUsesRead(put: Put, c: Conv, us: seq<Use>)
    requires c.open && PutsAlike(put) && forall k :: 0 <= k < |us| ==> WfUse(us[k])
    ensures ChatCalls(put, c, ChatUses(us)) == Some(c.(calls := c.calls + UsesSay(put, us)))
    decreases us
  {
    hide Get;
    hide Two;
    hide WfUse;
    hide ChatUse;
    hide ChatUses;
    hide UsesSay;
    hide PutsAlike;
    if us == [] {
      UsesNone(put, c.calls);
    } else {
      var u := us[0];
      ChatUseRead(put, c, u);
      var c1 := c.(calls := c.calls + [OutCall(u.id, u.name, put(Some(u.args)))]);
      ChatUsesRead(put, c1, us[1..]);
      ChatUsesMore(us);
      UsesSayMore(put, c.calls, us);
      assert ChatCalls(put, c, ChatUses(us)) == ChatCalls(put, c1, ChatUses(us[1..]));
    }
  }

  lemma ChatReplyRead(put: Put, out: seq<OutMsg>, r: Reply)
    requires WfReply(r) && PutsAlike(put)
    ensures ChatMessage(put, Closed(out), ChatReply(r)) == Some(Closed(out + [ReplySays(put, r)]))
  {
    hide WfUse;
    hide PutsAlike;
    hide ChatReply;
    hide TextOrNull;
    hide ChatUses;
    hide ChatAssistant;
    hide UpToNul;
    ChatReplyHas(r);
    IsWord(ASSISTANT, ASSISTANT);
    WordsRead(TEXT, [TEXT], r.text);
    hide Content;
    hide TextOf;
    ChatTurnRead(put, out, r);
  }

  lemma ChatReplyHas(r: Reply)
    ensures var m := ChatReply(r);
            && Get(m, ROLE) == Some(Text(ASSISTANT)) && Get(m, CONTENT) == Some(Content(TEXT, r.text))
            && Get(m, NAME) == None && Get(m, FUNCTION_CALL) == None && Get(m, REASONING) == None
            && Get(m, REASONING_CONTENT) == Some(TextOrNull(Thoughts(r.reasoning))) &&
                Get(m, TOOL_CALLS) == Some(Items(ChatUses(r.uses)))
  {
    var said, why, uses := Content(TEXT, r.text), TextOrNull(Thoughts(r.reasoning)), Items(ChatUses(r.uses));
    hide Content;
    hide TextOrNull;
    hide ChatUses;
    hide Four;
    GetFour(ROLE, Text(ASSISTANT), CONTENT, said, REASONING_CONTENT, why, TOOL_CALLS, uses, ROLE);
    GetFour(ROLE, Text(ASSISTANT), CONTENT, said, REASONING_CONTENT, why, TOOL_CALLS, uses, CONTENT);
    GetFour(ROLE, Text(ASSISTANT), CONTENT, said, REASONING_CONTENT, why, TOOL_CALLS, uses, NAME);
    GetFour(ROLE, Text(ASSISTANT), CONTENT, said, REASONING_CONTENT, why, TOOL_CALLS, uses, FUNCTION_CALL);
    GetFour(ROLE, Text(ASSISTANT), CONTENT, said, REASONING_CONTENT, why, TOOL_CALLS, uses, REASONING);
    GetFour(ROLE, Text(ASSISTANT), CONTENT, said, REASONING_CONTENT, why, TOOL_CALLS, uses, REASONING_CONTENT);
    GetFour(ROLE, Text(ASSISTANT), CONTENT, said, REASONING_CONTENT, why, TOOL_CALLS, uses, TOOL_CALLS);
  }

  lemma ChatTurnRead(put: Put, out: seq<OutMsg>, r: Reply)
    requires WfReply(r) && PutsAlike(put)
    ensures ChatAssistant(put, Closed(out), ChatReply(r), r.text.All()) == Some(Closed(out + [ReplySays(put, r)]))
  {
    hide WfUse;
    hide PutsAlike;
    hide ChatReply;
    hide ChatUses;
    hide Texted;
    hide Reasoned;
    ChatReplyHas(r);
    var why, text := Thoughts(r.reasoning), r.text.All();
    hide Thoughts;
    hide Lines;
    Gathers(out, why, text, text != []);
    var c := Gathering(out, why, text, [], text != []);
    ChatUsesRead(put, c, r.uses);
    assert [] + UsesSay(put, r.uses) == UsesSay(put, r.uses);
    GatheringCloses(out, why, text, UsesSay(put, r.uses), text != []);
  }

  lemma ChatSaid(put: Put, out: seq<OutMsg>, role: Bytes, said: Words)
    requires role == USER || role == ROLE_SYSTEM
    ensures ChatMessage(put, Closed(out), Said(role, said)) == Some(Closed(out + [Alone(role, said.All(), None)]))
  {
    WordsRead(TEXT, [TEXT], said);
    hide Content;
    hide TextOf;
    forall key ensures Get(Said(role, said), key) == if key == ROLE then Some(Text(role))
        else if key == CONTENT then Some(Content(TEXT, said)) else None {
      GetTwo(ROLE, Text(role), CONTENT, Content(TEXT, said), key);
    }
    forall w ensures StrIs(Some(Text(role)), w) <==> role == w { IsWord(role, w); }
  }

  lemma {:induction false} ChatResultsRead(put: Put, out: seq<OutMsg>, rs: seq<Result>)
    ensures ChatMessages(put, Closed(out), ChatResults(rs)) == Some(Closed(out + ResultsSay(rs)))
    decreases rs
  {
    hide ChatMessage;
    hide ChatResult;
    hide ResultSays;
    hide Closed;
    if rs == [] {
      Grown(out, ResultSays(Result([], Whole([]))), []);
    } else {
      ChatResultRead(put, out, rs[0]);
      assert ChatResults(rs)[1..] == ChatResults(rs[1..]);
      ChatResultsRead(put, out + [ResultSays(rs[0])], rs[1..]);
      Grown(out, ResultSays(rs[0]), ResultsSay(rs[1..]));
    }
  }

  lemma ChatResultRead(put: Put, out: seq<OutMsg>, x: Result)
    ensures ChatMessage(put, Closed(out), ChatResult(x)) == Some(Closed(out + [ResultSays(x)]))
  {
    WordsRead(TEXT, [TEXT], x.text);
    hide Content;
    hide TextOf;
    var m := ChatResult(x);
    forall key ensures Get(m, key)
         == if key == ROLE then Some(Text(ROLE_TOOL)) else if key == TOOL_CALL_ID then Some(Text(x.id))
            else if key == CONTENT then Some(Content(TEXT, x.text)) else None
    {
      GetThree(ROLE, Text(ROLE_TOOL), TOOL_CALL_ID, Text(x.id), CONTENT, Content(TEXT, x.text), key);
    }
    forall w ensures StrIs(Some(Text(ROLE_TOOL)), w) <==> ROLE_TOOL == w { IsWord(ROLE_TOOL, w); }
  }

  lemma ChatAskRead(put: Put, out: seq<OutMsg>, a: Ask)
    ensures ChatMessages(put, Closed(out), ChatAsk(a)) == Some(Closed(out + AskSays(a)))
  {
    hide ChatMessages;
    hide ChatMessage;
    ChatResultsRead(put, out, a.results);
    var out1 := out + ResultsSay(a.results);
    if a.text.Some? {
      ChatBoth(put, Closed(out), ChatResults(a.results), [Said(USER, a.text.value)]);
      ChatOne(put, Closed(out1), Said(USER, a.text.value));
      ChatSaid(put, out1, USER, a.text.value);
      assert out1 + [Alone(USER, a.text.value.All(), None)] == out + AskSays(a);
    } else {
      assert ChatAsk(a) == ChatResults(a.results) && AskSays(a) == ResultsSay(a.results);
    }
  }

  lemma {:induction false} ChatRestRead(put: Put, out: seq<OutMsg>, xs: seq<Exchange>)
    requires PutsAlike(put) && forall k :: 0 <= k < |xs| ==> WfReply(xs[k].reply)
    ensures ChatMessages(put, Closed(out), ChatRest(xs)) == Some(Closed(out + RestSays(put, xs)))
    decreases xs
  {
    hide ChatMessages;
    hide ChatMessage;
    hide ChatReply;
    hide ChatAsk;
    hide ChatRest;
    hide RestSays;
    hide ReplySays;
    hide AskSays;
    hide Closed;
    hide WfReply;
    hide PutsAlike;
    if xs == [] {
      ChatRestNone(put, Closed(out));
      RestSaysNone(put, out);
    } else {
      var x, more := xs[0], ChatRest(xs[1..]);
      var out1 := out + [ReplySays(put, x.reply)];
      ChatReplyRead(put, out, x.reply);
      ChatOne(put, Closed(out), ChatReply(x.reply));
      ChatAskRead(put, out1, x.ask);
      ChatRestRead(put, out1 + AskSays(x.ask), xs[1..]);
      ChatBoth(put, Closed(out), [ChatReply(x.reply)], ChatAsk(x.ask) + more);
      ChatBoth(put, Closed(out1), ChatAsk(x.ask), more);
      ChatRestMore(xs);
      RestSaysMore(put, out, xs);
    }
  }

  lemma ChatRestNone(put: Put, c: Conv)
    ensures ChatMessages(put, c, ChatRest([])) == Some(c)
  {
  }

  lemma ChatRestMore(xs: seq<Exchange>)
    requires xs != []
    ensures ChatRest(xs) == [ChatReply(xs[0].reply)] + (ChatAsk(xs[0].ask) + ChatRest(xs[1..]))
  {
    hide ChatReply;
    hide ChatAsk;
    Regrouped([], [ChatReply(xs[0].reply)], ChatAsk(xs[0].ask), ChatRest(xs[1..]));
  }

  lemma ChatAllRead(put: Put, t: Talking)
    requires WfTalking(t) && PutsAlike(put)
    ensures ChatMessages(put, NO_CONV, ChatSystem(t.system) + (ChatAsk(t.first) + ChatRest(t.rest))) ==
        Some(Closed(Says(put, t)))
  {
    hide ChatMessages;
    hide ChatMessage;
    hide ChatAsk;
    hide ChatRest;
    hide WfReply;
    hide PutsAlike;
    hide AskSays;
    hide RestSays;
    var first, rest := ChatAsk(t.first), ChatRest(t.rest);
    var system := SystemSays(t.system);
    ChatBoth(put, NO_CONV, ChatSystem(t.system), first + rest);
    ChatSystemRead(put, t.system);
    ChatBoth(put, Closed(system), first, rest);
    ChatAskRead(put, system, t.first);
    ChatRestRead(put, system + AskSays(t.first), t.rest);
    assert system + AskSays(t.first) + RestSays(put, t.rest) == Says(put, t);
  }

  lemma ChatSystemRead(put: Put, system: Option<Words>)
    ensures ChatMessages(put, NO_CONV, ChatSystem(system)) == Some(Closed(SystemSays(system)))
  {
    hide ChatMessage;
    if system.Some? {
      ChatOne(put, NO_CONV, Said(ROLE_SYSTEM, system.value));
      ChatSaid(put, [], ROLE_SYSTEM, system.value);
      assert [] + SystemSays(system) == SystemSays(system);
    }
  }

  /** A chat request says what its conversation says. */
  lemma ChatConverts(put: Put, t: Talking)
    requires WfTalking(t) && PutsAlike(put)
    ensures Chat(put, AsChat(t)) == Some(Says(put, t))
  {
    hide ChatMessages;
    hide ChatRest;
    hide WfReply;
    hide PutsAlike;
    hide Says;
    var ms := ChatSystem(t.system) + (ChatAsk(t.first) + ChatRest(t.rest));
    ChatAllRead(put, t);
    GetOne(MESSAGES, Items(ms), MESSAGES);
    GetOne(MESSAGES, Items(ms), FUNCTIONS);
    GetOne(MESSAGES, Items(ms), FUNCTION_CALL);
    assert |ChatAsk(t.first)| > 0;
  }

  // ---- As Messages ----

  function UserBlocks(a: Ask): seq<Tree> {
    ResultBlocks(a.results) + (if a.text.Some? then TextItems(TEXT, a.text.value.Pieces()) else [])
  }

  function ResultBlock(x: Result): Tree {
    Three(TYPE, Text(TOOL_RESULT), TOOL_USE_ID, Text(x.id), CONTENT, Content(TEXT, x.text))
  }

  function ResultBlocks(rs: seq<Result>): seq<Tree> {
    if rs == [] then [] else [ResultBlock(rs[0])] + ResultBlocks(rs[1..])
  }

  function UseBlock(u: Use): Tree { Four(TYPE, Text(TOOL_USE), ID, Text(u.id), NAME, Text(u.name), INPUT, u.args) }

  function UseBlocks(us: seq<Use>): seq<Tree> { if us == [] then [] else [UseBlock(us[0])] + UseBlocks(us[1..]) }

  function ThinkBlock(text: Bytes): Tree { Two(TYPE, Text(THINKING), THINKING, Text(text)) }

  function ThinkBlocks(ps: seq<Bytes>): seq<Tree> {
    if ps == [] then [] else [ThinkBlock(ps[0])] + ThinkBlocks(ps[1..])
  }

  function ReplyBlocks(r: Reply): seq<Tree> {
    ThinkBlocks(r.reasoning) + (TextItems(TEXT, r.text.Pieces()) + UseBlocks(r.uses))
  }

  function Turned(role: Bytes, blocks: seq<Tree>): Tree { Two(ROLE, Text(role), CONTENT, Items(blocks)) }

  function TalkRest(xs: seq<Exchange>): seq<Tree> {
    if xs == [] then []
    else
      [Turned(ASSISTANT, ReplyBlocks(xs[0].reply))] +
      ([Turned(USER, UserBlocks(xs[0].ask))] + TalkRest(xs[1..]))
  }

  function AsMessages(t: Talking): Tree {
    Two(ROLE_SYSTEM, SystemOrNull(t.system), MESSAGES, Items([Turned(USER, UserBlocks(t.first))] + TalkRest(t.rest)))
  }

  function SystemOrNull(s: Option<Words>): Tree { if s.Some? then Content(TEXT, s.value) else Atom(Null) }

  lemma {:induction false} TalkBoth(put: Put, t: Talk, a: seq<Tree>, b: seq<Tree>)
    ensures TalkMessages(put, t, a + b) ==
              match TalkMessages(put, t, a) case None => None case Some(u) => TalkMessages(put, u, b)
    decreases a
  {
    hide TalkMessage;
    if a == [] {
      assert a + b == b;
    } else {
      assert (a + b)[1..] == a[1..] + b;
      var t1 := TalkMessage(put, t, a[0]);
      if t1.Some? { TalkBoth(put, t1.value, a[1..], b); }
    }
  }

  lemma TalkOne(put: Put, t: Talk, m: Tree)
    ensures TalkMessages(put, t, [m]) == TalkMessage(put, t, m)
  {
    hide TalkMessage;
    assert [m][1..] == [];
  }

  lemma {:induction false} BlocksBoth(put: Put, t: Talk, user: bool, a: seq<Tree>, b: seq<Tree>)
    ensures Blocks(put, t, user, a + b) ==
              match Blocks(put, t, user, a) case None => None case Some(u) => Blocks(put, u, user, b)
    decreases a
  {
    hide UserBlock;
    hide AssistantBlock;
    if a == [] {
      assert a + b == b;
    } else {
      assert (a + b)[1..] == a[1..] + b;
      var t1 := if user then UserBlock(t, a[0]) else AssistantBlock(put, t, a[0]);
      if t1.Some? { BlocksBoth(put, t1.value, user, a[1..], b); }
    }
  }

  lemma BlocksOne(put: Put, t: Talk, user: bool, b: Tree)
    ensures Blocks(put, t, user, [b]) == if user then UserBlock(t, b) else AssistantBlock(put, t, b)
    ensures Blocks(put, t, user, []) == Some(t)
  {
    hide UserBlock;
    hide AssistantBlock;
    assert [b][1..] == [];
  }

  lemma TextBlockRead(put: Put, t: Talk, text: Bytes)
    ensures var b := TextPart(TEXT, text);
            && UserBlock(t, b) == Some(t.(g := AndThen(t.g, text)))
            && AssistantBlock(put, t, b) == Some(t.(c := Texted(t.c, text)))
  {
    hide UpToNul;
    GetTwo(TYPE, Text(TEXT), TEXT, Text(text), TYPE);
    GetTwo(TYPE, Text(TEXT), TEXT, Text(text), TEXT);
    IsWord(TEXT, TEXT);
  }

  lemma ThinkBlockRead(put: Put, t: Talk, text: Bytes)
    ensures AssistantBlock(put, t, ThinkBlock(text)) == Some(t.(c := Reasoned(t.c, text)))
  {
    hide UpToNul;
    GetTwo(TYPE, Text(THINKING), THINKING, Text(text), TYPE);
    GetTwo(TYPE, Text(THINKING), THINKING, Text(text), THINKING);
    IsWord(THINKING, THINKING);
    IsWord(THINKING, TEXT);
    IsWord(THINKING, TOOL_USE);
  }

  /** Pieces of text join the user's text, or the assistant's, as one text of them all would. */
  lemma {:induction false} UserTextsRead(put: Put, t: Talk, ts: seq<Bytes>)
    ensures Blocks(put, t, true, TextItems(TEXT, ts)) == Some(t.(g := AndLines(t.g, ts)))
    decreases ts
  {
    hide UserBlock;
    hide TextPart;
    hide AndThen;
    hide AndLines;
    if ts == [] {
      NoMore(t.g);
    } else {
      TextBlockRead(put, t, ts[0]);
      UserTextsRead(put, t.(g := AndThen(t.g, ts[0])), ts[1..]);
      AndThenLines(t.g, ts);
      assert TextItems(TEXT, ts)[1..] == TextItems(TEXT, ts[1..]);
    }
  }

  function AllTexted(c: Conv, ts: seq<Bytes>): Conv { if ts == [] then c else Texted(c, Lines(ts)) }

  function AllReasoned(c: Conv, ps: seq<Bytes>): Conv { if ps == [] then c else Reasoned(c, Lines(ps)) }

  lemma TextedMore(c: Conv, ts: seq<Bytes>)
    requires ts != []
    ensures AllTexted(Texted(c, ts[0]), ts[1..]) == AllTexted(c, ts)
    ensures AllReasoned(Reasoned(c, ts[0]), ts[1..]) == AllReasoned(c, ts)
  {
    AndThenLines(Gathered(c.content, c.anyContent), ts);
    AndThenLines(Gathered(c.reasoning, c.anyReasoning), ts);
    if |ts| > 1 {
      var rest := Lines(ts[1..]);
      OnLine(Convert.Joined(c.content, c.anyContent, ts[0]), rest);
      OnLine(Convert.Joined(c.reasoning, c.anyReasoning, ts[0]), rest);
    }
    OnLine(c.content, Lines(ts));
    OnLine(c.reasoning, Lines(ts));
  }

  lemma OnLine(a: Bytes, b: Bytes)
    ensures Convert.Joined(a, true, b) == a + ([0x0A] + b) && Convert.Joined(a, false, b) == a + b
  {
  }

  lemma {:induction false} TextsRead(put: Put, t: Talk, ts: seq<Bytes>)
    ensures Blocks(put, t, false, TextItems(TEXT, ts)) == Some(t.(c := AllTexted(t.c, ts)))
    decreases ts
  {
    hide AssistantBlock;
    hide TextPart;
    hide Texted;
    hide Lines;
    if ts != [] {
      TextBlockRead(put, t, ts[0]);
      TextsRead(put, t.(c := Texted(t.c, ts[0])), ts[1..]);
      TextedMore(t.c, ts);
      assert TextItems(TEXT, ts)[1..] == TextItems(TEXT, ts[1..]);
    }
  }

  lemma {:induction false} ThoughtsRead(put: Put, t: Talk, ps: seq<Bytes>)
    ensures Blocks(put, t, false, ThinkBlocks(ps)) == Some(t.(c := AllReasoned(t.c, ps)))
    decreases ps
  {
    hide AssistantBlock;
    hide ThinkBlock;
    hide Reasoned;
    hide Lines;
    if ps != [] {
      ThinkBlockRead(put, t, ps[0]);
      ThoughtsRead(put, t.(c := Reasoned(t.c, ps[0])), ps[1..]);
      TextedMore(t.c, ps);
      assert ThinkBlocks(ps)[1..] == ThinkBlocks(ps[1..]);
    }
  }

  lemma UseBlockRead(put: Put, t: Talk, u: Use)
    ensures AssistantBlock(put, t, UseBlock(u))
         == Some(t.(c := t.c.(open := true, calls := t.c.calls + [OutCall(u.id, u.name, put(Some(u.args)))])))
  {
    hide UpToNul;
    GetFour(TYPE, Text(TOOL_USE), ID, Text(u.id), NAME, Text(u.name), INPUT, u.args, TYPE);
    GetFour(TYPE, Text(TOOL_USE), ID, Text(u.id), NAME, Text(u.name), INPUT, u.args, ID);
    GetFour(TYPE, Text(TOOL_USE), ID, Text(u.id), NAME, Text(u.name), INPUT, u.args, NAME);
    GetFour(TYPE, Text(TOOL_USE), ID, Text(u.id), NAME, Text(u.name), INPUT, u.args, INPUT);
    IsWord(TOOL_USE, TEXT);
    IsWord(TOOL_USE, TOOL_USE);
  }

  lemma ResultBlockRead(t: Talk, out: seq<OutMsg>, x: Result)
    requires t.c == Closed(out)
    ensures UserBlock(t, ResultBlock(x)) == Some(t.(c := Closed(out + [ResultSays(x)]), anyResult := true))
  {
    hide UpToNul;
    WordsRead(TEXT, [TEXT], x.text);
    hide Content;
    hide TextOf;
    GetThree(TYPE, Text(TOOL_RESULT), TOOL_USE_ID, Text(x.id), CONTENT, Content(TEXT, x.text), TYPE);
    GetThree(TYPE, Text(TOOL_RESULT), TOOL_USE_ID, Text(x.id), CONTENT, Content(TEXT, x.text), TOOL_USE_ID);
    GetThree(TYPE, Text(TOOL_RESULT), TOOL_USE_ID, Text(x.id), CONTENT, Content(TEXT, x.text), CONTENT);
    IsWord(TOOL_RESULT, TEXT);
    IsWord(TOOL_RESULT, TOOL_RESULT);
  }

  lemma {:induction false} UseBlocksRead(put: Put, t: Talk, us: seq<Use>)
    requires t.c.open
    ensures Blocks(put, t, false, UseBlocks(us)) == Some(t.(c := t.c.(calls := t.c.calls + UsesSay(put, us))))
    decreases us
  {
    hide AssistantBlock;
    hide UseBlock;
    if us == [] {
      assert t.c.calls + [] == t.c.calls;
    } else {
      var call := OutCall(us[0].id, us[0].name, put(Some(us[0].args)));
      UseBlockRead(put, t, us[0]);
      UseBlocksRead(put, t.(c := t.c.(calls := t.c.calls + [call])), us[1..]);
      assert UseBlocks(us)[1..] == UseBlocks(us[1..]);
      Grown(t.c.calls, call, UsesSay(put, us[1..]));
    }
  }

  lemma {:induction false} ResultBlocksRead(put: Put, t: Talk, out: seq<OutMsg>, rs: seq<Result>)
    requires t.c == Closed(out)
    ensures Blocks(put, t, true, ResultBlocks(rs))
         == Some(t.(c := Closed(out + ResultsSay(rs)), anyResult := t.anyResult || rs != []))
    decreases rs
  {
    hide UserBlock;
    hide ResultBlock;
    hide ResultSays;
    hide Closed;
    if rs == [] {
      Grown(out, ResultSays(Result([], Whole([]))), []);
    } else {
      ResultBlockRead(t, out, rs[0]);
      ResultBlocksRead(put, t.(c := Closed(out + [ResultSays(rs[0])]), anyResult := true), out + [ResultSays(rs[0])],
          rs[1..]);
      assert ResultBlocks(rs)[1..] == ResultBlocks(rs[1..]);
      Grown(out, ResultSays(rs[0]), ResultsSay(rs[1..]));
    }
  }

  /** A user's turn being gathered, which will close as what the ask says. */
  ghost predicate Asked(t: Talk, out: seq<OutMsg>) { t.userOpen && UserClosed(t).c == Closed(out) }

  /** An assistant's turn being gathered, which will close as what the reply says. */
  ghost predicate Replied(t: Talk, out: seq<OutMsg>) { !t.userOpen && Flushed(t.c) == Closed(out) }

  lemma UserTurnRead(put: Put, t: Talk, out: seq<OutMsg>, a: Ask) returns (u: Talk)
    requires Replied(t, out) && WfAsk(a)
    ensures TalkMessage(put, t, Turned(USER, UserBlocks(a))) == Some(u) && Asked(u, out + AskSays(a))
  {
    hide UpToNul;
    hide Blocks;
    hide UserBlocks;
    hide TextOf;
    hide AskSays;
    hide WfAsk;
    var t1 := Talk(Flushed(t.c), true, NO_TEXT, false);
    u := UserBlocksRead(put, t1, out, a);
    TurnedHas(USER, UserBlocks(a));
    IsWord(USER, USER);
    IsWord(USER, ROLE_SYSTEM);
  }

  lemma TurnedHas(role: Bytes, blocks: seq<Tree>)
    ensures Get(Turned(role, blocks), ROLE) == Some(Text(role)) &&
        Get(Turned(role, blocks), CONTENT) == Some(Items(blocks))
  {
    GetTwo(ROLE, Text(role), CONTENT, Items(blocks), ROLE);
    GetTwo(ROLE, Text(role), CONTENT, Items(blocks), CONTENT);
  }

  lemma UserBlocksRead(put: Put, t: Talk, out: seq<OutMsg>, a: Ask) returns (u: Talk)
    requires t == Talk(Closed(out), true, NO_TEXT, false) && WfAsk(a)
    ensures Blocks(put, t, true, UserBlocks(a)) == Some(u) && Asked(u, out + AskSays(a))
  {
    hide Blocks;
    hide ResultBlocks;
    hide ResultsSay;
    ResultBlocksRead(put, t, out, a.results);
    u := t.(c := Closed(out + ResultsSay(a.results)), anyResult := a.results != []);
    if a.text.Some? {
      var said := a.text.value;
      BlocksBoth(put, t, true, ResultBlocks(a.results), TextItems(TEXT, said.Pieces()));
      UserTextsRead(put, u, said.Pieces());
      u := u.(g := AndLines(u.g, said.Pieces()));
      assert [] + said.All() == said.All();
      assert out + ResultsSay(a.results) + [Alone(USER, said.All(), None)] == out + AskSays(a);
    } else {
      assert ResultBlocks(a.results) + [] == ResultBlocks(a.results) &&
          ResultsSay(a.results) + [] == ResultsSay(a.results);
    }
  }

  lemma ReplyBlocksRead(put: Put, t: Talk, out: seq<OutMsg>, r: Reply)
    requires t.c == Opened(Closed(out))
    ensures Blocks(put, t, false, ReplyBlocks(r)) == Some(t.(c := GatheredReply(put, out, r)))
  {
    hide Blocks;
    hide AssistantBlock;
    hide UseBlocks;
    hide UsesSay;
    hide Texted;
    hide Reasoned;
    hide Lines;
    hide TextItems;
    hide ThinkBlocks;
    var ts := r.text.Pieces();
    BlocksBoth(put, t, false, ThinkBlocks(r.reasoning), TextItems(TEXT, ts) + UseBlocks(r.uses));
    ThoughtsRead(put, t, r.reasoning);
    var t1 := t.(c := AllReasoned(t.c, r.reasoning));
    BlocksBoth(put, t1, false, TextItems(TEXT, ts), UseBlocks(r.uses));
    TextsRead(put, t1, ts);
    NoLines();
    Gathers(out, Thoughts(r.reasoning), Lines(ts), ts != []);
    var t2 := t.(c := Gathering(out, Thoughts(r.reasoning), Lines(ts), [], ts != []));
    UseBlocksRead(put, t2, r.uses);
    assert [] + UsesSay(put, r.uses) == UsesSay(put, r.uses);
  }

  lemma NoLines()
    ensures Lines([]) == []
  {
  }

  /** An assistant's turn, gathered from its blocks. */
  function GatheredReply(put: Put, out: seq<OutMsg>, r: Reply): Conv {
    Gathering(out, Thoughts(r.reasoning), r.text.All(), UsesSay(put, r.uses), r.text.Pieces() != [])
  }

  lemma AssistantTurnRead(put: Put, t: Talk, out: seq<OutMsg>, r: Reply) returns (u: Talk)
    requires Asked(t, out)
    ensures TalkMessage(put, t, Turned(ASSISTANT, ReplyBlocks(r))) == Some(u) && Replied(u, out + [ReplySays(put, r)])
  {
    hide UpToNul;
    hide TextOf;
    hide UsesSay;
    hide Blocks;
    hide ReplyBlocks;
    var t1 := UserClosed(t);
    var t2 := t1.(c := Opened(t1.c));
    ReplyBlocksRead(put, t2, out, r);
    u := t2.(c := GatheredReply(put, out, r));
    GatheringCloses(out, Thoughts(r.reasoning), r.text.All(), UsesSay(put, r.uses), r.text.Pieces() != []);
    TurnedHas(ASSISTANT, ReplyBlocks(r));
    IsWord(ASSISTANT, USER);
    IsWord(ASSISTANT, ASSISTANT);
    IsWord(ASSISTANT, ROLE_SYSTEM);
  }

  lemma {:induction false} TalkRestRead(put: Put, t: Talk, out: seq<OutMsg>, xs: seq<Exchange>) returns (u: Talk)
    requires Asked(t, out) && forall k :: 0 <= k < |xs| ==> WfAsk(xs[k].ask)
    ensures TalkMessages(put, t, TalkRest(xs)) == Some(u) && Asked(u, out + RestSays(put, xs))
    decreases xs
  {
    hide TalkMessages;
    hide TalkRest;
    hide RestSays;
    hide ReplySays;
    hide AskSays;
    hide TalkMessage;
    hide ReplyBlocks;
    hide UserBlocks;
    hide Asked;
    hide Replied;
    hide WfAsk;
    if xs == [] {
      u := t;
      TalkRestNone(put, t);
      RestSaysNone(put, out);
    } else {
      var x, more := xs[0], TalkRest(xs[1..]);
      var out1 := out + [ReplySays(put, x.reply)];
      var t1 := AssistantTurnRead(put, t, out, x.reply);
      var t2 := UserTurnRead(put, t1, out1, x.ask);
      u := TalkRestRead(put, t2, out1 + AskSays(x.ask), xs[1..]);
      var m1, m2 := Turned(ASSISTANT, ReplyBlocks(x.reply)), Turned(USER, UserBlocks(x.ask));
      TalkBoth(put, t, [m1], [m2] + more);
      TalkOne(put, t, m1);
      TalkBoth(put, t1, [m2], more);
      TalkOne(put, t1, m2);
      TalkRestMore(xs);
      RestSaysMore(put, out, xs);
    }
  }

  lemma TalkRestNone(put: Put, t: Talk)
    ensures TalkMessages(put, t, TalkRest([])) == Some(t)
  {
  }

  lemma TalkRestMore(xs: seq<Exchange>)
    requires xs != []
    ensures TalkRest(xs) ==
        [Turned(ASSISTANT, ReplyBlocks(xs[0].reply))] + ([Turned(USER, UserBlocks(xs[0].ask))] + TalkRest(xs[1..]))
  {
  }

  lemma {:induction false} LastAsks(xs: seq<Exchange>)
    requires xs != []
    ensures var ms := TalkRest(xs); ms != [] && ms[|ms| - 1] == Turned(USER, UserBlocks(xs[|xs| - 1].ask))
    decreases xs
  {
    if |xs| > 1 { LastAsks(xs[1..]); }
  }

  /** A Messages request says what its conversation says. */
  lemma MessagesConvert(put: Put, t: Talking)
    requires WfTalking(t)
    ensures Messages(put, AsMessages(t)) == Some(Says(put, t))
  {
    hide AskSays;
    hide RestSays;
    hide UpToNul;
    hide TextOf;
    hide TalkMessages;
    hide TalkMessage;
    hide TalkRest;
    hide UserBlocks;
    hide WfAsk;
    hide WfReply;
    var ms := [Turned(USER, UserBlocks(t.first))] + TalkRest(t.rest);
    var system := SystemSays(t.system);
    GetTwo(ROLE_SYSTEM, SystemOrNull(t.system), MESSAGES, Items(ms), ROLE_SYSTEM);
    GetTwo(ROLE_SYSTEM, SystemOrNull(t.system), MESSAGES, Items(ms), MESSAGES);
    SystemRead(t.system);
    var t0 := Talk(Closed(system), false, NO_TEXT, false);
    var t1 := UserTurnRead(put, t0, system, t.first);
    var u := TalkRestRead(put, t1, system + AskSays(t.first), t.rest);
    TalkBoth(put, t0, [Turned(USER, UserBlocks(t.first))], TalkRest(t.rest));
    TalkOne(put, t0, Turned(USER, UserBlocks(t.first)));
    LastIsAsk(t);
    IsWord(USER, ASSISTANT);
    assert system + AskSays(t.first) + RestSays(put, t.rest) == Says(put, t);
  }

  lemma SystemRead(system: Option<Words>)
    ensures SystemFirst(Some(SystemOrNull(system))) == Some(Closed(SystemSays(system)))
  {
    if system.Some? {
      WordsRead(TEXT, [TEXT], system.value);
      hide Content;
      hide TextOf;
      assert [] + SystemSays(system) == SystemSays(system);
    }
  }

  lemma LastIsAsk(t: Talking)
    ensures var ms := [Turned(USER, UserBlocks(t.first))] + TalkRest(t.rest);
            Get(ms[|ms| - 1], ROLE) == Some(Text(USER))
  {
    if t.rest != [] {
      LastAsks(t.rest);
      TurnedHas(USER, UserBlocks(t.rest[|t.rest| - 1].ask));
    } else {
      TurnedHas(USER, UserBlocks(t.first));
    }
  }

  // ---- As Responses ----

  function KindOf(role: Bytes): Bytes { if role == ASSISTANT then OUTPUT_TEXT else INPUT_TEXT }

  function SaidItem(role: Bytes, w: Words): Tree {
    Three(TYPE, Text(MESSAGE), ROLE, Text(role), CONTENT, Content(KindOf(role), w))
  }

  function OutputItem(x: Result): Tree {
    Three(TYPE, Text(CALL_OUTPUT), CALL_ID, Text(x.id), OUTPUT, Content(INPUT_TEXT, x.text))
  }

  function OutputItems(rs: seq<Result>): seq<Tree> {
    if rs == [] then [] else [OutputItem(rs[0])] + OutputItems(rs[1..])
  }

  function AskItems(a: Ask): seq<Tree> {
    OutputItems(a.results) + (if a.text.Some? then [SaidItem(USER, a.text.value)] else [])
  }

  function ReasonItem(ps: seq<Bytes>): Tree {
    Two(TYPE, Text(REASONING), CONTENT, Items(TextItems(REASONING_TEXT, ps)))
  }

  function ReasonItems(ps: seq<Bytes>): seq<Tree> { if ps == [] then [] else [ReasonItem(ps)] }

  function UseItem(u: Use): Tree {
    Four(TYPE, Text(FUNCTION_CALL), CALL_ID, Text(u.id), NAME, Text(u.name), ARGUMENTS, Text(u.text))
  }

  function UseItems(us: seq<Use>): seq<Tree> { if us == [] then [] else [UseItem(us[0])] + UseItems(us[1..]) }

  /** A reply's message: a reply of calls alone has none. */
  function SpokenItems(r: Reply): seq<Tree> {
    if r.text.All() != [] || r.uses == [] then [SaidItem(ASSISTANT, r.text)] else []
  }

  function ReplyItems(r: Reply): seq<Tree> { ReasonItems(r.reasoning) + (SpokenItems(r) + UseItems(r.uses)) }

  function RestItems(xs: seq<Exchange>): seq<Tree> {
    if xs == [] then [] else ReplyItems(xs[0].reply) + (AskItems(xs[0].ask) + RestItems(xs[1..]))
  }

  function AsResponses(t: Talking): Tree {
    Two(INSTRUCTIONS, TextOrNull(Instructed(t.system)), INPUT, Items(AskItems(t.first) + RestItems(t.rest)))
  }

  /** Instructions are one string. */
  function Instructed(s: Option<Words>): Option<Bytes> { if s.Some? then Some(s.value.All()) else None }

  lemma {:induction false} FlowBoth(put: Put, s: Flow, a: seq<Tree>, b: seq<Tree>)
    ensures FlowItems(put, s, a + b) ==
              match FlowItems(put, s, a) case None => None case Some(u) => FlowItems(put, u, b)
    decreases a
  {
    hide FlowItem;
    if a == [] {
      assert a + b == b;
    } else {
      assert (a + b)[1..] == a[1..] + b;
      var s1 := FlowItem(put, s, a[0]);
      if s1.Some? { FlowBoth(put, s1.value, a[1..], b); }
    }
  }

  lemma FlowOne(put: Put, s: Flow, it: Tree)
    ensures FlowItems(put, s, [it]) == FlowItem(put, s, it) && FlowItems(put, s, []) == Some(s)
  {
    hide FlowItem;
    assert [it][1..] == [];
  }

  lemma SaidItemRead(put: Put, s: Flow, role: Bytes, said: Words)
    requires role == USER || role == ASSISTANT
    ensures FlowItem(put, s, SaidItem(role, said)) == FlowMessage(s, role, said.All())
  {
    hide UpToNul;
    hide FlowMessage;
    var content := Content(KindOf(role), said);
    ItemKinds();
    WordsRead(KindOf(role), ITEM_TEXT, said);
    hide Content;
    hide TextOf;
    GetThree(TYPE, Text(MESSAGE), ROLE, Text(role), CONTENT, content, TYPE);
    GetThree(TYPE, Text(MESSAGE), ROLE, Text(role), CONTENT, content, ROLE);
    GetThree(TYPE, Text(MESSAGE), ROLE, Text(role), CONTENT, content, CONTENT);
    IsWord(MESSAGE, MESSAGE);
    WholeWord(role);
  }

  lemma ItemKinds()
    ensures Plainly(INPUT_TEXT, ITEM_TEXT) && Plainly(OUTPUT_TEXT, ITEM_TEXT)
    ensures Plainly(REASONING_TEXT, [REASONING_TEXT, SUMMARY_TEXT])
  {
    var kinds := [REASONING_TEXT, SUMMARY_TEXT];
    assert ITEM_TEXT[0] == INPUT_TEXT && ITEM_TEXT[1] == OUTPUT_TEXT && kinds[0] == REASONING_TEXT;
  }

  lemma OutputItemRead(put: Put, s: Flow, x: Result)
    ensures FlowItem(put, s, OutputItem(x)) == Some(s.(c := Messaged(s.c, ROLE_TOOL, x.text.All(), Some(x.id))))
  {
    hide UpToNul;
    var output := Content(INPUT_TEXT, x.text);
    ItemKinds();
    WordsRead(INPUT_TEXT, ITEM_TEXT, x.text);
    hide Content;
    hide TextOf;
    GetThree(TYPE, Text(CALL_OUTPUT), CALL_ID, Text(x.id), OUTPUT, output, TYPE);
    GetThree(TYPE, Text(CALL_OUTPUT), CALL_ID, Text(x.id), OUTPUT, output, CALL_ID);
    GetThree(TYPE, Text(CALL_OUTPUT), CALL_ID, Text(x.id), OUTPUT, output, OUTPUT);
    IsWord(CALL_OUTPUT, MESSAGE);
    IsWord(CALL_OUTPUT, FUNCTION_CALL);
    IsWord(CALL_OUTPUT, CALL_OUTPUT);
  }

  /** A call joins the turn that is open, or opens one if none is or reasoning waits for it. */
  lemma UseItemRead(put: Put, s: Flow, u: Use)
    requires WfUse(u) && PutsAlike(put)
    ensures var s1 := WithPending(if !s.c.open || s.pending then s.(c := Opened(Flushed(s.c))) else s);
            FlowItem(put, s, UseItem(u)) ==
              Some(s1.(c := s1.c.(open := true,
                                  calls := s1.c.calls + [OutCall(u.id, u.name, put(Some(u.args)))])))
  {
    hide UpToNul;
    hide WithPending;
    hide Flushed;
    GetFour(TYPE, Text(FUNCTION_CALL), CALL_ID, Text(u.id), NAME, Text(u.name), ARGUMENTS, Text(u.text), TYPE);
    GetFour(TYPE, Text(FUNCTION_CALL), CALL_ID, Text(u.id), NAME, Text(u.name), ARGUMENTS, Text(u.text), CALL_ID);
    GetFour(TYPE, Text(FUNCTION_CALL), CALL_ID, Text(u.id), NAME, Text(u.name), ARGUMENTS, Text(u.text), NAME);
    GetFour(TYPE, Text(FUNCTION_CALL), CALL_ID, Text(u.id), NAME, Text(u.name), ARGUMENTS, Text(u.text), ARGUMENTS);
    IsWord(FUNCTION_CALL, MESSAGE);
    IsWord(FUNCTION_CALL, FUNCTION_CALL);
  }

  lemma ReasonItemRead(put: Put, s: Flow, ps: seq<Bytes>)
    requires s.g == NO_TEXT && ps != []
    ensures FlowItem(put, s, ReasonItem(ps)) == Some(s.(pending := true, g := Gathered(Lines(ps), true)))
  {
    hide UpToNul;
    hide Lines;
    hide TextParts;
    var parts := TextItems(REASONING_TEXT, ps);
    assert parts != [];
    hide TextItems;
    GetTwo(TYPE, Text(REASONING), CONTENT, Items(parts), TYPE);
    GetTwo(TYPE, Text(REASONING), CONTENT, Items(parts), CONTENT);
    IsWord(REASONING, MESSAGE);
    IsWord(REASONING, FUNCTION_CALL);
    IsWord(REASONING, CALL_OUTPUT);
    IsWord(REASONING, REASONING);
    ItemKinds();
    PartsRead(REASONING_TEXT, [REASONING_TEXT, SUMMARY_TEXT], ps, NO_TEXT);
    assert [] + Lines(ps) == Lines(ps);
  }

  /** Nothing open, and reasoning, if any, waiting for its turn. */
  function Thinking(out: seq<OutMsg>, reasoning: Option<Bytes>): Flow {
    Flow(Closed(out), reasoning.Some?, if reasoning.Some? then Gathered(reasoning.value, true) else NO_TEXT)
  }

  /** Between items, with no reasoning waiting. */
  ghost predicate Flowing(s: Flow, out: seq<OutMsg>) { !s.pending && s.g == NO_TEXT && Flushed(s.c) == Closed(out) }

  lemma {:induction false} OutputItemsRead(put: Put, s: Flow, out: seq<OutMsg>, rs: seq<Result>) returns (u: Flow)
    requires Flowing(s, out)
    ensures FlowItems(put, s, OutputItems(rs)) == Some(u) && Flowing(u, out + ResultsSay(rs))
    ensures rs != [] ==> u.c == Closed(out + ResultsSay(rs))
    decreases rs
  {
    hide FlowItem;
    hide OutputItem;
    if rs == [] {
      u := s;
      assert out + [] == out;
    } else {
      OutputItemRead(put, s, rs[0]);
      var s1 := s.(c := Messaged(s.c, ROLE_TOOL, rs[0].text.All(), Some(rs[0].id)));
      u := OutputItemsRead(put, s1, out + [ResultSays(rs[0])], rs[1..]);
      assert rs[1..] == [] ==> u == s1;
      assert OutputItems(rs)[1..] == OutputItems(rs[1..]);
      Grown(out, ResultSays(rs[0]), ResultsSay(rs[1..]));
    }
  }

  /** An ask closes what was open. */
  lemma AskItemsRead(put: Put, s: Flow, out: seq<OutMsg>, a: Ask) returns (u: Flow)
    requires Flowing(s, out) && WfAsk(a)
    ensures FlowItems(put, s, AskItems(a)) == Some(u) && u == Thinking(out + AskSays(a), None)
  {
    hide FlowItems;
    hide FlowItem;
    hide OutputItems;
    hide SaidItem;
    u := OutputItemsRead(put, s, out, a.results);
    if a.text.Some? {
      var it := SaidItem(USER, a.text.value);
      FlowBoth(put, s, OutputItems(a.results), [it]);
      FlowOne(put, u, it);
      SaidItemRead(put, u, USER, a.text.value);
      u := u.(c := Messaged(u.c, USER, a.text.value.All(), None));
      assert out + ResultsSay(a.results) + [Alone(USER, a.text.value.All(), None)] == out + AskSays(a);
    } else {
      assert OutputItems(a.results) + [] == OutputItems(a.results) &&
          ResultsSay(a.results) + [] == ResultsSay(a.results);
    }
  }

  lemma {:induction false} UseItemsRead(put: Put, s: Flow, us: seq<Use>)
    requires s.c.open && !s.pending && PutsAlike(put) && forall k :: 0 <= k < |us| ==> WfUse(us[k])
    ensures FlowItems(put, s, UseItems(us)) == Some(s.(c := s.c.(calls := s.c.calls + UsesSay(put, us))))
    decreases us
  {
    hide FlowItem;
    hide UseItem;
    hide WfUse;
    hide PutsAlike;
    if us == [] {
      assert s.c.calls + [] == s.c.calls;
    } else {
      var call := OutCall(us[0].id, us[0].name, put(Some(us[0].args)));
      UseItemRead(put, s, us[0]);
      UseItemsRead(put, s.(c := s.c.(calls := s.c.calls + [call])), us[1..]);
      assert UseItems(us)[1..] == UseItems(us[1..]);
      Grown(s.c.calls, call, UsesSay(put, us[1..]));
    }
  }

  lemma NothingOpen(out: seq<OutMsg>)
    ensures Flowing(Thinking(out, None), out)
  {
  }

  lemma ReasonItemsRead(put: Put, out: seq<OutMsg>, ps: seq<Bytes>)
    ensures FlowItems(put, Thinking(out, None), ReasonItems(ps)) == Some(Thinking(out, Thoughts(ps)))
  {
    hide FlowItem;
    hide ReasonItem;
    hide Lines;
    if ps != [] {
      FlowOne(put, Thinking(out, None), ReasonItem(ps));
      ReasonItemRead(put, Thinking(out, None), ps);
    }
  }

  /** A message, and the reasoning it goes with. */
  lemma SpokenRead(put: Put, out: seq<OutMsg>, r: Reply)
    ensures FlowItems(put, Thinking(out, Thoughts(r.reasoning)), [SaidItem(ASSISTANT, r.text)])
         == Some(Flow(Gathering(out, Thoughts(r.reasoning), r.text.All(), [], r.text.All() != []), false, NO_TEXT))
  {
    hide FlowItem;
    hide SaidItem;
    hide Texted;
    hide Reasoned;
    var it, s := SaidItem(ASSISTANT, r.text), Thinking(out, Thoughts(r.reasoning));
    FlowOne(put, s, it);
    SaidItemRead(put, s, ASSISTANT, r.text);
    Gathers(out, Thoughts(r.reasoning), r.text.All(), r.text.All() != []);
  }

  /** A call that opens a turn of its own, and the reasoning it goes with. */
  lemma FirstUseRead(put: Put, out: seq<OutMsg>, reasoning: Option<Bytes>, u: Use)
    requires WfUse(u) && PutsAlike(put)
    ensures FlowItem(put, Thinking(out, reasoning), UseItem(u)) ==
        Some(Flow(Gathering(out, reasoning, [], [OutCall(u.id, u.name, put(Some(u.args)))], false), false, NO_TEXT))
  {
    hide FlowItem;
    hide UseItem;
    hide WfUse;
    hide PutsAlike;
    hide Reasoned;
    UseItemRead(put, Thinking(out, reasoning), u);
    Gathers(out, reasoning, [], false);
    var call := OutCall(u.id, u.name, put(Some(u.args)));
    assert [] + [call] == [call];
  }

  /** The calls after a message, or alone. */
  lemma SpokenAndUsesRead(put: Put, out: seq<OutMsg>, r: Reply)
    requires WfReply(r) && PutsAlike(put)
    ensures FlowItems(put, Thinking(out, Thoughts(r.reasoning)), SpokenItems(r) + UseItems(r.uses)) ==
        Some(Flow(SpokenReply(put, out, r), false, NO_TEXT))
  {
    hide FlowItem;
    hide SaidItem;
    hide UseItem;
    hide WfUse;
    hide PutsAlike;
    hide Lines;
    var why, text := Thoughts(r.reasoning), r.text.All();
    var s, says := Thinking(out, why), UsesSay(put, r.uses);
    if text != [] || r.uses == [] {
      SpokenRead(put, out, r);
      var s1 := Flow(Gathering(out, why, text, [], text != []), false, NO_TEXT);
      FlowBoth(put, s, SpokenItems(r), UseItems(r.uses));
      UseItemsRead(put, s1, r.uses);
      assert [] + says == says;
    } else {
      var u := r.uses[0];
      var call := OutCall(u.id, u.name, put(Some(u.args)));
      FirstUseRead(put, out, why, u);
      UseItemsRead(put, Flow(Gathering(out, why, [], [call], false), false, NO_TEXT), r.uses[1..]);
      assert [] + UseItems(r.uses) == UseItems(r.uses);
      assert UseItems(r.uses)[1..] == UseItems(r.uses[1..]);
    }
  }

  /** A turn gathered from its items. */
  function SpokenReply(put: Put, out: seq<OutMsg>, r: Reply): Conv {
    Gathering(out, Thoughts(r.reasoning), r.text.All(), UsesSay(put, r.uses), r.text.All() != [])
  }

  lemma ReplyItemsRead(put: Put, out: seq<OutMsg>, r: Reply) returns (u: Flow)
    requires WfReply(r) && PutsAlike(put)
    ensures FlowItems(put, Thinking(out, None), ReplyItems(r)) == Some(u) && Flowing(u, out + [ReplySays(put, r)])
  {
    hide FlowItems;
    hide ReasonItems;
    hide SpokenItems;
    hide UseItems;
    hide UsesSay;
    hide WfUse;
    hide PutsAlike;
    FlowBoth(put, Thinking(out, None), ReasonItems(r.reasoning), SpokenItems(r) + UseItems(r.uses));
    ReasonItemsRead(put, out, r.reasoning);
    SpokenAndUsesRead(put, out, r);
    u := Flow(SpokenReply(put, out, r), false, NO_TEXT);
    GatheringCloses(out, Thoughts(r.reasoning), r.text.All(), UsesSay(put, r.uses), r.text.All() != []);
  }

  lemma {:induction false} RestItemsRead(put: Put, out: seq<OutMsg>, xs: seq<Exchange>) returns (u: Flow)
    requires PutsAlike(put)
    requires forall k :: 0 <= k < |xs| ==> WfReply(xs[k].reply) && WfAsk(xs[k].ask)
    ensures FlowItems(put, Thinking(out, None), RestItems(xs)) == Some(u) && Flowing(u, out + RestSays(put, xs))
    decreases xs
  {
    hide FlowItems;
    hide RestItems;
    hide RestSays;
    hide ReplySays;
    hide AskSays;
    hide FlowItem;
    hide ReplyItems;
    hide AskItems;
    hide Flushed;
    hide WfReply;
    hide WfAsk;
    hide PutsAlike;
    var s := Thinking(out, None);
    if xs == [] {
      u := s;
      NothingOpen(out);
      RestItemsNone(put, s);
      RestSaysNone(put, out);
    } else {
      var x, more := xs[0], RestItems(xs[1..]);
      var out1 := out + [ReplySays(put, x.reply)];
      var s1 := ReplyItemsRead(put, out, x.reply);
      var s2 := AskItemsRead(put, s1, out1, x.ask);
      u := RestItemsRead(put, out1 + AskSays(x.ask), xs[1..]);
      FlowBoth(put, s, ReplyItems(x.reply), AskItems(x.ask) + more);
      FlowBoth(put, s1, AskItems(x.ask), more);
      RestItemsMore(xs);
      RestSaysMore(put, out, xs);
    }
  }

  lemma RestItemsNone(put: Put, s: Flow)
    ensures FlowItems(put, s, RestItems([])) == Some(s)
  {
  }

  lemma RestItemsMore(xs: seq<Exchange>)
    requires xs != []
    ensures RestItems(xs) == ReplyItems(xs[0].reply) + (AskItems(xs[0].ask) + RestItems(xs[1..]))
  {
  }

  lemma SomeItems(a: Ask)
    requires WfAsk(a)
    ensures AskItems(a) != []
  {
  }

  /** A Responses request says what its conversation says. */
  lemma ResponsesConvert(put: Put, t: Talking)
    requires WfTalking(t) && PutsAlike(put)
    ensures Responses(put, AsResponses(t)) == Some(Says(put, t))
  {
    hide AskItems;
    hide AskSays;
    hide RestSays;
    hide WfAsk;
    hide UpToNul;
    hide FlowItems;
    hide RestItems;
    hide WfReply;
    hide PutsAlike;
    var its := AskItems(t.first) + RestItems(t.rest);
    var system := SystemSays(t.system);
    GetTwo(INSTRUCTIONS, TextOrNull(Instructed(t.system)), INPUT, Items(its), INSTRUCTIONS);
    GetTwo(INSTRUCTIONS, TextOrNull(Instructed(t.system)), INPUT, Items(its), INPUT);
    var s0 := Flow(Closed(system), false, NO_TEXT);
    assert [] + system == system;
    SomeItems(t.first);
    var s1 := AskItemsRead(put, s0, system, t.first);
    var u := RestItemsRead(put, system + AskSays(t.first), t.rest);
    FlowBoth(put, s0, AskItems(t.first), RestItems(t.rest));
    assert system + AskSays(t.first) + RestSays(put, t.rest) == Says(put, t);
  }

  /** The three requests of one conversation become the same messages. */
  lemma OneConversation(f: Floats, t: Talking)
    requires Sound(f) && WfTalking(t)
    ensures var put: Put := args => Arguments(f, args);
            && Chat(put, AsChat(t)) == Some(Says(put, t))
            && Messages(put, AsMessages(t)) == Some(Says(put, t))
            && Responses(put, AsResponses(t)) == Some(Says(put, t))
  {
    var put: Put := args => Arguments(f, args);
    forall u: Use | WfUse(u) ensures put(Some(Text(u.text))) == put(Some(u.args)) { ArgumentsAlike(f, u); }
    ChatConverts(put, t);
    MessagesConvert(put, t);
    ResponsesConvert(put, t);
  }

  lemma ArgumentsAlike(f: Floats, u: Use)
    requires Sound(f) && WfUse(u)
    ensures Arguments(f, Some(Text(u.text))) == Arguments(f, Some(u.args))
  {
    EmptyIsNotJson();
  }

  lemma EmptyIsNotJson()
    ensures ReadTree([]) == None
  {
  }

  // ---- Tools ----

  datatype Tool = Tool(name: Bytes, description: Option<Bytes>, parameters: Option<Tree>)

  predicate WfTool(t: Tool) { t.parameters != Some(Atom(Null)) }

  function TreeOrNull(t: Option<Tree>): Tree { if t.Some? then t.value else Atom(Null) }

  function Offered(show: Show, ts: seq<Tool>): seq<OutTool> {
    if ts == [] then [] else [OfferedOne(show, ts[0])] + Offered(show, ts[1..])
  }

  function OfferedOne(show: Show, t: Tool): OutTool {
    OutTool(t.name, t.description, if t.parameters.Some? then Some(show(t.parameters.value)) else None)
  }

  /** A tool as each shape gives it. */
  function ToolAs(shape: Shape, t: Tool): Tree {
    var d, p := TextOrNull(t.description), TreeOrNull(t.parameters);
    match shape
    case ChatShape => Two(TYPE, Text(FUNCTION), FUNCTION, Three(NAME, Text(t.name), DESCRIPTION, d, PARAMETERS, p))
    case MessagesShape => Three(NAME, Text(t.name), DESCRIPTION, d, INPUT_SCHEMA, p)
    case ResponsesShape => Four(TYPE, Text(FUNCTION), NAME, Text(t.name), DESCRIPTION, d, PARAMETERS, p)
  }

  function ToolsAs(shape: Shape, ts: seq<Tool>): seq<Tree> {
    if ts == [] then [] else [ToolAs(shape, ts[0])] + ToolsAs(shape, ts[1..])
  }

  lemma ToolRead(show: Show, t: Tool)
    requires WfTool(t)
    ensures ChatTool(show, ToolAs(ChatShape, t)) == Some([OfferedOne(show, t)])
    ensures MessagesTool(show, ToolAs(MessagesShape, t)) == Some([OfferedOne(show, t)])
    ensures ResponsesTool(show, ToolAs(ResponsesShape, t)) == Some([OfferedOne(show, t)])
  {
    hide UpToNul;
    var d, p := TextOrNull(t.description), TreeOrNull(t.parameters);
    var fn := Three(NAME, Text(t.name), DESCRIPTION, d, PARAMETERS, p);
    IsWord(FUNCTION, FUNCTION);
    forall key
      ensures Get(fn, key) == if key == NAME then Some(Text(t.name)) else if key == DESCRIPTION then Some(d)
          else if key == PARAMETERS then Some(p) else None
    {
      GetThree(NAME, Text(t.name), DESCRIPTION, d, PARAMETERS, p, key);
    }
    GetTwo(TYPE, Text(FUNCTION), FUNCTION, fn, TYPE);
    GetTwo(TYPE, Text(FUNCTION), FUNCTION, fn, FUNCTION);
    forall key
      ensures Get(ToolAs(MessagesShape, t), key)
           == if key == NAME then Some(Text(t.name)) else if key == DESCRIPTION then Some(d)
               else if key == INPUT_SCHEMA then Some(p) else None
    {
      GetThree(NAME, Text(t.name), DESCRIPTION, d, INPUT_SCHEMA, p, key);
    }
    forall key
      ensures Get(ToolAs(ResponsesShape, t), key)
           == if key == TYPE then Some(Text(FUNCTION)) else if key == NAME then Some(Text(t.name))
              else if key == DESCRIPTION then Some(d) else if key == PARAMETERS then Some(p) else None
    {
      GetFour(TYPE, Text(FUNCTION), NAME, Text(t.name), DESCRIPTION, d, PARAMETERS, p, key);
    }
  }

  /** The three shapes of the same tools offer the same. */
  lemma {:induction false} SameTools(shape: Shape, show: Show, ts: seq<Tool>)
    requires forall k :: 0 <= k < |ts| ==> WfTool(ts[k])
    ensures ToolsOf(shape, show, ToolsAs(shape, ts)) == Some(Offered(show, ts))
    decreases ts
  {
    hide ChatTool;
    hide MessagesTool;
    hide ResponsesTool;
    hide ToolAs;
    hide OfferedOne;
    if ts != [] {
      ToolRead(show, ts[0]);
      SameTools(shape, show, ts[1..]);
      assert ToolsAs(shape, ts)[1..] == ToolsAs(shape, ts[1..]);
    }
  }
}
