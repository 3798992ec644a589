/** The converters as they run: an assistant's turn is gathered in buffers and written once whole. */
module ConvertRun {
  import opened Basics
  import opened JsonTree
  import opened ChatCall
  import opened ChatTurn
  import opened Convert

  class Builder {
    var out: seq<OutMsg>
    var open: bool
    var content: Bytes
    var reasoning: Bytes
    var calls: seq<OutCall>
    var anyContent: bool
    var hasReasoning: bool
    var anyReasoning: bool

    function State(): Conv reads this {
      Conv(out, open, content, reasoning, calls, anyContent, hasReasoning, anyReasoning)
    }

    constructor ()
      ensures State() == NO_CONV
    {
      out, open, content, reasoning, calls, anyContent, hasReasoning, anyReasoning := [], false, [], [], [], false,
          false, false;
    }

    method Flush()
      modifies this
      ensures State() == Flushed(old(State()))
    {
      if !open { return; }
      out := out + [Turn(content, if hasReasoning then Some(reasoning) else None, calls)];
      content, reasoning, calls := [], [], [];
      anyContent, hasReasoning, anyReasoning := false, false, false;
      open := false;
    }

    method Message(role: Bytes, text: Bytes, callId: Option<Bytes>)
      modifies this
      ensures State() == Messaged(old(State()), role, text, callId)
    {
      Flush();
      out := out + [Alone(role, text, callId)];
    }

    method AddText(s: Bytes)
      modifies this
      ensures State() == Texted(old(State()), s)
      ensures content == (if old(anyContent) then old(content) + [0x0A] + s else old(content) + s) && anyContent && open
    {
      open := true;
      if anyContent { content := content + NL; }
      content := content + s;
      anyContent := true;
    }

    method AddReasoning(s: Bytes)
      modifies this
      ensures State() == Reasoned(old(State()), s)
      ensures reasoning == if old(anyReasoning) then old(reasoning) + [0x0A] + s else old(reasoning) + s
    {
      open, hasReasoning := true, true;
      if anyReasoning { reasoning := reasoning + NL; }
      reasoning := reasoning + s;
      anyReasoning := true;
    }

    method AddCall(put: Put, id: Option<Tree>, name: Bytes, args: Option<Tree>)
      modifies this
      ensures State() == Called(put, old(State()), id, name, args)
    {
      open := true;
      calls := calls + [OutCall(StrOr(id), name, put(args))];
    }
  }

  /** Text gathered from parts, in order. */
  method GatherText(v: Option<Tree>, types: seq<Bytes>, g0: Gathered) returns (g: Option<Gathered>)
    ensures g == TextOf(v, types, g0)
  {
    if v.Some? && v.value.Text? { return Some(AndThen(g0, v.value.s)); }
    if v.None? || !v.value.Items? { return None; }
    var parts := v.value.items;
    var t := g0;
    assert parts[0..] == parts;
    for i := 0 to |parts|
      invariant TextParts(parts[i..], types, t) == TextParts(parts, types, g0)
    {
      var text := Get(parts[i], TEXT);
      assert parts[i..][0] == parts[i] && parts[i..][1..] == parts[i + 1..];
      if !Known(parts[i], types) || !IsStr(text) { return None; }
      t := AndThen(t, text.value.s);
    }
    assert parts[|parts|..] == [];
    g := Some(t);
  }

  // ---- Chat completions ----

  method AddCalls(put: Put, c: Builder, calls: seq<Tree>) returns (ok: bool)
    modifies c
    ensures ChatCalls(put, old(c.State()), calls) == if ok then Some(c.State()) else None
  {
    assert calls[0..] == calls;
    for j := 0 to |calls|
      invariant ChatCalls(put, c.State(), calls[j..]) == ChatCalls(put, old(c.State()), calls)
    {
      assert calls[j..][0] == calls[j] && calls[j..][1..] == calls[j + 1..];
      var fn := Get(calls[j], FUNCTION);
      var name := if fn.Some? then Get(fn.value, NAME) else None;
      if !IsStr(name) { return false; }
      c.AddCall(put, Get(calls[j], ID), name.value.s, Get(fn.value, ARGUMENTS));
    }
    assert calls[|calls|..] == [];
    ok := true;
  }

  method AddAssistant(put: Put, c: Builder, m: Tree, text: Bytes) returns (ok: bool)
    modifies c
    ensures ChatAssistant(put, old(c.State()), m, text) == if ok then Some(c.State()) else None
  {
    c.Flush();
    c.open := true;
    if text != [] { c.AddText(text); }
    var rc := Get(m, REASONING_CONTENT);
    if !IsStr(rc) { rc := Get(m, REASONING); }
    if IsStr(rc) { c.AddReasoning(rc.value.s); }
    var calls := Get(m, TOOL_CALLS);
    if Given(calls) && !calls.value.Items? { return false; }
    if calls.Some? && calls.value.Items? {
      ok := AddCalls(put, c, calls.value.items);
      if !ok { return; }
    }
    c.Flush();
    ok := true;
  }

  method AddChatMessage(put: Put, c: Builder, m: Tree) returns (ok: bool)
    modifies c
    ensures ChatMessage(put, old(c.State()), m) == if ok then Some(c.State()) else None
  {
    hide ChatAssistant;
    hide TextOf;
    hide Messaged;
    hide UpToNul;
    var role := Get(m, ROLE);
    if !IsStr(role) { return false; }
    var assistant, tool := StrIs(role, ASSISTANT), StrIs(role, ROLE_TOOL);
    var system, user := StrIs(role, ROLE_SYSTEM) || StrIs(role, ROLE_DEVELOPER), StrIs(role, USER);
    if !assistant && !tool && !system && !user { return false; }
    if Given(Get(m, NAME)) { return false; }
    if Given(Get(m, FUNCTION_CALL)) { return false; }
    var content := Get(m, CONTENT);
    var text := NO_TEXT;
    if Given(content) {
      var g := GatherText(content, [TEXT], NO_TEXT);
      if g.None? { return false; }
      text := g.value;
    } else if !assistant {
      return false;
    }
    if assistant {
      ok := AddAssistant(put, c, m, text.text);
    } else if tool {
      c.Message(ROLE_TOOL, text.text, Some(StrOr(Get(m, TOOL_CALL_ID))));
      ok := true;
    } else {
      c.Message(if user then USER else ROLE_SYSTEM, text.text, None);
      ok := true;
    }
  }

  method ConvertChat(put: Put, req: Tree) returns (r: Option<seq<OutMsg>>)
    ensures r == Chat(put, req)
  {
    hide ChatMessage;
    hide UpToNul;
    if Given(Get(req, FUNCTIONS)) { return None; }
    var choice := Get(req, FUNCTION_CALL);
    if Given(choice) && !StrIs(choice, NONE) && !StrIs(choice, AUTO) { return None; }
    var v := Get(req, MESSAGES);
    if v.None? || !v.value.Items? || v.value.items == [] { return None; }
    var ms := v.value.items;
    var c := new Builder();
    assert ms[0..] == ms;
    for i := 0 to |ms|
      invariant ChatMessages(put, c.State(), ms[i..]) == ChatMessages(put, NO_CONV, ms)
    {
      assert ms[i..][0] == ms[i] && ms[i..][1..] == ms[i + 1..];
      var ok := AddChatMessage(put, c, ms[i]);
      if !ok { return None; }
    }
    assert ms[|ms|..] == [];
    c.Flush();
    r := Some(c.out);
  }

  // ---- Messages ----

  /** The end of a user's turn, if one is open. */
  method CloseUser(c: Builder, userOpen: bool, g: Gathered, anyResult: bool)
    modifies c
    ensures UserClosed(Talk(old(c.State()), userOpen, g, anyResult)) == Talk(c.State(), false, g, anyResult)
  {
    if userOpen && (g.any || !anyResult) { c.Message(USER, g.text, None); }
  }

  method AddBlock(put: Put, c: Builder, user: bool, b: Tree, userOpen: bool, g0: Gathered, any0: bool)
    returns (ok: bool, g: Gathered, anyResult: bool)
    modifies c
    ensures (var t := Talk(old(c.State()), userOpen, g0, any0);
             if user then UserBlock(t, b) else AssistantBlock(put, t, b))
         == if ok then Some(Talk(c.State(), userOpen, g, anyResult)) else None
  {
    hide UpToNul;
    hide TextOf;
    ok, g, anyResult := true, g0, any0;
    var kind, text := Get(b, TYPE), Get(b, TEXT);
    if StrIs(kind, TEXT) && IsStr(text) {
      if user { g := AndThen(g, text.value.s); } else { c.AddText(text.value.s); }
    } else if user && StrIs(kind, TOOL_RESULT) {
      var rc := Get(b, CONTENT);
      var result := NO_TEXT;
      if Given(rc) {
        var gathered := GatherText(rc, [TEXT], NO_TEXT);
        if gathered.None? { return false, g, anyResult; }
        result := gathered.value;
      }
      c.Message(ROLE_TOOL, result.text, Some(StrOr(Get(b, TOOL_USE_ID))));
      anyResult := true;
    } else if !user && StrIs(kind, TOOL_USE) {
      var name := Get(b, NAME);
      if !IsStr(name) { return false, g, anyResult; }
      c.AddCall(put, Get(b, ID), name.value.s, Get(b, INPUT));
    } else if !user && StrIs(kind, THINKING) {
      c.AddReasoning(StrOr(Get(b, THINKING)));
    } else if !user && StrIs(kind, REDACTED) {
    } else {
      ok := false;
    }
  }

  method AddTalk(put: Put, c: Builder, m: Tree, open0: bool, g0: Gathered, any0: bool)
    returns (ok: bool, userOpen: bool, g: Gathered, anyResult: bool)
    modifies c
    ensures TalkMessage(put, Talk(old(c.State()), open0, g0, any0), m)
         == if ok then Some(Talk(c.State(), userOpen, g, anyResult)) else None
  {
    hide UpToNul;
    hide TextOf;
    hide UserBlock;
    hide AssistantBlock;
    ok, userOpen, g, anyResult := false, open0, g0, any0;
    var role, content := Get(m, ROLE), Get(m, CONTENT);
    var user, assistant, system := StrIs(role, USER), StrIs(role, ASSISTANT), StrIs(role, ROLE_SYSTEM);
    if !user && !assistant && !system { return; }
    if content.None? || !(content.value.Text? || content.value.Items?) { return; }
    if user && !userOpen {
      c.Flush();
      userOpen, g, anyResult := true, NO_TEXT, false;
    }
    if !user {
      CloseUser(c, userOpen, g, anyResult);
      userOpen := false;
    }
    if system {
      var s := GatherText(content, [TEXT], NO_TEXT);
      if s.None? { return; }
      c.Message(ROLE_SYSTEM, s.value.text, None);
      ok := true;
      return;
    }
    if content.value.Text? {
      if user { g := AndThen(g, content.value.s); } else { c.AddText(content.value.s); }
      ok := true;
      return;
    }
    if assistant { c.open := true; }
    ok, g, anyResult := AddBlocks(put, c, user, content.value.items, userOpen, g, anyResult);
  }

  method AddBlocks(put: Put, c: Builder, user: bool, bs: seq<Tree>, userOpen: bool, g0: Gathered, any0: bool)
    returns (ok: bool, g: Gathered, anyResult: bool)
    modifies c
    ensures Blocks(put, Talk(old(c.State()), userOpen, g0, any0), user, bs)
         == if ok then Some(Talk(c.State(), userOpen, g, anyResult)) else None
  {
    hide UserBlock;
    hide AssistantBlock;
    ok, g, anyResult := true, g0, any0;
    assert bs[0..] == bs;
    for j := 0 to |bs|
      invariant ok && Blocks(put, Talk(c.State(), userOpen, g, anyResult), user, bs[j..])
                   == Blocks(put, Talk(old(c.State()), userOpen, g0, any0), user, bs)
    {
      assert bs[j..][0] == bs[j] && bs[j..][1..] == bs[j + 1..];
      ok, g, anyResult := AddBlock(put, c, user, bs[j], userOpen, g, anyResult);
      if !ok { return; }
    }
    assert bs[|bs|..] == [];
  }

  method ConvertMessages(put: Put, req: Tree) returns (r: Option<seq<OutMsg>>)
    ensures r == Messages(put, req)
  {
    hide TalkMessage;
    hide UpToNul;
    hide TextOf;
    var c := new Builder();
    var system := Get(req, ROLE_SYSTEM);
    if Given(system) {
      var s := GatherText(system, [TEXT], NO_TEXT);
      if s.None? { return None; }
      c.Message(ROLE_SYSTEM, s.value.text, None);
    }
    var v := Get(req, MESSAGES);
    if v.None? || !v.value.Items? || v.value.items == [] { return None; }
    var ms := v.value.items;
    var ok, userOpen, g, anyResult := true, false, NO_TEXT, false;
    ghost var t0 := Talk(c.State(), userOpen, g, anyResult);
    assert ms[0..] == ms;
    for i := 0 to |ms|
      invariant ok && TalkMessages(put, Talk(c.State(), userOpen, g, anyResult), ms[i..]) == TalkMessages(put, t0, ms)
    {
      assert ms[i..][0] == ms[i] && ms[i..][1..] == ms[i + 1..];
      ok, userOpen, g, anyResult := AddTalk(put, c, ms[i], userOpen, g, anyResult);
      if !ok { return None; }
    }
    assert ms[|ms|..] == [];
    if StrIs(Get(ms[|ms| - 1], ROLE), ASSISTANT) && c.calls != [] { return None; }
    CloseUser(c, userOpen, g, anyResult);
    c.Flush();
    r := Some(c.out);
  }

  // ---- Responses ----

  /** Reasoning that waited goes with the turn now open. */
  method TakePending(c: Builder, pending0: bool, g0: Gathered) returns (pending: bool, g: Gathered)
    modifies c
    ensures WithPending(Flow(old(c.State()), pending0, g0)) == Flow(c.State(), pending, g)
  {
    pending, g := pending0, g0;
    if pending {
      c.AddReasoning(g.text);
      pending, g := false, NO_TEXT;
    }
  }

  method AddItem(put: Put, c: Builder, it: Tree, pending0: bool, g0: Gathered)
      returns (ok: bool, pending: bool, g: Gathered)
    modifies c
    ensures FlowItem(put, Flow(old(c.State()), pending0, g0), it) == if ok then Some(Flow(c.State(), pending, g))
        else None
  {
    hide UpToNul;
    hide TextOf;
    hide TextParts;
    ok, pending, g := false, pending0, g0;
    var kind, role := Get(it, TYPE), Get(it, ROLE);
    if (!Given(kind) || StrIs(kind, MESSAGE)) && IsStr(role) {
      var text := GatherText(Get(it, CONTENT), ITEM_TEXT, NO_TEXT);
      if text.None? { return; }
      ok, pending, g := AddSaid(c, UpToNul(role.value.s), text.value.text, pending, g);
    } else if StrIs(kind, FUNCTION_CALL) {
      var name := Get(it, NAME);
      if !IsStr(name) { return; }
      if !c.open || pending {
        c.Flush();
        c.open := true;
      }
      pending, g := TakePending(c, pending, g);
      c.AddCall(put, Get(it, CALL_ID), name.value.s, Get(it, ARGUMENTS));
      ok := true;
    } else if StrIs(kind, CALL_OUTPUT) {
      var text := GatherText(Get(it, OUTPUT), ITEM_TEXT, NO_TEXT);
      if text.None? { return; }
      c.Message(ROLE_TOOL, text.value.text, Some(StrOr(Get(it, CALL_ID))));
      ok := true;
    } else if StrIs(kind, REASONING) {
      ok, pending, g := AddReason(c, it, pending, g);
    }
  }

  method AddSaid(c: Builder, role: Bytes, text: Bytes, pending0: bool, g0: Gathered)
      returns (ok: bool, pending: bool, g: Gathered)
    modifies c
    ensures FlowMessage(Flow(old(c.State()), pending0, g0), role, text) ==
        if ok then Some(Flow(c.State(), pending, g)) else None
  {
    ok, pending, g := true, pending0, g0;
    if role == ASSISTANT {
      c.Flush();
      c.open := true;
      if text != [] { c.AddText(text); }
      pending, g := TakePending(c, pending, g);
    } else if role == USER {
      c.Message(USER, text, None);
    } else if role == ROLE_SYSTEM || role == ROLE_DEVELOPER {
      c.Message(ROLE_SYSTEM, text, None);
    } else {
      ok := false;
    }
  }

  method AddReason(ghost c: Builder, it: Tree, pending0: bool, g0: Gathered)
      returns (ok: bool, pending: bool, g: Gathered)
    ensures FlowReasoning(Flow(c.State(), pending0, g0), it) == if ok then Some(Flow(c.State(), pending, g)) else None
  {
    hide TextParts;
    ok, pending, g := true, pending0, g0;
    var rc := Get(it, CONTENT);
    if rc.None? || !rc.value.Items? || rc.value.items == [] { rc := Get(it, SUMMARY); }
    if rc.Some? && rc.value.Items? {
      var gathered := GatherText(rc, [REASONING_TEXT, SUMMARY_TEXT], g);
      if gathered.None? { return false, pending, g; }
      g := gathered.value;
    }
    pending := true;
  }

  method ConvertResponses(put: Put, req: Tree) returns (r: Option<seq<OutMsg>>)
    ensures r == Responses(put, req)
  {
    hide FlowItem;
    var c := new Builder();
    var told := Get(req, INSTRUCTIONS);
    if Given(told) && !IsStr(told) { return None; }
    if IsStr(told) { c.Message(ROLE_SYSTEM, told.value.s, None); }
    var input := Get(req, INPUT);
    if input.Some? && input.value.Text? {
      c.Message(USER, input.value.s, None);
      c.Flush();
      return Some(c.out);
    }
    if input.None? || !input.value.Items? || input.value.items == [] { return None; }
    var its := input.value.items;
    var ok, pending, g := true, false, NO_TEXT;
    ghost var s0 := Flow(c.State(), pending, g);
    assert its[0..] == its;
    for i := 0 to |its|
      invariant ok && FlowItems(put, Flow(c.State(), pending, g), its[i..]) == FlowItems(put, s0, its)
    {
      assert its[i..][0] == its[i] && its[i..][1..] == its[i + 1..];
      ok, pending, g := AddItem(put, c, its[i], pending, g);
      if !ok { return None; }
    }
    assert its[|its|..] == [];
    c.Flush();
    r := Some(c.out);
  }

  // ---- Tools ----

  method ConvertTools(shape: Shape, show: Show, ts: seq<Tree>) returns (r: Option<seq<OutTool>>)
    ensures r == ToolsOf(shape, show, ts)
  {
    hide ChatTool;
    hide MessagesTool;
    hide ResponsesTool;
    var out: seq<OutTool> := [];
    assert ts[0..] == ts;
    NothingFirst(ToolsOf(shape, show, ts));
    for i := 0 to |ts|
      invariant ToolsOf(shape, show, ts) == OneThen(Some(out), ToolsOf(shape, show, ts[i..]))
    {
      assert ts[i..][0] == ts[i] && ts[i..][1..] == ts[i + 1..];
      var one := match shape
                 case ChatShape => ChatTool(show, ts[i])
                 case MessagesShape => MessagesTool(show, ts[i])
                 case ResponsesShape => ResponsesTool(show, ts[i]);
      if one.None? { return None; }
      ThenMore(out, one.value, ToolsOf(shape, show, ts[i + 1..]));
      out := out + one.value;
    }
    assert ts[|ts|..] == [] && out + [] == out;
    r := Some(out);
  }

  lemma NothingFirst(a: Option<seq<OutTool>>)
    ensures OneThen(Some([]), a) == a
  {
    if a.Some? { assert [] + a.value == a.value; }
  }

  lemma ThenMore(out: seq<OutTool>, one: seq<OutTool>, a: Option<seq<OutTool>>)
    ensures OneThen(Some(out), OneThen(Some(one), a)) == OneThen(Some(out + one), a)
  {
    if a.Some? { assert out + (one + a.value) == out + one + a.value; }
  }
}
