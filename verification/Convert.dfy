/**
 * The converters: a request in OpenAI's chat shape, in Anthropic's Messages
 * or in OpenAI's Responses becomes one list of messages for the chat
 * template. A message's JSON text is a function of it and is left as a value
 * here (OutMsg).
 */
module Convert {
  import opened Basics
  import opened JsonGrammar
  import opened JsonTree
  import opened JsonWriter
  import opened FloatRepr
  import opened ChatCall
  import opened ChatTurn

  const ROLE_SYSTEM: Bytes := [0x73, 0x79, 0x73, 0x74, 0x65, 0x6D]
  const ROLE_DEVELOPER: Bytes := [0x64, 0x65, 0x76, 0x65, 0x6C, 0x6F, 0x70, 0x65, 0x72]
  const ROLE_TOOL: Bytes := [0x74, 0x6F, 0x6F, 0x6C]
  const FUNCTION_CALL: Bytes := [0x66, 0x75, 0x6E, 0x63, 0x74, 0x69, 0x6F, 0x6E, 0x5F, 0x63, 0x61, 0x6C, 0x6C]
  const FUNCTIONS: Bytes := [0x66, 0x75, 0x6E, 0x63, 0x74, 0x69, 0x6F, 0x6E, 0x73]
  const REASONING: Bytes := [0x72, 0x65, 0x61, 0x73, 0x6F, 0x6E, 0x69, 0x6E, 0x67]
  const TOOL_CALL_ID: Bytes := [0x74, 0x6F, 0x6F, 0x6C, 0x5F, 0x63, 0x61, 0x6C, 0x6C, 0x5F, 0x69, 0x64]
  const ID: Bytes := [0x69, 0x64]
  const TYPE: Bytes := [0x74, 0x79, 0x70, 0x65]
  const TEXT: Bytes := [0x74, 0x65, 0x78, 0x74]
  const MESSAGES: Bytes := [0x6D, 0x65, 0x73, 0x73, 0x61, 0x67, 0x65, 0x73]
  const TOOL_RESULT: Bytes := [0x74, 0x6F, 0x6F, 0x6C, 0x5F, 0x72, 0x65, 0x73, 0x75, 0x6C, 0x74]
  const TOOL_USE: Bytes := [0x74, 0x6F, 0x6F, 0x6C, 0x5F, 0x75, 0x73, 0x65]
  const TOOL_USE_ID: Bytes := [0x74, 0x6F, 0x6F, 0x6C, 0x5F, 0x75, 0x73, 0x65, 0x5F, 0x69, 0x64]
  const THINKING: Bytes := [0x74, 0x68, 0x69, 0x6E, 0x6B, 0x69, 0x6E, 0x67]
  const REDACTED: Bytes := [0x72, 0x65, 0x64, 0x61, 0x63, 0x74, 0x65, 0x64, 0x5F,
    0x74, 0x68, 0x69, 0x6E, 0x6B, 0x69, 0x6E, 0x67]
  const INPUT: Bytes := [0x69, 0x6E, 0x70, 0x75, 0x74]
  const INSTRUCTIONS: Bytes := [0x69, 0x6E, 0x73, 0x74, 0x72, 0x75, 0x63, 0x74, 0x69, 0x6F, 0x6E, 0x73]
  const MESSAGE: Bytes := [0x6D, 0x65, 0x73, 0x73, 0x61, 0x67, 0x65]
  const CALL_ID: Bytes := [0x63, 0x61, 0x6C, 0x6C, 0x5F, 0x69, 0x64]
  const CALL_OUTPUT: Bytes := [0x66, 0x75, 0x6E, 0x63, 0x74, 0x69, 0x6F, 0x6E, 0x5F, 0x63, 0x61,
    0x6C, 0x6C, 0x5F, 0x6F, 0x75, 0x74, 0x70, 0x75, 0x74]
  const OUTPUT: Bytes := [0x6F, 0x75, 0x74, 0x70, 0x75, 0x74]
  const SUMMARY: Bytes := [0x73, 0x75, 0x6D, 0x6D, 0x61, 0x72, 0x79]
  const REASONING_TEXT: Bytes := [0x72, 0x65, 0x61, 0x73, 0x6F, 0x6E, 0x69, 0x6E, 0x67, 0x5F, 0x74, 0x65, 0x78, 0x74]
  const SUMMARY_TEXT: Bytes := [0x73, 0x75, 0x6D, 0x6D, 0x61, 0x72, 0x79, 0x5F, 0x74, 0x65, 0x78, 0x74]
  const INPUT_TEXT: Bytes := [0x69, 0x6E, 0x70, 0x75, 0x74, 0x5F, 0x74, 0x65, 0x78, 0x74]
  const OUTPUT_TEXT: Bytes := [0x6F, 0x75, 0x74, 0x70, 0x75, 0x74, 0x5F, 0x74, 0x65, 0x78, 0x74]
  const NONE: Bytes := [0x6E, 0x6F, 0x6E, 0x65]
  const AUTO: Bytes := [0x61, 0x75, 0x74, 0x6F]

  // ---- What the converters write ----

  datatype OutCall = OutCall(id: Bytes, name: Bytes, args: Bytes)

  /** A system, user or tool message, the last with the id of the call it answers; or an assistant's turn. */
  datatype OutMsg =
    | Alone(role: Bytes, content: Bytes, callId: Option<Bytes>)
    | Turn(content: Bytes, reasoning: Option<Bytes>, calls: seq<OutCall>)

  /** The messages so far, and the assistant's turn being gathered. */
  datatype Conv = Conv(out: seq<OutMsg>, open: bool, content: Bytes, reasoning: Bytes, calls: seq<OutCall>,
                       anyContent: bool, hasReasoning: bool, anyReasoning: bool)

  const NO_CONV := Conv([], false, [], [], [], false, false, false)

  function Joined(buf: Bytes, any: bool, s: Bytes): Bytes { (if any then buf + NL else buf) + s }

  function Flushed(c: Conv): Conv {
    if !c.open then c
    else Conv(c.out + [Turn(c.content, if c.hasReasoning then Some(c.reasoning) else None, c.calls)],
              false, [], [], [], false, false, false)
  }

  function Messaged(c: Conv, role: Bytes, content: Bytes, callId: Option<Bytes>): Conv {
    var d := Flushed(c);
    d.(out := d.out + [Alone(role, content, callId)])
  }

  function Opened(c: Conv): Conv { c.(open := true) }

  function Texted(c: Conv, s: Bytes): Conv {
    c.(open := true, content := Joined(c.content, c.anyContent, s), anyContent := true)
  }

  function Reasoned(c: Conv, s: Bytes): Conv {
    c.(open := true, hasReasoning := true, reasoning := Joined(c.reasoning, c.anyReasoning, s), anyReasoning := true)
  }

  // ---- Members ----

  predicate Given(v: Option<Tree>) { v.Some? && v.value != Atom(Null) }

  /** What strcmp sees of a string. */
  function UpToNul(s: Bytes): Bytes { if s == [] || s[0] == 0 then [] else [s[0]] + UpToNul(s[1..]) }

  predicate IsStr(v: Option<Tree>) { v.Some? && v.value.Text? }

  predicate StrIs(v: Option<Tree>, s: Bytes) { IsStr(v) && UpToNul(v.value.s) == s }

  function StrOr(v: Option<Tree>): Bytes { if IsStr(v) then v.value.s else [] }

  /** How a call's arguments are written. */
  type Put = Option<Tree> -> Bytes

  /**
   * A call's arguments: an object, or a string that holds one, as Python writes it; any other
   * string as a string; none as an empty object.
   */
  function Arguments(f: Floats, args: Option<Tree>): Bytes
    requires Sound(f)
  {
    if !Given(args) || args == Some(Text([])) then EMPTY_OBJECT else Plain(Norm(f, Inner(args).value))
  }

  function Called(put: Put, c: Conv, id: Option<Tree>, name: Bytes, args: Option<Tree>): Conv
  {
    c.(open := true, calls := c.calls + [OutCall(StrOr(id), name, put(args))])
  }

  /** Text gathered, and whether there is any. */
  datatype Gathered = Gathered(text: Bytes, any: bool)

  const NO_TEXT := Gathered([], false)

  function AndThen(g: Gathered, s: Bytes): Gathered { Gathered(Joined(g.text, g.any, s), true) }

  predicate Known(part: Tree, types: seq<Bytes>) { exists t <- types :: StrIs(Get(part, TYPE), t) }

  /** Text from a string, or from parts whose type is one of some: none for any other part. */
  function TextOf(v: Option<Tree>, types: seq<Bytes>, g: Gathered): Option<Gathered> {
    match v
    case Some(Text(s)) => Some(AndThen(g, s))
    case Some(Items(parts)) => TextParts(parts, types, g)
    case _ => None
  }

  function TextParts(parts: seq<Tree>, types: seq<Bytes>, g: Gathered): Option<Gathered> {
    if parts == [] then Some(g)
    else if Known(parts[0], types) && IsStr(Get(parts[0], TEXT)) then
      TextParts(parts[1..], types, AndThen(g, Get(parts[0], TEXT).value.s))
    else None
  }

  // ---- Chat completions ----

  function ChatCalls(put: Put, c: Conv, calls: seq<Tree>): Option<Conv>
    decreases calls
  {
    if calls == [] then Some(c)
    else
      var fn := Get(calls[0], FUNCTION);
      var name := if fn.Some? then Get(fn.value, NAME) else None;
      if !IsStr(name) then None
      else ChatCalls(put, Called(put, c, Get(calls[0], ID), name.value.s, Get(fn.value, ARGUMENTS)), calls[1..])
  }

  function ChatAssistant(put: Put, c: Conv, m: Tree, text: Bytes): Option<Conv>
  {
    var c1 := Opened(Flushed(c));
    var c2 := if text != [] then Texted(c1, text) else c1;
    var rc := if IsStr(Get(m, REASONING_CONTENT)) then Get(m, REASONING_CONTENT) else Get(m, REASONING);
    var c3 := if IsStr(rc) then Reasoned(c2, rc.value.s) else c2;
    var calls := Get(m, TOOL_CALLS);
    if !Given(calls) then Some(Flushed(c3))
    else if !calls.value.Items? then None
    else
      match ChatCalls(put, c3, calls.value.items)
      case None => None
      case Some(c4) => Some(Flushed(c4))
  }

  function ChatMessage(put: Put, c: Conv, m: Tree): Option<Conv>
  {
    var role, content := Get(m, ROLE), Get(m, CONTENT);
    var assistant, tool, user := StrIs(role, ASSISTANT), StrIs(role, ROLE_TOOL), StrIs(role, USER);
    var system := StrIs(role, ROLE_SYSTEM) || StrIs(role, ROLE_DEVELOPER);
    if !(assistant || tool || system || user) || Given(Get(m, NAME)) || Given(Get(m, FUNCTION_CALL)) then None
    else
      var g := if Given(content) then TextOf(content, [TEXT], NO_TEXT) else if assistant then Some(NO_TEXT) else None;
      match g
      case None => None
      case Some(t) =>
        if assistant then ChatAssistant(put, c, m, t.text)
        else if tool then Some(Messaged(c, ROLE_TOOL, t.text, Some(StrOr(Get(m, TOOL_CALL_ID)))))
        else Some(Messaged(c, if user then USER else ROLE_SYSTEM, t.text, None))
  }

  function ChatMessages(put: Put, c: Conv, ms: seq<Tree>): Option<Conv>
    decreases ms
  {
    if ms == [] then Some(c)
    else
      match ChatMessage(put, c, ms[0])
      case None => None
      case Some(c1) => ChatMessages(put, c1, ms[1..])
  }

  /** The messages of a chat request, or nothing if it is refused. */
  function Chat(put: Put, req: Tree): Option<seq<OutMsg>>
  {
    var choice := Get(req, FUNCTION_CALL);
    var ms := Get(req, MESSAGES);
    if Given(Get(req, FUNCTIONS)) || (Given(choice) && !StrIs(choice, NONE) && !StrIs(choice, AUTO)) then None
    else if ms.None? || !ms.value.Items? || ms.value.items == [] then None
    else
      match ChatMessages(put, NO_CONV, ms.value.items)
      case None => None
      case Some(c) => Some(Flushed(c).out)
  }

  // ---- Messages ----

  /** The messages so far, and the user's turn being gathered: its text, and whether it held results. */
  datatype Talk = Talk(c: Conv, userOpen: bool, g: Gathered, anyResult: bool)

  /** A user's turn ends: its text is one message, unless it was results alone. */
  function UserClosed(t: Talk): Talk {
    if !t.userOpen then t
    else if t.g.any || !t.anyResult then t.(c := Messaged(t.c, USER, t.g.text, None), userOpen := false)
    else t.(userOpen := false)
  }

  function UserBlock(t: Talk, b: Tree): Option<Talk> {
    if StrIs(Get(b, TYPE), TEXT) && IsStr(Get(b, TEXT)) then Some(t.(g := AndThen(t.g, Get(b, TEXT).value.s)))
    else if StrIs(Get(b, TYPE), TOOL_RESULT) then
      var rc := Get(b, CONTENT);
      match if Given(rc) then TextOf(rc, [TEXT], NO_TEXT) else Some(NO_TEXT)
      case None => None
      case Some(g) => Some(t.(c := Messaged(t.c, ROLE_TOOL, g.text, Some(StrOr(Get(b, TOOL_USE_ID)))),
          anyResult := true))
    else None
  }

  function AssistantBlock(put: Put, t: Talk, b: Tree): Option<Talk>
  {
    var kind := Get(b, TYPE);
    if StrIs(kind, TEXT) && IsStr(Get(b, TEXT)) then Some(t.(c := Texted(t.c, Get(b, TEXT).value.s)))
    else if StrIs(kind, TOOL_USE) then
      var name := Get(b, NAME);
      if IsStr(name) then Some(t.(c := Called(put, t.c, Get(b, ID), name.value.s, Get(b, INPUT)))) else None
    else if StrIs(kind, THINKING) then Some(t.(c := Reasoned(t.c, StrOr(Get(b, THINKING)))))
    else if StrIs(kind, REDACTED) then Some(t)
    else None
  }

  function Blocks(put: Put, t: Talk, user: bool, bs: seq<Tree>): Option<Talk>
    decreases bs
  {
    if bs == [] then Some(t)
    else
      match if user then UserBlock(t, bs[0]) else AssistantBlock(put, t, bs[0])
      case None => None
      case Some(t1) => Blocks(put, t1, user, bs[1..])
  }

  function TalkMessage(put: Put, t: Talk, m: Tree): Option<Talk>
  {
    var role, content := Get(m, ROLE), Get(m, CONTENT);
    var user, assistant, system := StrIs(role, USER), StrIs(role, ASSISTANT), StrIs(role, ROLE_SYSTEM);
    if !(user || assistant || system) || content.None? || !(content.value.Text? || content.value.Items?) then None
    else
      var t1 := if user then (if t.userOpen then t else Talk(Flushed(t.c), true, NO_TEXT, false)) else UserClosed(t);
      if system then
        match TextOf(content, [TEXT], NO_TEXT)
        case None => None
        case Some(g) => Some(t1.(c := Messaged(t1.c, ROLE_SYSTEM, g.text, None)))
      else if content.value.Text? then
        if user then Some(t1.(g := AndThen(t1.g, content.value.s))) else Some(t1.(c := Texted(t1.c, content.value.s)))
      else Blocks(put, if user then t1 else t1.(c := Opened(t1.c)), user, content.value.items)
  }

  function TalkMessages(put: Put, t: Talk, ms: seq<Tree>): Option<Talk>
    decreases ms
  {
    if ms == [] then Some(t)
    else
      match TalkMessage(put, t, ms[0])
      case None => None
      case Some(t1) => TalkMessages(put, t1, ms[1..])
  }

  /** The system message, if there is one. */
  function SystemFirst(v: Option<Tree>): Option<Conv> {
    if !Given(v) then Some(NO_CONV)
    else
      match TextOf(v, [TEXT], NO_TEXT)
      case None => None
      case Some(g) => Some(Messaged(NO_CONV, ROLE_SYSTEM, g.text, None))
  }

  /** The messages of a Messages request; none if it is refused, as one is that would go on after a tool use. */
  function Messages(put: Put, req: Tree): Option<seq<OutMsg>>
  {
    var first := SystemFirst(Get(req, ROLE_SYSTEM));
    var ms := Get(req, MESSAGES);
    if first.None? || ms.None? || !ms.value.Items? || ms.value.items == [] then None
    else
      match TalkMessages(put, Talk(first.value, false, NO_TEXT, false), ms.value.items)
      case None => None
      case Some(t) =>
        if StrIs(Get(ms.value.items[|ms.value.items| - 1], ROLE), ASSISTANT) && t.c.calls != [] then None
        else Some(Flushed(UserClosed(t).c).out)
  }

  // ---- Responses ----

  /** The messages so far, and reasoning waiting for the turn it goes with. */
  datatype Flow = Flow(c: Conv, pending: bool, g: Gathered)

  const ITEM_TEXT: seq<Bytes> := [INPUT_TEXT, OUTPUT_TEXT, TEXT]

  function WithPending(s: Flow): Flow {
    if s.pending then Flow(Reasoned(s.c, s.g.text), false, NO_TEXT) else s
  }

  function FlowMessage(s: Flow, role: Bytes, text: Bytes): Option<Flow> {
    if role == ASSISTANT then
      var c1 := Opened(Flushed(s.c));
      Some(WithPending(s.(c := if text != [] then Texted(c1, text) else c1)))
    else if role == USER then Some(s.(c := Messaged(s.c, USER, text, None)))
    else if role == ROLE_SYSTEM || role == ROLE_DEVELOPER then Some(s.(c := Messaged(s.c, ROLE_SYSTEM, text, None)))
    else None
  }

  function FlowReasoning(s: Flow, it: Tree): Option<Flow> {
    var content := Get(it, CONTENT);
    var rc := if content.Some? && content.value.Items? && content.value.items != [] then content else Get(it, SUMMARY);
    if rc.None? || !rc.value.Items? then Some(s.(pending := true))
    else
      match TextParts(rc.value.items, [REASONING_TEXT, SUMMARY_TEXT], s.g)
      case None => None
      case Some(g) => Some(s.(pending := true, g := g))
  }

  function FlowItem(put: Put, s: Flow, it: Tree): Option<Flow>
  {
    var kind, role := Get(it, TYPE), Get(it, ROLE);
    if (!Given(kind) || StrIs(kind, MESSAGE)) && IsStr(role) then
      match TextOf(Get(it, CONTENT), ITEM_TEXT, NO_TEXT)
      case None => None
      case Some(g) => FlowMessage(s, UpToNul(role.value.s), g.text)
    else if StrIs(kind, FUNCTION_CALL) then
      var name := Get(it, NAME);
      if !IsStr(name) then None
      else
        var s1 := WithPending(if !s.c.open || s.pending then s.(c := Opened(Flushed(s.c))) else s);
        Some(s1.(c := Called(put, s1.c, Get(it, CALL_ID), name.value.s, Get(it, ARGUMENTS))))
    else if StrIs(kind, CALL_OUTPUT) then
      match TextOf(Get(it, OUTPUT), ITEM_TEXT, NO_TEXT)
      case None => None
      case Some(g) => Some(s.(c := Messaged(s.c, ROLE_TOOL, g.text, Some(StrOr(Get(it, CALL_ID))))))
    else if StrIs(kind, REASONING) then FlowReasoning(s, it)
    else None
  }

  function FlowItems(put: Put, s: Flow, its: seq<Tree>): Option<Flow>
    decreases its
  {
    if its == [] then Some(s)
    else
      match FlowItem(put, s, its[0])
      case None => None
      case Some(s1) => FlowItems(put, s1, its[1..])
  }

  /** The messages of a Responses request, or nothing if it is refused. */
  function Responses(put: Put, req: Tree): Option<seq<OutMsg>>
  {
    var told, input := Get(req, INSTRUCTIONS), Get(req, INPUT);
    if Given(told) && !told.value.Text? then None
    else
      var c := if IsStr(told) then Messaged(NO_CONV, ROLE_SYSTEM, told.value.s, None) else NO_CONV;
      match input
      case Some(Text(s)) => Some(Messaged(c, USER, s, None).out)
      case Some(Items(its)) =>
        if its == [] then None
        else
          (match FlowItems(put, Flow(c, false, NO_TEXT), its)
           case None => None
           case Some(s) => Some(Flushed(s.c).out))
      case _ => None
  }

  // ---- Tools ----

  const DESCRIPTION: Bytes := [0x64, 0x65, 0x73, 0x63, 0x72, 0x69, 0x70, 0x74, 0x69, 0x6F, 0x6E]
  const PARAMETERS: Bytes := [0x70, 0x61, 0x72, 0x61, 0x6D, 0x65, 0x74, 0x65, 0x72, 0x73]
  const INPUT_SCHEMA: Bytes := [0x69, 0x6E, 0x70, 0x75, 0x74, 0x5F, 0x73, 0x63, 0x68, 0x65, 0x6D, 0x61]
  const CUSTOM: Bytes := [0x63, 0x75, 0x73, 0x74, 0x6F, 0x6D]
  const NAMESPACE: Bytes := [0x6E, 0x61, 0x6D, 0x65, 0x73, 0x70, 0x61, 0x63, 0x65]
  const TOOLS: Bytes := [0x74, 0x6F, 0x6F, 0x6C, 0x73]
  const WEB_SEARCH: Bytes := [0x77, 0x65, 0x62, 0x5F, 0x73, 0x65, 0x61, 0x72, 0x63, 0x68]
  const FILE_SEARCH: Bytes := [0x66, 0x69, 0x6C, 0x65, 0x5F, 0x73, 0x65, 0x61, 0x72, 0x63, 0x68]
  const CODE_INTERPRETER: Bytes := [0x63, 0x6F, 0x64, 0x65, 0x5F, 0x69, 0x6E, 0x74, 0x65,
    0x72, 0x70, 0x72, 0x65, 0x74, 0x65, 0x72]
  const IMAGE_GENERATION: Bytes := [0x69, 0x6D, 0x61, 0x67, 0x65, 0x5F, 0x67, 0x65, 0x6E,
    0x65, 0x72, 0x61, 0x74, 0x69, 0x6F, 0x6E]
  const MCP: Bytes := [0x6D, 0x63, 0x70]
  const COMPUTER: Bytes := [0x63, 0x6F, 0x6D, 0x70, 0x75, 0x74, 0x65, 0x72]
  const COMPUTER_PREVIEW: Bytes := [0x63, 0x6F, 0x6D, 0x70, 0x75, 0x74, 0x65, 0x72, 0x5F, 0x75, 0x73,
    0x65, 0x5F, 0x70, 0x72, 0x65, 0x76, 0x69, 0x65, 0x77]

  /** A tool in the chat shape: what was not given is left out. */
  datatype OutTool = OutTool(name: Bytes, description: Option<Bytes>, parameters: Option<Bytes>)

  /** How a tool's parameters are written. */
  type Show = Tree -> Bytes

  function ToolOut(show: Show, name: Bytes, description: Option<Tree>, parameters: Option<Tree>): OutTool {
    OutTool(name, if IsStr(description) then Some(description.value.s) else None,
            if Given(parameters) then Some(show(parameters.value)) else None)
  }

  /** What an entry of a request's tools offers: nothing, if the request is refused for it. */
  function ChatTool(show: Show, t: Tree): Option<seq<OutTool>> {
    var fn := Get(t, FUNCTION);
    var name := if fn.Some? then Get(fn.value, NAME) else None;
    if !StrIs(Get(t, TYPE), FUNCTION) || !IsStr(name) then None
    else Some([ToolOut(show, name.value.s, Get(fn.value, DESCRIPTION), Get(fn.value, PARAMETERS))])
  }

  function MessagesTool(show: Show, t: Tree): Option<seq<OutTool>> {
    var kind, name := Get(t, TYPE), Get(t, NAME);
    if (Given(kind) && !StrIs(kind, CUSTOM)) || !IsStr(name) then None
    else Some([ToolOut(show, name.value.s, Get(t, DESCRIPTION), Get(t, INPUT_SCHEMA))])
  }

  /** The tools OpenAI runs on its own side. */
  predicate Hosted(kind: Option<Tree>) {
    IsStr(kind) &&
    var k := UpToNul(kind.value.s);
    WEB_SEARCH <= k || k in {FILE_SEARCH, CODE_INTERPRETER, IMAGE_GENERATION, MCP, COMPUTER_PREVIEW, COMPUTER}
  }

  function NamespaceTools(show: Show, inner: seq<Tree>): Option<seq<OutTool>> {
    if inner == [] then Some([])
    else if !StrIs(Get(inner[0], TYPE), FUNCTION) then None
    else OneThen(ResponsesFunction(show, inner[0]), NamespaceTools(show, inner[1..]))
  }

  function ResponsesFunction(show: Show, t: Tree): Option<seq<OutTool>> {
    var name := Get(t, NAME);
    if !IsStr(name) then None else Some([ToolOut(show, name.value.s, Get(t, DESCRIPTION), Get(t, PARAMETERS))])
  }

  function OneThen(a: Option<seq<OutTool>>, b: Option<seq<OutTool>>): Option<seq<OutTool>> {
    if a.None? || b.None? then None else Some(a.value + b.value)
  }

  function ResponsesTool(show: Show, t: Tree): Option<seq<OutTool>> {
    var kind, inner := Get(t, TYPE), Get(t, TOOLS);
    if StrIs(kind, FUNCTION) then ResponsesFunction(show, t)
    else if StrIs(kind, NAMESPACE) then
      if inner.Some? && inner.value.Items? then NamespaceTools(show, inner.value.items) else Some([])
    else if Hosted(kind) then Some([])
    else None
  }

  datatype Shape = ChatShape | MessagesShape | ResponsesShape

  function ToolsOf(shape: Shape, show: Show, ts: seq<Tree>): Option<seq<OutTool>> {
    if ts == [] then Some([])
    else
      OneThen(match shape
              case ChatShape => ChatTool(show, ts[0])
              case MessagesShape => MessagesTool(show, ts[0])
              case ResponsesShape => ResponsesTool(show, ts[0]),
              ToolsOf(shape, show, ts[1..]))
  }
}
