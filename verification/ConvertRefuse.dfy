/**
 * Which requests the converters refuse: exactly those that hold something the
 * template cannot say, whatever else is in them and in whatever order. And
 * that a side's turn may come in several messages.
 */
module ConvertRefuse {
  import opened Basics
  import opened JsonTree
  import opened JsonWriter
  import opened FloatRepr
  import opened ChatCall
  import opened ChatTurn
  import opened Convert
  import opened ConvertAgree

  // ---- Text ----

  /** A string, or parts that are each text of one of some kinds. */
  predicate SaysText(v: Option<Tree>, kinds: seq<Bytes>) {
    v.Some? && (v.value.Text? || (v.value.Items? && forall part <- v.value.items :: IsTextPart(part, kinds)))
  }

  predicate IsTextPart(part: Tree, kinds: seq<Bytes>) {
    IsStr(Get(part, TEXT)) && exists k <- kinds :: StrIs(Get(part, TYPE), k)
  }

  lemma {:induction false} PartsTaken(parts: seq<Tree>, kinds: seq<Bytes>, g: Gathered)
    ensures TextParts(parts, kinds, g).Some? <==> forall part <- parts :: IsTextPart(part, kinds)
    decreases parts
  {
    if parts != [] {
      assert parts == [parts[0]] + parts[1..];
      assert IsTextPart(parts[0], kinds) <==> Known(parts[0], kinds) && IsStr(Get(parts[0], TEXT));
      if IsTextPart(parts[0], kinds) {
        PartsTaken(parts[1..], kinds, AndThen(g, Get(parts[0], TEXT).value.s));
      }
    }
  }

  lemma TextTaken(v: Option<Tree>, kinds: seq<Bytes>)
    ensures TextOf(v, kinds, NO_TEXT).Some? <==> SaysText(v, kinds)
  {
    if v.Some? && v.value.Items? { PartsTaken(v.value.items, kinds, NO_TEXT); }
  }

  // ---- Chat completions ----

  predicate NamedCall(call: Tree) { Get(call, FUNCTION).Some? && IsStr(Get(Get(call, FUNCTION).value, NAME)) }

  predicate CallsSayable(v: Option<Tree>) {
    Given(v) ==> v.value.Items? && forall call <- v.value.items :: NamedCall(call)
  }

  /** A chat message that can be said: a role there is, no name, text, and every call of an assistant's with a name. */
  predicate ChatSayable(m: Tree) {
    var role := Get(m, ROLE);
    && (StrIs(role, ASSISTANT) || StrIs(role, ROLE_TOOL) || StrIs(role, USER) || StrIs(role, ROLE_SYSTEM)
        || StrIs(role, ROLE_DEVELOPER))
    && !Given(Get(m, NAME)) && !Given(Get(m, FUNCTION_CALL))
    && (if Given(Get(m, CONTENT)) then SaysText(Get(m, CONTENT), [TEXT]) else StrIs(role, ASSISTANT))
    && (StrIs(role, ASSISTANT) ==> CallsSayable(Get(m, TOOL_CALLS)))
  }

  predicate HasItems(v: Option<Tree>) { v.Some? && v.value.Items? && v.value.items != [] }

  predicate ChatAccepted(req: Tree) {
    var choice := Get(req, FUNCTION_CALL);
    && !Given(Get(req, FUNCTIONS)) && (Given(choice) ==> StrIs(choice, NONE) || StrIs(choice, AUTO))
    && HasItems(Get(req, MESSAGES)) && forall m <- Get(req, MESSAGES).value.items :: ChatSayable(m)
  }

  lemma {:induction false} CallsTaken(put: Put, c: Conv, calls: seq<Tree>)
    ensures ChatCalls(put, c, calls).Some? <==> forall call <- calls :: NamedCall(call)
    decreases calls
  {
    if calls != [] {
      assert calls == [calls[0]] + calls[1..];
      if NamedCall(calls[0]) {
        var fn := Get(calls[0], FUNCTION).value;
        CallsTaken(put, Called(put, c, Get(calls[0], ID), Get(fn, NAME).value.s, Get(fn, ARGUMENTS)), calls[1..]);
      }
    }
  }

  lemma ChatAssistantTaken(put: Put, c: Conv, m: Tree, text: Bytes)
    ensures ChatAssistant(put, c, m, text).Some? <==> CallsSayable(Get(m, TOOL_CALLS))
  {
    hide Texted;
    hide Reasoned;
    hide Flushed;
    hide ChatCalls;
    hide NamedCall;
    var c1 := Opened(Flushed(c));
    var c2 := if text != [] then Texted(c1, text) else c1;
    var rc := if IsStr(Get(m, REASONING_CONTENT)) then Get(m, REASONING_CONTENT) else Get(m, REASONING);
    var c3 := if IsStr(rc) then Reasoned(c2, rc.value.s) else c2;
    var calls := Get(m, TOOL_CALLS);
    if Given(calls) && calls.value.Items? { CallsTaken(put, c3, calls.value.items); }
  }

  lemma ChatTaken(put: Put, c: Conv, m: Tree)
    ensures ChatMessage(put, c, m).Some? <==> ChatSayable(m)
  {
    hide SaysText;
    hide TextOf;
    hide CallsSayable;
    hide ChatAssistant;
    hide Messaged;
    hide UpToNul;
    TextTaken(Get(m, CONTENT), [TEXT]);
    var g := if Given(Get(m, CONTENT)) then TextOf(Get(m, CONTENT), [TEXT], NO_TEXT) else Some(NO_TEXT);
    if g.Some? { ChatAssistantTaken(put, c, m, g.value.text); }
  }

  lemma {:induction false} ChatAllTaken(put: Put, c: Conv, ms: seq<Tree>)
    ensures ChatMessages(put, c, ms).Some? <==> forall m <- ms :: ChatSayable(m)
    decreases ms
  {
    hide ChatSayable;
    hide ChatMessage;
    if ms != [] {
      assert ms == [ms[0]] + ms[1..];
      ChatTaken(put, c, ms[0]);
      if ChatSayable(ms[0]) { ChatAllTaken(put, ChatMessage(put, c, ms[0]).value, ms[1..]); }
    }
  }

  /** A chat request is refused exactly when something in it cannot be said. */
  lemma ChatRefused(put: Put, req: Tree)
    ensures Chat(put, req).Some? <==> ChatAccepted(req)
  {
    hide ChatMessages;
    hide ChatSayable;
    hide UpToNul;
    if HasItems(Get(req, MESSAGES)) { ChatAllTaken(put, NO_CONV, Get(req, MESSAGES).value.items); }
  }

  // ---- Messages ----

  predicate UserSayable(b: Tree) {
    || (StrIs(Get(b, TYPE), TEXT) && IsStr(Get(b, TEXT)))
    || (StrIs(Get(b, TYPE), TOOL_RESULT) && (Given(Get(b, CONTENT)) ==> SaysText(Get(b, CONTENT), [TEXT])))
  }

  predicate IsUse(b: Tree) { StrIs(Get(b, TYPE), TOOL_USE) && IsStr(Get(b, NAME)) }

  predicate AssistantSayable(b: Tree) {
    || (StrIs(Get(b, TYPE), TEXT) && IsStr(Get(b, TEXT)))
    || IsUse(b)
    || StrIs(Get(b, TYPE), THINKING)
    || StrIs(Get(b, TYPE), REDACTED)
  }

  /** A message of a Messages request that can be said: a string, or blocks that its role may hold. */
  predicate TalkSayable(m: Tree) {
    var role, content := Get(m, ROLE), Get(m, CONTENT);
    && (StrIs(role, USER) || StrIs(role, ASSISTANT) || StrIs(role, ROLE_SYSTEM)) && content.Some?
    && match content.value
       case Text(_) => true
       case Items(bs) =>
         if StrIs(role, USER) then forall b <- bs :: UserSayable(b)
         else if StrIs(role, ASSISTANT) then forall b <- bs :: AssistantSayable(b)
         else forall b <- bs :: IsTextPart(b, [TEXT])
       case _ => false
  }

  predicate Uses(m: Tree) {
    Get(m, CONTENT).Some? && Get(m, CONTENT).value.Items? && exists b <- Get(m, CONTENT).value.items :: IsUse(b)
  }

  /** The messages end in a turn of the assistant's that uses a tool. */
  predicate EndsInUse(ms: seq<Tree>) {
    ms != [] &&
    var last := ms[|ms| - 1];
    StrIs(Get(last, ROLE), ASSISTANT) && (Uses(last) || EndsInUse(ms[..|ms| - 1]))
  }

  predicate MessagesAccepted(req: Tree) {
    var system, ms := Get(req, ROLE_SYSTEM), Get(req, MESSAGES);
    && (Given(system) ==> SaysText(system, [TEXT]))
    && HasItems(ms) && (forall m <- ms.value.items :: TalkSayable(m)) && !EndsInUse(ms.value.items)
  }

  /** Calls being gathered are those of a turn that ends the messages, and a user's turn has none. */
  ghost predicate Kept(t: Talk, ms: seq<Tree>) {
    && (t.c.calls != [] <==> EndsInUse(ms))
    && (t.userOpen ==> t.c.calls == [])
    && (t.c.calls != [] ==> t.c.open)
  }

  lemma UserBlockTaken(t: Talk, b: Tree)
    ensures UserBlock(t, b).Some? <==> UserSayable(b)
    ensures UserBlock(t, b).Some? && t.c.calls == [] ==> UserBlock(t, b).value.c.calls == []
    ensures UserBlock(t, b).Some? ==> UserBlock(t, b).value.userOpen == t.userOpen
  {
    hide TextOf;
    hide SaysText;
    hide UpToNul;
    TextTaken(Get(b, CONTENT), [TEXT]);
  }

  lemma AssistantBlockTaken(put: Put, t: Talk, b: Tree)
    ensures AssistantBlock(put, t, b).Some? <==> AssistantSayable(b)
    ensures var u := AssistantBlock(put, t, b);
            u.Some? ==> (u.value.c.calls != [] <==> t.c.calls != [] || IsUse(b)) && u.value.userOpen == t.userOpen &&
                        (t.c.open ==> u.value.c.open)
  {
    assert TEXT != TOOL_USE;
  }

  lemma {:induction false} UserBlocksTaken(put: Put, t: Talk, bs: seq<Tree>)
    ensures Blocks(put, t, true, bs).Some? <==> forall b <- bs :: UserSayable(b)
    ensures var u := Blocks(put, t, true, bs);
            u.Some? ==> (t.c.calls == [] ==> u.value.c.calls == []) && u.value.userOpen == t.userOpen
    decreases bs
  {
    hide UserSayable;
    hide UserBlock;
    if bs != [] {
      assert bs == [bs[0]] + bs[1..];
      UserBlockTaken(t, bs[0]);
      if UserSayable(bs[0]) { UserBlocksTaken(put, UserBlock(t, bs[0]).value, bs[1..]); }
    }
  }

  lemma {:induction false} AssistantBlocksTaken(put: Put, t: Talk, bs: seq<Tree>)
    requires t.c.open
    ensures Blocks(put, t, false, bs).Some? <==> forall b <- bs :: AssistantSayable(b)
    ensures var u := Blocks(put, t, false, bs);
            u.Some? ==> (u.value.c.calls != [] <==> t.c.calls != [] || exists b <- bs :: IsUse(b)) && u.value.c.open &&
                        u.value.userOpen == t.userOpen
    decreases bs
  {
    hide AssistantSayable;
    hide AssistantBlock;
    hide IsUse;
    if bs != [] {
      assert bs == [bs[0]] + bs[1..];
      AssistantBlockTaken(put, t, bs[0]);
      if AssistantSayable(bs[0]) { AssistantBlocksTaken(put, AssistantBlock(put, t, bs[0]).value, bs[1..]); }
    }
  }

  lemma RolesApart()
    ensures USER != ASSISTANT && ASSISTANT != ROLE_SYSTEM && USER != ROLE_SYSTEM
  {
  }

  lemma UserTaken(put: Put, t: Talk, ms: seq<Tree>, m: Tree)
    requires Kept(t, ms) && StrIs(Get(m, ROLE), USER)
    ensures TalkMessage(put, t, m).Some? <==> TalkSayable(m)
    ensures TalkMessage(put, t, m).Some? ==> Kept(TalkMessage(put, t, m).value, ms + [m])
  {
    hide Blocks;
    hide UserSayable;
    hide AssistantSayable;
    hide TextOf;
    hide IsTextPart;
    hide UpToNul;
    hide Uses;
    RolesApart();
    var content := Get(m, CONTENT);
    var t1 := if t.userOpen then t else Talk(Flushed(t.c), true, NO_TEXT, false);
    assert t1.c.calls == [];
    assert !EndsInUse(ms + [m]);
    if content.Some? && content.value.Items? { UserBlocksTaken(put, t1, content.value.items); }
  }

  lemma AssistantTaken(put: Put, t: Talk, ms: seq<Tree>, m: Tree)
    requires Kept(t, ms) && StrIs(Get(m, ROLE), ASSISTANT)
    ensures TalkMessage(put, t, m).Some? <==> TalkSayable(m)
    ensures TalkMessage(put, t, m).Some? ==> Kept(TalkMessage(put, t, m).value, ms + [m])
  {
    hide Blocks;
    hide UserSayable;
    hide AssistantSayable;
    hide TextOf;
    hide IsTextPart;
    hide UpToNul;
    hide IsUse;
    RolesApart();
    var content := Get(m, CONTENT);
    var t1 := UserClosed(t);
    assert (ms + [m])[..|ms|] == ms;
    assert EndsInUse(ms + [m]) <==> Uses(m) || EndsInUse(ms);
    assert !t1.userOpen && t1.c.calls == t.c.calls;
    if content.Some? && content.value.Items? {
      AssistantBlocksTaken(put, t1.(c := Opened(t1.c)), content.value.items);
    }
  }

  lemma SystemTaken(put: Put, t: Talk, ms: seq<Tree>, m: Tree)
    requires Kept(t, ms) && StrIs(Get(m, ROLE), ROLE_SYSTEM)
    ensures TalkMessage(put, t, m).Some? <==> TalkSayable(m)
    ensures TalkMessage(put, t, m).Some? ==> Kept(TalkMessage(put, t, m).value, ms + [m])
  {
    hide Blocks;
    hide TextOf;
    hide IsTextPart;
    hide UpToNul;
    hide Uses;
    RolesApart();
    TextTaken(Get(m, CONTENT), [TEXT]);
    assert !EndsInUse(ms + [m]);
  }

  lemma TalkTaken(put: Put, t: Talk, ms: seq<Tree>, m: Tree)
    requires Kept(t, ms)
    ensures TalkMessage(put, t, m).Some? <==> TalkSayable(m)
    ensures TalkMessage(put, t, m).Some? ==> Kept(TalkMessage(put, t, m).value, ms + [m])
  {
    hide Kept;
    hide UpToNul;
    hide Blocks;
    hide TextOf;
    var role := Get(m, ROLE);
    if StrIs(role, USER) {
      UserTaken(put, t, ms, m);
    } else if StrIs(role, ASSISTANT) {
      AssistantTaken(put, t, ms, m);
    } else if StrIs(role, ROLE_SYSTEM) {
      SystemTaken(put, t, ms, m);
    }
  }

  lemma {:induction false} TalkAllTaken(put: Put, t: Talk, ms: seq<Tree>, more: seq<Tree>)
    requires Kept(t, ms)
    ensures TalkMessages(put, t, more).Some? <==> forall m <- more :: TalkSayable(m)
    ensures TalkMessages(put, t, more).Some? ==> Kept(TalkMessages(put, t, more).value, ms + more)
    decreases more
  {
    hide TalkSayable;
    hide TalkMessage;
    hide Kept;
    if more == [] {
      assert ms + more == ms;
    } else {
      assert more == [more[0]] + more[1..];
      TalkTaken(put, t, ms, more[0]);
      if TalkSayable(more[0]) {
        TalkAllTaken(put, TalkMessage(put, t, more[0]).value, ms + [more[0]], more[1..]);
        assert ms + [more[0]] + more[1..] == ms + more;
      }
    }
  }

  /**
   * A Messages request is refused exactly when something in it cannot be said, or it ends in a turn
   * of the assistant's that uses a tool and would have to go on.
   */
  lemma MessagesRefused(put: Put, req: Tree)
    ensures Messages(put, req).Some? <==> MessagesAccepted(req)
  {
    hide TalkMessages;
    hide TalkSayable;
    hide TextOf;
    hide SaysText;
    hide UpToNul;
    hide Uses;
    var system, ms := Get(req, ROLE_SYSTEM), Get(req, MESSAGES);
    TextTaken(system, [TEXT]);
    var first := SystemFirst(system);
    if first.Some? && HasItems(ms) {
      var t := Talk(first.value, false, NO_TEXT, false);
      TalkAllTaken(put, t, [], ms.value.items);
      assert [] + ms.value.items == ms.value.items;
    }
  }

  // ---- A turn in several messages ----

  /** What a message of the user's or the assistant's goes on from. */
  function Entered(t: Talk, user: bool): Talk {
    if user then (if t.userOpen then t else Talk(Flushed(t.c), true, NO_TEXT, false))
    else
      var t1 := UserClosed(t);
      t1.(c := Opened(t1.c))
  }

  lemma TurnEntered(put: Put, t: Talk, user: bool, bs: seq<Tree>)
    ensures TalkMessage(put, t, Turned(if user then USER else ASSISTANT, bs)) == Blocks(put, Entered(t, user), user, bs)
  {
    hide Blocks;
    hide UserClosed;
    hide UpToNul;
    var role := if user then USER else ASSISTANT;
    TurnedHas(role, bs);
    RolesApart();
    IsWord(role, USER);
    IsWord(role, ASSISTANT);
    IsWord(role, ROLE_SYSTEM);
  }

  /** Two messages in a row of the same side are one turn: as one message with the blocks of both. */
  lemma MessagesJoin(put: Put, t: Talk, user: bool, a: seq<Tree>, b: seq<Tree>)
    ensures var role := if user then USER else ASSISTANT;
            TalkMessages(put, t, [Turned(role, a), Turned(role, b)]) == TalkMessage(put, t, Turned(role, a + b))
  {
    var role := if user then USER else ASSISTANT;
    var t1 := Entered(t, user);
    assert t1.userOpen == user && (user || t1.c.open);
    hide Entered;
    TurnEntered(put, t, user, a);
    TurnEntered(put, t, user, a + b);
    BlocksBoth(put, t1, user, a, b);
    if user { UserBlocksTaken(put, t1, a); } else { AssistantBlocksTaken(put, t1, a); }
    TalkBoth(put, t, [Turned(role, a)], [Turned(role, b)]);
    assert [Turned(role, a)] + [Turned(role, b)] == [Turned(role, a), Turned(role, b)];
    TalkOne(put, t, Turned(role, a));
    var u := Blocks(put, t1, user, a);
    if u.Some? {
      TalkOne(put, u.value, Turned(role, b));
      TurnEntered(put, u.value, user, b);
      EnteredAgain(u.value, user);
    }
  }

  lemma EnteredAgain(t: Talk, user: bool)
    requires t.userOpen == user && (!user ==> t.c.open)
    ensures Entered(t, user) == t
  {
  }

  /** A string is one block of text. */
  lemma StringIsBlock(put: Put, t: Talk, user: bool, s: Bytes)
    ensures var role := if user then USER else ASSISTANT;
            TalkMessage(put, t, Two(ROLE, Text(role), CONTENT, Text(s))) ==
              TalkMessage(put, t, Turned(role, [TextPart(TEXT, s)]))
  {
    hide UserClosed;
    hide UpToNul;
    hide Flushed;
    var role := if user then USER else ASSISTANT;
    TurnEntered(put, t, user, [TextPart(TEXT, s)]);
    BlocksOne(put, Entered(t, user), user, TextPart(TEXT, s));
    TextBlockRead(put, Entered(t, user), s);
    GetTwo(ROLE, Text(role), CONTENT, Text(s), ROLE);
    GetTwo(ROLE, Text(role), CONTENT, Text(s), CONTENT);
    RolesApart();
    IsWord(role, USER);
    IsWord(role, ASSISTANT);
    IsWord(role, ROLE_SYSTEM);
  }

  // ---- Responses ----

  predicate ReasonSayable(it: Tree) {
    var list := if HasItems(Get(it, CONTENT)) then Get(it, CONTENT) else Get(it, SUMMARY);
    list.Some? && list.value.Items? ==>
      forall part <- list.value.items :: IsTextPart(part, [REASONING_TEXT, SUMMARY_TEXT])
  }

  /** An item of a Responses request that can be said. */
  predicate ItemSayable(it: Tree) {
    var kind, role := Get(it, TYPE), Get(it, ROLE);
    if (!Given(kind) || StrIs(kind, MESSAGE)) && IsStr(role) then
      && SaysText(Get(it, CONTENT), ITEM_TEXT)
      && (StrIs(role, ASSISTANT) || StrIs(role, USER) || StrIs(role, ROLE_SYSTEM) || StrIs(role, ROLE_DEVELOPER))
    else
      || (StrIs(kind, FUNCTION_CALL) && IsStr(Get(it, NAME)))
      || (StrIs(kind, CALL_OUTPUT) && SaysText(Get(it, OUTPUT), ITEM_TEXT))
      || (StrIs(kind, REASONING) && ReasonSayable(it))
  }

  predicate ResponsesAccepted(req: Tree) {
    var told, input := Get(req, INSTRUCTIONS), Get(req, INPUT);
    && (Given(told) ==> told.value.Text?) && input.Some?
    && (input.value.Text? || (HasItems(input) && forall it <- input.value.items :: ItemSayable(it)))
  }

  lemma ItemTaken(put: Put, s: Flow, it: Tree)
    ensures FlowItem(put, s, it).Some? <==> ItemSayable(it)
  {
    hide SaysText;
    hide TextOf;
    hide UpToNul;
    hide WithPending;
    hide Flushed;
    hide IsTextPart;
    TextTaken(Get(it, CONTENT), ITEM_TEXT);
    TextTaken(Get(it, OUTPUT), ITEM_TEXT);
    var list := if HasItems(Get(it, CONTENT)) then Get(it, CONTENT) else Get(it, SUMMARY);
    if list.Some? && list.value.Items? { PartsTaken(list.value.items, [REASONING_TEXT, SUMMARY_TEXT], s.g); }
  }

  lemma {:induction false} ItemsTaken(put: Put, s: Flow, its: seq<Tree>)
    ensures FlowItems(put, s, its).Some? <==> forall it <- its :: ItemSayable(it)
    decreases its
  {
    hide ItemSayable;
    hide FlowItem;
    if its != [] {
      assert its == [its[0]] + its[1..];
      ItemTaken(put, s, its[0]);
      if ItemSayable(its[0]) { ItemsTaken(put, FlowItem(put, s, its[0]).value, its[1..]); }
    }
  }

  /** A Responses request is refused exactly when something in it cannot be said. */
  lemma ResponsesRefused(put: Put, req: Tree)
    ensures Responses(put, req).Some? <==> ResponsesAccepted(req)
  {
    hide FlowItems;
    hide ItemSayable;
    var told, input := Get(req, INSTRUCTIONS), Get(req, INPUT);
    var c := if IsStr(told) then Messaged(NO_CONV, ROLE_SYSTEM, told.value.s, None) else NO_CONV;
    if HasItems(input) { ItemsTaken(put, Flow(c, false, NO_TEXT), input.value.items); }
  }

  // ---- Tools ----

  predicate NamedFunction(t: Tree) { StrIs(Get(t, TYPE), FUNCTION) && IsStr(Get(t, NAME)) }

  /**
   * A tool that a request may list: a function; or, in the Responses shape, functions under a name
   * of their own, or one of those that run elsewhere.
   */
  predicate ToolSayable(shape: Shape, t: Tree) {
    var kind := Get(t, TYPE);
    match shape
    case ChatShape => StrIs(kind, FUNCTION) && NamedCall(t)
    case MessagesShape => (Given(kind) ==> StrIs(kind, CUSTOM)) && IsStr(Get(t, NAME))
    case ResponsesShape =>
      || NamedFunction(t)
      || (StrIs(kind, NAMESPACE) &&
            (HasItems(Get(t, TOOLS)) ==> forall fn <- Get(t, TOOLS).value.items :: NamedFunction(fn)))
      || (IsStr(kind) && WEB_SEARCH <= UpToNul(kind.value.s))
      || StrIs(kind, FILE_SEARCH) || StrIs(kind, CODE_INTERPRETER) || StrIs(kind, IMAGE_GENERATION)
      || StrIs(kind, MCP) || StrIs(kind, COMPUTER) || StrIs(kind, COMPUTER_PREVIEW)
  }

  lemma {:induction false} NamespaceTaken(show: Show, inner: seq<Tree>)
    ensures NamespaceTools(show, inner).Some? <==> forall fn <- inner :: NamedFunction(fn)
    decreases inner
  {
    hide UpToNul;
    if inner != [] {
      assert inner == [inner[0]] + inner[1..];
      assert NamedFunction(inner[0]) <==>
          StrIs(Get(inner[0], TYPE), FUNCTION) && ResponsesFunction(show, inner[0]).Some?;
      NamespaceTaken(show, inner[1..]);
    }
  }

  lemma ToolKindsApart()
    ensures FUNCTION != NAMESPACE && !(WEB_SEARCH <= FUNCTION) && !(WEB_SEARCH <= NAMESPACE)
    ensures forall k <- [FILE_SEARCH, CODE_INTERPRETER, IMAGE_GENERATION, MCP, COMPUTER, COMPUTER_PREVIEW] ::
              k != FUNCTION && k != NAMESPACE
  {
  }

  function Offered(shape: Shape, show: Show, t: Tree): Option<seq<OutTool>> {
    match shape
    case ChatShape => ChatTool(show, t)
    case MessagesShape => MessagesTool(show, t)
    case ResponsesShape => ResponsesTool(show, t)
  }

  lemma ToolTaken(shape: Shape, show: Show, t: Tree)
    ensures Offered(shape, show, t).Some? <==> ToolSayable(shape, t)
  {
    hide NamespaceTools;
    hide UpToNul;
    ToolKindsApart();
    var inner := Get(t, TOOLS);
    if inner.Some? && inner.value.Items? { NamespaceTaken(show, inner.value.items); }
  }

  /** A request's tools are refused exactly when one of them is no tool that may be listed. */
  lemma {:induction false} ToolsRefused(shape: Shape, show: Show, ts: seq<Tree>)
    ensures ToolsOf(shape, show, ts).Some? <==> forall t <- ts :: ToolSayable(shape, t)
    decreases ts
  {
    hide ToolSayable;
    hide ChatTool;
    hide MessagesTool;
    hide ResponsesTool;
    if ts != [] {
      assert ts == [ts[0]] + ts[1..];
      ToolTaken(shape, show, ts[0]);
      ToolsRefused(shape, show, ts[1..]);
    }
  }
}
