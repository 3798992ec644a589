/**
 * What is written, spelled out in letters: the words of the requests and of
 * the template, and the texts of JSON, calls and turns around what varies.
 */
module Spelling {
  import opened Basics
  import opened JsonGrammar
  import opened JsonTree
  import opened JsonWriter
  import opened FloatRepr
  import opened ChatCall
  import opened ChatTurn
  import opened Convert
  import R = ReplyReading

  /** Letters as their bytes. */
  function Says(s: string): (r: Bytes)
    requires forall i :: 0 <= i < |s| ==> s[i] as int < 128
    ensures |r| == |s| && forall i :: 0 <= i < |s| ==> r[i] == s[i] as int
  {
    seq(|s|, i requires 0 <= i < |s| => s[i] as int)
  }

  // ---- Words ----

  lemma TagsSay()
    ensures R.OPEN_THINK == Says("<think>") && R.CLOSE_THINK == Says("</think>")
    ensures R.OPEN_CALL == Says("<tool_call>") && R.CLOSE_CALL == Says("</tool_call>")
  {
  }

  lemma MessageWordsSay()
    ensures NAME == Says("name") && ARGUMENTS == Says("arguments") && FUNCTION == Says("function")
  {
  }

  lemma TurnWordsSay()
    ensures ROLE == Says("role") && USER == Says("user") && ASSISTANT == Says("assistant")
    ensures CONTENT == Says("content") && REASONING_CONTENT == Says("reasoning_content")
    ensures TOOL_CALLS == Says("tool_calls")
  {
  }

  lemma MarkersSay()
    ensures START == Says("<|im_start|>assistant\n") && END == Says("<|im_end|>\n")
  {
  }

  lemma ResponseTagsSay()
    ensures OPEN_RESPONSE == Says("<tool_response>") && CLOSE_RESPONSE == Says("</tool_response>")
  {
  }

  lemma ChatWordsSay()
    ensures ROLE_SYSTEM == Says("system") && ROLE_DEVELOPER == Says("developer") && ROLE_TOOL == Says("tool")
    ensures FUNCTION_CALL == Says("function_call") && FUNCTIONS == Says("functions")
    ensures TOOL_CALL_ID == Says("tool_call_id") && REASONING == Says("reasoning") && NONE == Says("none")
    ensures AUTO == Says("auto") && MESSAGES == Says("messages")
  {
  }

  lemma MessagesWordsSay()
    ensures ID == Says("id") && TYPE == Says("type") && TEXT == Says("text")
    ensures TOOL_RESULT == Says("tool_result") && TOOL_USE == Says("tool_use")
    ensures TOOL_USE_ID == Says("tool_use_id") && THINKING == Says("thinking")
    ensures REDACTED == Says("redacted_thinking") && INPUT == Says("input")
  {
  }

  lemma ResponsesWordsSay()
    ensures INSTRUCTIONS == Says("instructions") && MESSAGE == Says("message") && CALL_ID == Says("call_id")
    ensures CALL_OUTPUT == Says("function_call_output") && OUTPUT == Says("output")
    ensures SUMMARY == Says("summary")
  {
  }

  lemma TextKindsSay()
    ensures REASONING_TEXT == Says("reasoning_text") && SUMMARY_TEXT == Says("summary_text")
    ensures INPUT_TEXT == Says("input_text") && OUTPUT_TEXT == Says("output_text")
  {
  }

  lemma ToolWordsSay()
    ensures DESCRIPTION == Says("description") && PARAMETERS == Says("parameters")
    ensures INPUT_SCHEMA == Says("input_schema") && CUSTOM == Says("custom") && NAMESPACE == Says("namespace")
    ensures TOOLS == Says("tools") && MCP == Says("mcp")
  {
  }

  lemma SearchToolsSay()
    ensures WEB_SEARCH == Says("web_search") && FILE_SEARCH == Says("file_search")
    ensures COMPUTER == Says("computer") && COMPUTER_PREVIEW == Says("computer_use_preview")
  {
  }

  lemma OtherToolsSay()
    ensures CODE_INTERPRETER == Says("code_interpreter") && IMAGE_GENERATION == Says("image_generation")
  {
  }

  // ---- JSON as Python writes it ----

  lemma WordsLookSo()
    ensures Plain(Atom(True)) == Says("true") && Plain(Atom(False)) == Says("false")
    ensures Plain(Atom(Null)) == Says("null")
  {
  }

  lemma InfinitiesLookSo(f: Floats)
    requires Sound(f)
    ensures ReprText(f, Infinite(false)) == Says("Infinity") && ReprText(f, Infinite(true)) == Says("-Infinity")
  {
  }

  /** A byte within quotes: five by a letter, a quote and a backslash by themselves, other controls in hex. */
  function ByteText(b: Byte): Bytes {
    if b == 0x0A then Says("\\n")
    else if b == 0x0D then Says("\\r")
    else if b == 0x09 then Says("\\t")
    else if b == 0x08 then Says("\\b")
    else if b == 0x0C then Says("\\f")
    else if b == 0x22 then Says("\\\"")
    else if b == 0x5C then Says("\\\\")
    else if b < 0x10 then Says("\\u000") + [LOWER_HEX[b]]
    else if b < 0x20 then Says("\\u001") + [LOWER_HEX[b - 0x10]]
    else [b]
  }

  lemma StringsLookSo(s: Bytes, b: Byte)
    ensures Plain(Text([])) == Says("\"\"")
    ensures var t := Plain(Text(s)); t != [] && Plain(Text(s + [b])) == t[..|t| - 1] + ByteText(b) + Says("\"")
  {
    assert (s + [b])[..|s|] == s;
    CharLooksSo(b);
    hide CharOf;
    hide PutChar;
    hide ByteText;
    var t := Plain(Text(s));
    assert t[..|t| - 1] == [QUOTE] + Escaped(s);
    assert Plain(Text(s + [b])) == [QUOTE] + (Escaped(s) + ByteText(b)) + [QUOTE];
  }

  lemma CharLooksSo(b: Byte)
    ensures PutChar(CharOf(b), []) == ByteText(b)
  {
    if b < 0x20 { ControlLooksSo(b); }
  }

  lemma ControlLooksSo(b: Byte)
    requires b < 0x20
    ensures PutChar(CharOf(b), []) == ByteText(b)
  {
    hide ByteText;
    if CharOf(b).Hex? {
      HexLooksSo(b);
    } else {
      LetterLooksSo(b);
    }
  }

  lemma HexLooksSo(b: Byte)
    requires b < 0x20 && CharOf(b).Hex?
    ensures PutChar(CharOf(b), []) == ByteText(b)
  {
    assert LowerHex(b % 16) == LOWER_HEX[b % 16] && b / 16 == if b < 0x10 then 0 else 1;
  }

  lemma LetterLooksSo(b: Byte)
    requires b < 0x20 && !CharOf(b).Hex?
    ensures PutChar(CharOf(b), []) == ByteText(b)
  {
  }

  lemma SeparatorsSay()
    ensures SEPARATOR == Says(", ") && AFTER_KEY == Says(": ")
    ensures [OPEN_BRACKET] == Says("[") && [CLOSE_BRACKET] == Says("]")
    ensures [OPEN_BRACE] == Says("{") && [CLOSE_BRACE] == Says("}")
    ensures [OPEN_BRACKET] + [CLOSE_BRACKET] == Says("[]") && [OPEN_BRACE] + [CLOSE_BRACE] == Says("{}")
  {
  }

  lemma {:induction false} OneItemMore(xs: seq<Tree>, x: Tree, first: bool)
    ensures PlainItems(xs + [x], first) == PlainItems(xs, first) + Comma(first && xs == []) + Plain(x)
    decreases xs
  {
    hide Plain;
    if xs == [] {
      assert [] + [x] == [x] && [x][1..] == [];
      NothingMore(Comma(first), Plain(x));
    } else {
      assert (xs + [x])[1..] == xs[1..] + [x];
      OneItemMore(xs[1..], x, false);
      Join3(Comma(first) + Plain(xs[0]), PlainItems(xs[1..], false), Comma(false), Plain(x));
    }
  }

  lemma {:induction false} OneMemberMore(ms: seq<Member>, m: Member, first: bool)
    ensures PlainMembers(ms + [m], first) == PlainMembers(ms, first) + Comma(first && ms == []) + PlainMember(m)
    decreases ms
  {
    hide PlainMember;
    if ms == [] {
      assert [] + [m] == [m] && [m][1..] == [];
      NothingMore(Comma(first), PlainMember(m));
    } else {
      assert (ms + [m])[1..] == ms[1..] + [m];
      OneMemberMore(ms[1..], m, false);
      Join3(Comma(first) + PlainMember(ms[0]), PlainMembers(ms[1..], false), Comma(false), PlainMember(m));
    }
  }

  lemma NothingMore(a: Bytes, b: Bytes)
    ensures a + b + [] == [] + a + b
  {
  }

  lemma ItemsText(xs: seq<Tree>)
    ensures Plain(Items(xs)) == [OPEN_BRACKET] + PlainItems(xs, true) + [CLOSE_BRACKET] && PlainItems([], true) == []
  {
  }

  lemma MembersText(ms: seq<Member>, m: Member)
    ensures Plain(Members(ms)) == [OPEN_BRACE] + PlainMembers(ms, true) + [CLOSE_BRACE] && PlainMembers([], true) == []
    ensures PlainMember(m) == Plain(Text(m.key)) + AFTER_KEY + Plain(m.value)
  {
  }

  lemma CommaIs()
    ensures Comma(true) == [] && Comma(false) == SEPARATOR
  {
  }

  lemma OneAlone(open: Bytes, most: Bytes, close: Bytes)
    ensures open + ([] + [] + most) + close == open + most + close && open + [] + close == open + close
  {
  }

  /** One more before the closing byte. */
  lemma BeforeLast(open: Bytes, most: Bytes, more: Bytes, close: Bytes)
    requires |close| == 1
    ensures var t := open + most + close; open + (most + more) + close == t[..|t| - 1] + more + close
  {
    assert (open + most + close)[..|open| + |most|] == open + most;
  }

  /** Items between brackets, a comma and a space between each two. */
  lemma ItemsLookSo(xs: seq<Tree>, x: Tree)
    ensures Plain(Items([])) == Says("[]") && Plain(Items([x])) == Says("[") + Plain(x) + Says("]")
    ensures var t := Plain(Items(xs));
            && t != [] && (xs != [] ==> Plain(Items(xs + [x])) == t[..|t| - 1] + (Says(", ") + Plain(x)) + Says("]"))
  {
    hide *;
    SeparatorsSay();
    ItemsText([]);
    ItemsText([x]);
    ItemsText(xs);
    ItemsText(xs + [x]);
    OneItemMore([], x, true);
    assert [] + [x] == [x];
    OneItemMore(xs, x, true);
    CommaIs();
    OneAlone([OPEN_BRACKET], Plain(x), [CLOSE_BRACKET]);
    Join3(PlainItems(xs, true), SEPARATOR, Plain(x), []);
    BeforeLast([OPEN_BRACKET], PlainItems(xs, true), SEPARATOR + Plain(x), [CLOSE_BRACKET]);
  }

  lemma MembersLookSo(ms: seq<Member>, m: Member)
    ensures Plain(Members([])) == Says("{}")
    ensures Plain(Members([m])) == Says("{") + (Plain(Text(m.key)) + Says(": ") + Plain(m.value)) + Says("}")
    ensures var t, more := Plain(Members(ms)), Says(", ") + (Plain(Text(m.key)) + Says(": ") + Plain(m.value));
            && t != [] && (ms != [] ==> Plain(Members(ms + [m])) == t[..|t| - 1] + more + Says("}"))
  {
    hide *;
    SeparatorsSay();
    MembersText([], m);
    MembersText([m], m);
    MembersText(ms, m);
    MembersText(ms + [m], m);
    OneMemberMore([], m, true);
    assert [] + [m] == [m];
    OneMemberMore(ms, m, true);
    CommaIs();
    OneAlone([OPEN_BRACE], PlainMember(m), [CLOSE_BRACE]);
    Join3(PlainMembers(ms, true), SEPARATOR, PlainMember(m), []);
    BeforeLast([OPEN_BRACE], PlainMembers(ms, true), SEPARATOR + PlainMember(m), [CLOSE_BRACE]);
  }

  // ---- Turns as the template writes them ----

  lemma CallLooksSo(f: Floats, call: Tree)
    requires Sound(f)
    ensures var name := Shown(f, Get(Unwrapped(call), NAME), []);
            var args := Shown(f, Get(Unwrapped(call), ARGUMENTS), Says("{}"));
            CallText(f, call) ==
              Says("<tool_call>\n{\"name\": \"") + name + Says("\", \"arguments\": ") + args + Says("}\n</tool_call>")
  {
    hide Shown;
    var fn := Unwrapped(call);
    assert EMPTY_OBJECT == Says("{}");
    BodyLooksSo(Shown(f, Get(fn, NAME), []), Shown(f, Get(fn, ARGUMENTS), EMPTY_OBJECT));
    hide Says;
    hide Body;
  }

  lemma BodyLooksSo(name: Bytes, args: Bytes)
    ensures R.OPEN_CALL + Body(name, args) + R.CLOSE_CALL ==
              Says("<tool_call>\n{\"name\": \"") + name + Says("\", \"arguments\": ") + args + Says("}\n</tool_call>")
  {
    CallPiecesSay();
    hide Says;
    ChatCall.Pieces([], R.OPEN_CALL, NAME, name, ARGUMENTS, args, R.CLOSE_CALL);
    hide Object;
    hide BeforeName;
    hide BeforeArguments;
    var before, between := BeforeName(NAME), BeforeArguments(ARGUMENTS);
    assert [] + R.OPEN_CALL + before == R.OPEN_CALL + before;
    assert R.OPEN_CALL + before + name + between + args + [CLOSE_BRACE, R.NEWLINE] + R.CLOSE_CALL ==
        R.OPEN_CALL + before + name + between + args + ([CLOSE_BRACE, R.NEWLINE] + R.CLOSE_CALL);
  }

  lemma CallPiecesSay()
    ensures R.OPEN_CALL + BeforeName(NAME) == Says("<tool_call>\n{\"name\": \"")
    ensures BeforeArguments(ARGUMENTS) == Says("\", \"arguments\": ")
    ensures [CLOSE_BRACE, R.NEWLINE] + R.CLOSE_CALL == Says("}\n</tool_call>")
  {
  }

  /** Each call on a line of its own, the first too if something was said before it. */
  lemma {:induction false} CallsLookSo(f: Floats, calls: seq<Tree>, last: Tree, apart: bool)
    requires Sound(f)
    ensures CallsText(f, [], apart) == []
    ensures CallsText(f, calls + [last], apart) ==
              CallsText(f, calls, apart) + (if calls == [] && !apart then [] else Says("\n")) + CallText(f, last)
    decreases calls
  {
    hide CallText;
    assert NL == Says("\n");
    hide Says;
    if calls == [] {
      assert [] + [last] == [last] && [last][1..] == [];
      NothingMore(if apart then NL else [], CallText(f, last));
    } else {
      assert (calls + [last])[1..] == calls[1..] + [last];
      CallsLookSo(f, calls[1..], last, true);
      Join3((if apart then NL else []) + CallText(f, calls[0]), CallsText(f, calls[1..], true), NL, CallText(f, last));
    }
  }

  lemma TurnLooksSo(f: Floats, m: Tree, after: bool, last: bool)
    requires Sound(f)
    ensures var (reasoning, content) := Own(m);
            TurnText(f, m, after, last) ==
              (if Shows(m, after, last) then
                 Says("<think>\n") + Strip(reasoning) + Says("\n</think>\n\n") + LStrip(content)
               else content) + CallsText(f, Calls(m), content != [])
  {
    PartsAreOwn(m);
    hide Own;
    hide Parts;
    hide Strip;
    hide LStrip;
    hide Says;
    hide CallsText;
    var (reasoning, content) := Own(m);
    ThoughtLooksSo(reasoning, content);
    hide Thought;
  }

  lemma ThoughtLooksSo(reasoning: Bytes, content: Bytes)
    ensures Thought(reasoning, content) ==
              Says("<think>\n") + Strip(reasoning) + Says("\n</think>\n\n") + LStrip(content)
  {
    ThoughtPiecesSay();
    hide Says;
    hide Strip;
    hide LStrip;
    var r, c := Strip(reasoning), LStrip(content);
    assert R.OPEN_THINK + NL + r + NL + R.CLOSE_THINK + NL + NL + c ==
        R.OPEN_THINK + NL + r + (NL + R.CLOSE_THINK + NL + NL) + c;
  }

  lemma ThoughtPiecesSay()
    ensures R.OPEN_THINK + NL == Says("<think>\n")
    ensures NL + R.CLOSE_THINK + NL + NL == Says("\n</think>\n\n")
  {
  }
}
