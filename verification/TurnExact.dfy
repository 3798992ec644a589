/**
 * Exactly which final turns are read back: when a call's body has no closing
 * tag inside, and when no tags in the text make more of it than text.
 */
module TurnExact {
  import opened Basics
  import opened JsonGrammar
  import opened JsonReader
  import opened JsonTree
  import opened FloatRepr
  import opened ChatCall
  import opened ChatTurn
  import R = ReplyReading

  // ---- A call's body cut short ----

  /** A text that begins like an object and is read is an object's. */
  lemma ReadsAnObject(q: Bytes)
    requires q != [] && q[0] == OPEN_BRACE && ReadDoc(q).Some?
    ensures var d := ReadDoc(q).value;
            && WfValue(d.v) && Levels(d.v) <= MAX_LEVELS && !d.v.Num? && q == PutValue(d.v, Put(d.after, []))
  {
    ReadDocWrites(q);
    assert ReadWs(q) == (Nil, q);
    assert ReadValue(q, MAX_LEVELS) == ReadContainer(Obj, q[1..], MAX_LEVELS);
  }

  /** An object's text cut before its end is no object's text. */
  lemma CutIsNotRead(o: Bytes, q: Bytes, v: Value)
    requires WfValue(v) && Levels(v) <= MAX_LEVELS && !v.Num? && o == PutValue(v, [])
    requires q < o && q != [] && q[0] == OPEN_BRACE
    ensures ReadTree(q) == None
  {
    hide ReadDoc;
    hide ReadValue;
    hide PutValue;
    hide WfValue;
    hide Levels;
    if ReadDoc(q).Some? {
      ReadsAnObject(q);
      var d := ReadDoc(q).value;
      var a, rest := Put(d.after, []), o[|q|..];
      assert o == q + rest && |a + rest| > 0;
      ValueOnto(d.v, a, rest);
      ValueReadBack(d.v, a + rest, MAX_LEVELS);
      ValueReadBack(v, [], MAX_LEVELS);
      assert false;
    }
  }

  lemma {:induction false} TrimmedIsFirst(s: Bytes)
    ensures TrimEnd(s) <= s
    ensures s != [] && !R.IsSpace(s[0]) ==> TrimEnd(s) != []
    decreases |s|
  {
    if s != [] && R.IsSpace(s[|s| - 1]) { TrimmedIsFirst(s[..|s| - 1]); }
  }

  /** A line's tag lies inside the line. */
  lemma TagOfLine(o: Bytes, tag: Bytes)
    requires OneLine(tag) && R.Find(NL + (o + NL), tag).Some?
    ensures var c := R.Find(NL + (o + NL), tag).value;
            1 <= c && c - 1 + |tag| <= |o| && o[c - 1] == tag[0] && (NL + (o + NL))[..c] == NL + o[..c - 1]
  {
    hide R.Find;
    hide R.At;
    var t := NL + (o + NL);
    var c := R.Find(t, tag).value;
    FirstFits(t, tag);
    Ends(t, c, tag);
    Lined(o, c);
    assert tag[0] in tag && tag[|tag| - 1] in tag;
    if c + |tag| == |t| { assert false; }
  }

  lemma Ends(t: Bytes, c: nat, tag: Bytes)
    requires R.At(t, c, tag) && tag != []
    ensures c + |tag| <= |t| && t[c] == tag[0] && t[c + |tag| - 1] == tag[|tag| - 1]
  {
    assert t[c..c + |tag|][0] == t[c] && t[c..c + |tag|][|tag| - 1] == t[c + |tag| - 1];
  }

  lemma Lined(o: Bytes, c: nat)
    ensures var t := NL + (o + NL);
            && |t| == |o| + 2 && t[0] == t[|t| - 1] == R.NEWLINE
            && (1 <= c <= |o| ==> t[c] == o[c - 1] && t[..c] == NL + o[..c - 1])
  {
  }

  lemma {:induction false} BodyCutShort(f: Floats, name: Bytes, d: Doc)
    requires Sound(f) && Simple(name) && WfDoc(d)
    requires (d.v.Empty? || d.v.Full?) && d.v.kind.Obj? && Levels(d.v) < MAX_LEVELS
    requires !NoTag(Body(name, PutDoc(d)), R.CLOSE_CALL)
    ensures var body := Body(name, PutDoc(d));
            R.Find(body, R.CLOSE_CALL).value <= |body| &&
            CallOf(f, body[..R.Find(body, R.CLOSE_CALL).value]) == None
  {
    hide Object;
    hide PutDoc;
    hide R.Find;
    hide ReadTree;
    hide ObjectCst;
    hide Simple;
    var o := Object(NAME, name, ARGUMENTS, PutDoc(d), []);
    var v := ObjectCst(NAME, name, ARGUMENTS, d);
    NamesAreSimple();
    ObjectIsWf(NAME, name, ARGUMENTS, d);
    ObjectText(NAME, name, ARGUMENTS, d, []);
    ObjectOnto(NAME, name, ARGUMENTS, PutDoc(d), NL);
    ObjectEnds(NAME, name, ARGUMENTS, PutDoc(d));
    CallTags();
    TagOfLine(o, R.CLOSE_CALL);
    var c := R.Find(Body(name, PutDoc(d)), R.CLOSE_CALL).value;
    var q0 := o[..c - 1];
    assert q0 != [] && q0[0] == OPEN_BRACE;
    FrontGoes(NL, q0);
    TrimmedIsFirst(q0);
    NotANumber(NAME, name, ARGUMENTS, d);
    CutIsNotRead(o, TrimEnd(q0), v);
  }

  lemma NotANumber(k1: Bytes, name: Bytes, k2: Bytes, d: Doc)
    ensures !ObjectCst(k1, name, k2, d).Num?
  {
  }

  lemma NamesAreSimple()
    ensures Simple(NAME) && Simple(ARGUMENTS)
  {
  }

  // ---- Calls ----

  /** The bytes of text that events say. */
  function TextIn(es: seq<R.Event>): nat {
    if es == [] then 0 else (if es[0].OneByte? && es[0].kind.Text? then 1 else 0) + TextIn(es[1..])
  }

  lemma {:induction false} TextInBoth(a: seq<R.Event>, b: seq<R.Event>)
    ensures TextIn(a + b) == TextIn(a) + TextIn(b)
    decreases a
  {
    if a == [] {
      assert a + b == b;
    } else {
      assert (a + b)[1..] == a[1..] + b;
      TextInBoth(a[1..], b);
    }
  }

  lemma {:induction false} TextInSpan(kind: R.Kind, s: Bytes)
    ensures TextIn(R.SpanEvents(kind, s)) == if kind.Text? then |s| else 0
    decreases s
  {
    if s != [] {
      assert R.SpanEvents(kind, s)[1..] == R.SpanEvents(kind, s[1..]);
      TextInSpan(kind, s[1..]);
    }
  }

  lemma {:induction false} NoTextInCalls(f: Floats, calls: seq<Tree>)
    requires Sound(f) && AllGood(f, calls)
    ensures TextIn(CallEvents(f, calls)) == 0
    decreases |calls|
  {
    hide GoodCall;
    hide CallRead;
    if calls != [] {
      NoTextInCalls(f, calls[1..]);
      var one := R.OneCall(CallRead(f, calls[0]));
      assert ([one] + CallEvents(f, calls[1..]))[1..] == CallEvents(f, calls[1..]);
    }
  }

  /** Bytes that do not all hold back say something. */
  lemma SaysText(h: R.Held, s: Bytes)
    requires s != [] && s[|s| - 1] != R.NEWLINE
    ensures TextIn(R.PartBytes(h, R.Text, s).1) > 0
  {
    hide TextIn;
    var (h1, e1) := R.PartBytes(h, R.Text, s[..|s| - 1]);
    var last := [R.OneByte(R.Text, s[|s| - 1])];
    assert R.PartBytes(h, R.Text, s).1 == e1 + (R.Released(R.Text, h1) + last);
    TextInBoth(e1, R.Released(R.Text, h1) + last);
    TextInBoth(R.Released(R.Text, h1), last);
    OneIsText(s[|s| - 1]);
  }

  lemma OneIsText(b: Byte)
    ensures TextIn([R.OneByte(R.Text, b)]) == 1
  {
    assert [R.OneByte(R.Text, b)][1..] == [];
  }

  /** A call whose body closes early is read as text. */
  lemma ClosesEarly(f: Floats, h: R.Held, call: Tree, rest: Bytes)
    requires Sound(f) && GoodCall(f, call) && !NoTag(BodyOf(f, call), R.CLOSE_CALL)
    ensures TextIn(R.Reading(Rules(f), R.Tool, h, BodyOf(f, call) + R.CLOSE_CALL + rest)) > 0
  {
    hide CallOf;
    hide R.PartBytes;
    hide R.Find;
    hide BodyOf;
    hide GoodCall;
    var body := BodyOf(f, call);
    var t := body + R.CLOSE_CALL + rest;
    var c := R.Find(body, R.CLOSE_CALL).value;
    EarlyIsNoCall(f, call);
    assert t == body + (R.CLOSE_CALL + rest);
    R.FoundStays(body, R.CLOSE_CALL + rest, R.CLOSE_CALL);
    FirstFits(t, R.CLOSE_CALL);
    assert t[..c] == body[..c];
    var text := R.OPEN_CALL + t[..c] + R.CLOSE_CALL;
    var (h', e) := R.PartBytes(h, R.Text, text);
    var more := R.Reading(Rules(f), R.AfterCall, h', t[c + |R.CLOSE_CALL|..]);
    assert R.Reading(Rules(f), R.Tool, h, t) == e + more;
    SaysText(h, text);
    TextInBoth(e, more);
  }

  lemma EarlyIsNoCall(f: Floats, call: Tree)
    requires Sound(f) && GoodCall(f, call) && !NoTag(BodyOf(f, call), R.CLOSE_CALL)
    ensures var c := R.Find(BodyOf(f, call), R.CLOSE_CALL).value;
            c <= |BodyOf(f, call)| && CallOf(f, BodyOf(f, call)[..c]) == None
  {
    hide GoodArguments;
    hide CallOf;
    hide R.Find;
    hide Body;
    hide Simple;
    var fn := Unwrapped(call);
    var d := ArgumentsAsDoc(f, Get(fn, ARGUMENTS));
    BodyCutShort(f, Get(fn, NAME).value.s, d);
  }

  /** Whether no call's body closes it early. */
  predicate NoneCloses(f: Floats, calls: seq<Tree>)
    requires Sound(f)
  {
    forall j :: 0 <= j < |calls| ==> NoTag(BodyOf(f, calls[j]), R.CLOSE_CALL)
  }

  /** Calls after one that was read: all of them are, or there is text. */
  lemma {:induction false} SomeCloses(f: Floats, h: R.Held, calls: seq<Tree>, apart: bool)
    requires Sound(f) && AllGood(f, calls) && !NoneCloses(f, calls)
    ensures TextIn(R.Reading(Rules(f), R.AfterCall, h, CallsText(f, calls, apart))) > 0
    decreases |calls|
  {
    hide BodyOf;
    hide GoodCall;
    hide CallRead;
    hide Rules;
    hide Sound;
    hide TextIn;
    hide R.Find;
    hide R.PartBytes;
    var rest := CallsText(f, calls[1..], true);
    var tail := BodyOf(f, calls[0]) + R.CLOSE_CALL + rest;
    CallComes(f, h, calls, apart);
    if NoTag(BodyOf(f, calls[0]), R.CLOSE_CALL) {
      ReadCall(f, h, calls[0], rest);
      assert !NoneCloses(f, calls[1..]);
      SomeCloses(f, h, calls[1..], true);
      TextInBoth([R.OneCall(CallRead(f, calls[0]))], R.Reading(Rules(f), R.AfterCall, h, rest));
    } else {
      ClosesEarly(f, h, calls[0], rest);
    }
  }

  lemma ReadsTools(f: Floats)
    requires Sound(f)
    ensures Rules(f).tools
  {
  }

  /** Text without a tag of its own, then a call. */
  lemma TextThenTool(r: R.Rules, line: Bytes, after: Bytes)
    requires r.tools && EndsLine(line) && NoTag(line, R.OPEN_CALL)
    ensures var h := R.Held(0, R.PartBytes(R.FRESH, R.Text, line).0.any);
            R.Reading(r, R.InText, R.FRESH, line + R.OPEN_CALL + after) ==
              R.SpanEvents(R.Text, Strip(line)) + R.Reading(r, R.Tool, h, after)
  {
    hide R.PartBytes;
    hide R.Find;
    var t := line + R.OPEN_CALL + after;
    CallTags();
    TagFound(line, R.OPEN_CALL, after);
    PartSays(R.Text, line);
    assert t[..|line|] == line;
    assert t[|line| + |R.OPEN_CALL|..] == after;
  }

  /**
   * The calls of a final turn, and with them all of it, are read back exactly
   * when no call's body has a closing tag inside.
   */
  lemma CallsReadBack(f: Floats, m: Tree)
    requires Sound(f) && AllGood(f, Calls(m))
    requires NoTag(Strip(Parts(m).0), R.CLOSE_THINK) && NoTag(LStrip(Parts(m).1), R.OPEN_CALL)
    ensures R.Read(Rules(f), TurnText(f, m, true, true)) == TurnEvents(f, m) <==> NoneCloses(f, Calls(m))
  {
    hide GoodCall;
    hide Parts;
    hide BodyOf;
    hide R.Find;
    var calls := Calls(m);
    if NoneCloses(f, calls) {
      assert AllReadable(f, calls);
      TurnReadBack(f, m);
    } else {
      TurnSaysMore(f, m);
    }
  }

  lemma TurnSaysMore(f: Floats, m: Tree)
    requires Sound(f) && AllGood(f, Calls(m)) && !NoneCloses(f, Calls(m))
    requires NoTag(Strip(Parts(m).0), R.CLOSE_THINK) && NoTag(LStrip(Parts(m).1), R.OPEN_CALL)
    ensures TextIn(R.Read(Rules(f), TurnText(f, m, true, true))) > TextIn(TurnEvents(f, m))
  {
    hide GoodCall;
    hide Parts;
    hide BodyOf;
    hide R.Find;
    hide R.PartBytes;
    hide CallsText;
    hide CallEvents;
    hide NoneCloses;
    hide Rules;
    hide TextIn;
    hide LStrip;
    hide RStrip;
    var (reasoning, content) := Parts(m);
    var calls := CallsText(f, Calls(m), content != []);
    var inside := Strip(reasoning);
    var after := NL + (NL + LStrip(content)) + calls;
    TurnShape(inside, LStrip(content), calls);
    ReasonRead(f, inside, after);
    TextSaysMore(f, content, Calls(m));
    NoTextInCalls(f, Calls(m));
    var said := R.SpanEvents(R.Text, Strip(content));
    TextInBoth(R.SpanEvents(R.Reasoning, inside), said + CallEvents(f, Calls(m)));
    TextInBoth(said, CallEvents(f, Calls(m)));
    TextInSpan(R.Text, Strip(content));
    StripTwice(reasoning);
    TextInSpan(R.Reasoning, inside);
    TextInBoth(R.SpanEvents(R.Reasoning, inside), R.Reading(Rules(f), R.InText, R.FRESH, after));
  }

  lemma TextSaysMore(f: Floats, content: Bytes, calls: seq<Tree>)
    requires Sound(f) && NoTag(LStrip(content), R.OPEN_CALL) && AllGood(f, calls) && !NoneCloses(f, calls)
    ensures calls != []
    ensures TextIn(R.Reading(Rules(f), R.InText, R.FRESH,
                             NL + (NL + LStrip(content)) + CallsText(f, calls, content != []))) > |Strip(content)|
  {
    hide GoodCall;
    hide BodyOf;
    hide R.Find;
    hide R.PartBytes;
    hide Rules;
    hide TextIn;
    hide LStrip;
    hide RStrip;
    var said, rest := LStrip(content), CallsText(f, calls[1..], true);
    var x := NL + (NL + said);
    CallTags();
    NoTagPadded(said, R.OPEN_CALL);
    NoTagPadded(NL + said, R.OPEN_CALL);
    NoTagPadded(x, R.OPEN_CALL);
    StripFrontLine(NL + said);
    StripFrontLine(said);
    LStripDone(content);
    StripBackLine(x);
    var line := if content != [] then x + NL else x;
    var body := BodyOf(f, calls[0]);
    TextAndCalls(line, x, if content != [] then NL else [], body, rest);
    assert EndsLine(line) by { LineEnds(x, said, content); }
    ReadsTools(f);
    TextThenTool(Rules(f), line, body + R.CLOSE_CALL + rest);
    var h := R.Held(0, R.PartBytes(R.FRESH, R.Text, line).0.any);
    var read := R.Reading(Rules(f), R.Tool, h, body + R.CLOSE_CALL + rest);
    FirstOrLater(f, h, calls);
    TextInSpan(R.Text, Strip(line));
    TextInBoth(R.SpanEvents(R.Text, Strip(line)), read);
  }

  lemma LineEnds(x: Bytes, said: Bytes, content: Bytes)
    requires x == NL + (NL + said) && said == LStrip(content)
    ensures EndsLine(if content != [] then x + NL else x)
  {
  }

  lemma FirstOrLater(f: Floats, h: R.Held, calls: seq<Tree>)
    requires Sound(f) && AllGood(f, calls) && !NoneCloses(f, calls)
    ensures TextIn(R.Reading(Rules(f), R.Tool, h,
                             BodyOf(f, calls[0]) + R.CLOSE_CALL + CallsText(f, calls[1..], true))) > 0
  {
    hide TextIn;
    SomeCloses(f, h, calls, false);
    CallComes(f, h, calls, false);
  }

  // ---- Tags in the text ----

  /**
   * Whether text is read back as it is although a call's tags may be in it:
   * no newline before a block, no block a call, and no whitespace after one.
   */
  predicate StaysText(r: R.Rules, t: Bytes)
    decreases |t|, 0
  {
    match R.FindCall(r, t)
    case None => true
    case Some(c) => !EndsLine(t[..c]) && StaysBlock(r, t[c + |R.OPEN_CALL|..])
  }

  /** The same from after a block's opening tag. */
  predicate StaysBlock(r: R.Rules, u: Bytes)
    decreases |u|, 0
  {
    match R.Find(u, R.CLOSE_CALL)
    case None => true
    case Some(c) => r.callOf(u[..c]).None? && StaysAfter(r, u[c + |R.CLOSE_CALL|..])
  }

  predicate StaysAfter(r: R.Rules, v: Bytes)
    decreases |v|, 1
  {
    v == [] || (!R.IsSpace(v[0]) &&
                if R.At(v, 0, R.OPEN_CALL) then StaysBlock(r, v[|R.OPEN_CALL|..]) else StaysText(r, v))
  }

  /** With no newlines held back it makes no difference what came before a byte that is none. */
  lemma FreshOrNot(h: R.Held, kind: R.Kind, s: Bytes)
    requires h.nl == 0 && s != [] && s[0] != R.NEWLINE
    ensures R.PartBytes(h, kind, s) == R.PartBytes(R.FRESH, kind, s)
  {
    var one: Bytes := [s[0]];
    assert s == one + s[1..];
    R.PartBytesConcat(h, kind, one, s[1..]);
    R.PartBytesConcat(R.FRESH, kind, one, s[1..]);
    assert one[..0] == [];
    assert R.PartBytes(h, kind, one) == (R.Held(0, true), [] + ([] + [R.OneByte(kind, s[0])]));
    assert R.PartBytes(R.FRESH, kind, one) == (R.Held(0, true), [] + ([] + [R.OneByte(kind, s[0])]));
  }

  /** What text that begins with no newline says, to a tag or to the end. */
  lemma TextSays(h: R.Held, s: Bytes)
    requires h.nl == 0 && (s == [] || s[0] != R.NEWLINE)
    ensures R.PartBytes(h, R.Text, s).1 == R.SpanEvents(R.Text, RStrip(s))
    ensures s != [] || h == R.FRESH ==> R.TextEnd(h, s) == R.SpanEvents(R.Text, s)
    ensures s != [] && s[|s| - 1] != R.NEWLINE ==> R.PartBytes(h, R.Text, s).0.nl == 0
  {
    hide R.PartBytes;
    assert LStrip(s) == s;
    PartSays(R.Text, s);
    if s != [] {
      FreshOrNot(h, R.Text, s);
      LastIsOut(h, s);
    } else {
      Nothing(h);
    }
  }

  lemma Nothing(h: R.Held)
    ensures R.PartBytes(h, R.Text, []) == (h, [])
  {
  }

  lemma LastIsOut(h: R.Held, s: Bytes)
    requires s != []
    ensures s[|s| - 1] != R.NEWLINE ==> R.PartBytes(h, R.Text, s).0 == R.Held(0, true)
  {
  }

  lemma StripIsLess(s: Bytes)
    ensures |RStrip(s)| <= |s|
    ensures !EndsLine(s) ==> RStrip(s) == s
    ensures EndsLine(s) ==> |RStrip(s)| < |s|
  {
    RStripShrinks(s);
    if EndsLine(s) { RStripShrinks(s[..|s| - 1]); }
  }

  lemma Spans(a: Bytes, b: Bytes)
    ensures R.SpanEvents(R.Text, a) + R.SpanEvents(R.Text, b) == R.SpanEvents(R.Text, a + b)
  {
  }

  /** Text is read as itself if it stays text, and as fewer events if not. */
  lemma {:induction false} TextStays(r: R.Rules, t: Bytes)
    requires t == [] || t[0] != R.NEWLINE
    ensures var es := R.Reading(r, R.InText, R.FRESH, t);
            if StaysText(r, t) then es == R.SpanEvents(R.Text, t) else |es| < |t|
    decreases |t|, 2
  {
    hide R.PartBytes;
    hide R.Find;
    hide StaysBlock;
    hide R.TextEnd;
    var c := R.FindCall(r, t);
    if c.None? {
      TextSays(R.FRESH, t);
    } else {
      FirstFits(t, R.OPEN_CALL);
      var head, u := t[..c.value], t[c.value + |R.OPEN_CALL|..];
      TagThere(t, c.value, R.OPEN_CALL);
      TextSays(R.FRESH, head);
      StripIsLess(head);
      var h := R.Held(0, R.PartBytes(R.FRESH, R.Text, head).0.any);
      BlockStays(r, h, u);
      assert R.Reading(r, R.InText, R.FRESH, t) == R.SpanEvents(R.Text, RStrip(head)) + R.Reading(r, R.Tool, h, u);
      Spans(head, R.OPEN_CALL + u);
    }
  }

  lemma TagThere(t: Bytes, c: nat, tag: Bytes)
    requires R.At(t, c, tag)
    ensures c + |tag| <= |t| && t == t[..c] + (tag + t[c + |tag|..])
  {
  }

  lemma {:induction false} BlockStays(r: R.Rules, h: R.Held, u: Bytes)
    requires h.nl == 0
    ensures var es := R.Reading(r, R.Tool, h, u);
            if StaysBlock(r, u) then es == R.SpanEvents(R.Text, R.OPEN_CALL + u) else |es| < |R.OPEN_CALL| + |u|
    decreases |u|, 2
  {
    hide R.PartBytes;
    hide R.Find;
    hide R.Reading;
    hide StaysAfter;
    hide R.TextEnd;
    hide RStrip;
    var c := R.Find(u, R.CLOSE_CALL);
    BlockReads(r, h, u);
    if c.None? {
      TextSays(h, R.OPEN_CALL + u);
    } else {
      FirstFits(u, R.CLOSE_CALL);
      var body, v := u[..c.value], u[c.value + |R.CLOSE_CALL|..];
      TagThere(u, c.value, R.CLOSE_CALL);
      var text := R.OPEN_CALL + body + R.CLOSE_CALL;
      TextSays(h, text);
      StripIsLess(text);
      var h' := R.PartBytes(h, R.Text, text).0;
      AfterStays(r, h, v);
      AfterStays(r, h', v);
      assert text + v == R.OPEN_CALL + u;
      Spans(text, v);
    }
  }

  /** A block read, or left open. */
  lemma BlockReads(r: R.Rules, h: R.Held, u: Bytes)
    ensures var c := R.Find(u, R.CLOSE_CALL);
            R.Reading(r, R.Tool, h, u) ==
              if c.None? then R.TextEnd(h, R.OPEN_CALL + u)
              else
                var v := u[c.value + |R.CLOSE_CALL|..];
                var call := r.callOf(u[..c.value]);
                var (h', e) := R.PartBytes(h, R.Text, R.OPEN_CALL + u[..c.value] + R.CLOSE_CALL);
                if call.Some? then [R.OneCall(call.value)] + R.Reading(r, R.AfterCall, h, v)
                else e + R.Reading(r, R.AfterCall, h', v)
  {
    hide R.PartBytes;
    hide R.Find;
    hide R.TextEnd;
  }

  lemma {:induction false} AfterStays(r: R.Rules, h: R.Held, v: Bytes)
    requires h.nl == 0
    ensures var es := R.Reading(r, R.AfterCall, h, v);
            if StaysAfter(r, v) then es == R.SpanEvents(R.Text, v) else |es| < |v|
    decreases |v|, 3
  {
    hide R.PartBytes;
    hide R.Find;
    hide StaysBlock;
    hide StaysText;
    var rest := R.SkipSpace(v);
    if rest != [] {
      assert |rest| < |v| <==> R.IsSpace(v[0]);
      if R.At(rest, 0, R.OPEN_CALL) {
        TagThere(rest, 0, R.OPEN_CALL);
        BlockStays(r, h, rest[|R.OPEN_CALL|..]);
      } else {
        TextStays(r, rest);
      }
    }
  }

  /** A line before text is not part of it. */
  lemma LineGoes(r: R.Rules, s: Bytes)
    ensures R.Reading(r, R.InText, R.FRESH, NL + s) == R.Reading(r, R.InText, R.FRESH, s)
  {
    hide R.PartBytes;
    hide R.Find;
    CallTags();
    LineShifts(s, R.OPEN_CALL);
    var c := R.FindCall(r, s);
    if c.None? {
      SameSays(s);
    } else {
      FirstFits(s, R.OPEN_CALL);
      assert (NL + s)[..c.value + 1] == NL + s[..c.value];
      assert (NL + s)[c.value + 1 + |R.OPEN_CALL|..] == s[c.value + |R.OPEN_CALL|..];
      SameSays(s[..c.value]);
    }
  }

  lemma SameSays(s: Bytes)
    ensures R.TextEnd(R.FRESH, NL + s) == R.TextEnd(R.FRESH, s)
    ensures R.PartBytes(R.FRESH, R.Text, NL + s).1 == R.PartBytes(R.FRESH, R.Text, s).1
    ensures R.PartBytes(R.FRESH, R.Text, NL + s).0.any == R.PartBytes(R.FRESH, R.Text, s).0.any
  {
    hide R.PartBytes;
    PartSays(R.Text, s);
    PartSays(R.Text, NL + s);
    StripFrontLine(s);
  }

  lemma LineShifts(s: Bytes, tag: Bytes)
    requires OneLine(tag)
    ensures R.Find(NL + s, tag) == match R.Find(s, tag) case None => None case Some(c) => Some(c + 1)
  {
    hide R.Find;
    match R.Find(s, tag)
    case None => NoTagPadded(s, tag);
    case Some(c) =>
      TagInside(s, [], tag);
      assert s + [] == s;
  }

  /**
   * The text of a final turn without calls, and with it all of the turn, is
   * read back exactly when it stays text.
   */
  lemma TextReadBack(f: Floats, m: Tree)
    requires Sound(f) && Calls(m) == [] && NoTag(Strip(Parts(m).0), R.CLOSE_THINK)
    ensures R.Read(Rules(f), TurnText(f, m, true, true)) == TurnEvents(f, m) <==>
            StaysText(Rules(f), LStrip(Parts(m).1))
  {
    hide Parts;
    hide R.Find;
    hide R.PartBytes;
    hide StaysText;
    hide Rules;
    hide LStrip;
    hide RStrip;
    var (reasoning, content) := Parts(m);
    var inside, said := Strip(reasoning), LStrip(content);
    var after := NL + (NL + said) + [];
    TurnShape(inside, said, []);
    ReasonRead(f, inside, after);
    StripTwice(reasoning);
    assert after == NL + (NL + said);
    LineGoes(Rules(f), NL + said);
    LineGoes(Rules(f), said);
    LStripDone(content);
    TextStays(Rules(f), said);
    var spoken := R.SpanEvents(R.Text, said);
    assert spoken + [] == spoken;
    assert |spoken| == |said|;
    var why := R.SpanEvents(R.Reasoning, inside);
    var heard := R.Reading(Rules(f), R.InText, R.FRESH, said);
    assert (why + heard)[|why|..] == heard;
    assert (why + spoken)[|why|..] == spoken;
  }

  /** A text with a tag inside that is read back, and one that is not. */
  lemma TagsReadBack(f: Floats)
    requires Sound(f)
    ensures StaysText(Rules(f), R.OPEN_CALL) && !StaysText(Rules(f), [0x61] + NL + R.OPEN_CALL)
  {
    var none, line: Bytes := [], [0x61] + NL;
    assert R.OPEN_CALL == none + R.OPEN_CALL;
    CallTags();
    R.FoundFirst(R.OPEN_CALL, R.OPEN_CALL, 0);
    R.NotFound(none, R.CLOSE_CALL);
    R.NotFound(line, R.OPEN_CALL);
    TagFound(line, R.OPEN_CALL, none);
    assert line + R.OPEN_CALL + none == line + R.OPEN_CALL;
    assert R.OPEN_CALL[..0] == none && R.OPEN_CALL[|R.OPEN_CALL|..] == none;
    assert (line + R.OPEN_CALL)[..2] == line;
  }
}
