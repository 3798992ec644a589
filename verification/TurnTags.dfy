/**
 * Exactly which final turns are read back, whatever tags are in their text:
 * text before calls stands as it is when no tag in it makes more of it, and
 * the calls after it when no body closes early.
 */
module TurnTags {
  import opened Basics
  import opened ChatCall
  import opened ChatTurn
  import opened FloatRepr
  import opened JsonTree
  import opened TurnExact
  import R = ReplyReading

  /**
   * Whether text before a call is read back as it is although a call's tags
   * may be in it: no newline before a block, no block a call or left open,
   * and no whitespace after one but the newlines the text ends in.
   */
  predicate TextStands(r: R.Rules, t: Bytes)
    decreases |t|, 0
  {
    match R.FindCall(r, t)
    case None => true
    case Some(c) => !EndsLine(t[..c]) && BlockStands(r, t[c + |R.OPEN_CALL|..])
  }

  /** The same from after a block's opening tag. */
  predicate BlockStands(r: R.Rules, u: Bytes)
    decreases |u|, 0
  {
    match R.Find(u, R.CLOSE_CALL)
    case None => false
    case Some(c) => r.callOf(u[..c]).None? && RestStands(r, u[c + |R.CLOSE_CALL|..])
  }

  predicate RestStands(r: R.Rules, v: Bytes)
    decreases |v|, 1
  {
    RStrip(v) == [] ||
    (!R.IsSpace(v[0]) &&
     if R.At(v, 0, R.OPEN_CALL) then BlockStands(r, v[|R.OPEN_CALL|..]) else TextStands(r, v))
  }

  // ---- What events say ----

  /** Events that begin by saying s, and say no other text. */
  predicate Says(es: seq<R.Event>, s: Bytes) { R.SpanEvents(R.Text, s) <= es && TextIn(es) == |s| }

  lemma SaysOn(a: Bytes, b: Bytes, es: seq<R.Event>)
    ensures Says(R.SpanEvents(R.Text, a) + es, a + b) <==> Says(es, b)
  {
    hide TextIn;
    var front := R.SpanEvents(R.Text, a);
    Spans(a, b);
    TextInBoth(front, es);
    TextInSpan(R.Text, a);
    assert (front + es)[|front|..] == es;
    if R.SpanEvents(R.Text, a + b) <= front + es {
      assert (front + R.SpanEvents(R.Text, b))[|front|..] <= (front + es)[|front|..];
    }
  }

  lemma NotSaid(es: seq<R.Event>, s: Bytes)
    requires s != [] && (es == [] || es[0] != R.OneByte(R.Text, s[0]))
    ensures !Says(es, s)
  {
    assert R.SpanEvents(R.Text, s)[0] == R.OneByte(R.Text, s[0]);
  }

  lemma TooMuchSaid(front: Bytes, es: seq<R.Event>, s: Bytes)
    requires |front| > |s|
    ensures !Says(R.SpanEvents(R.Text, front) + es, s)
  {
    TextInBoth(R.SpanEvents(R.Text, front), es);
    TextInSpan(R.Text, front);
  }

  // ---- Newlines at the end of text ----

  lemma {:induction false} RStripOnto(a: Bytes, b: Bytes)
    requires !EndsLine(a) || RStrip(b) != []
    ensures RStrip(a + b) == a + RStrip(b)
    decreases |b|
  {
    if b == [] {
      assert a + b == a;
    } else if b[|b| - 1] == R.NEWLINE {
      assert (a + b)[..|a + b| - 1] == a + b[..|b| - 1];
      RStripOnto(a, b[..|b| - 1]);
    }
  }

  lemma {:induction false} RStripStops(s: Bytes)
    ensures RStrip(s) <= s && (|RStrip(s)| < |s| ==> s[|RStrip(s)|] == R.NEWLINE)
    ensures RStrip(s) == [] ==> forall q :: 0 <= q < |s| ==> s[q] == R.NEWLINE
    ensures s != [] && s[0] != R.NEWLINE ==> RStrip(s) != []
    decreases |s|
  {
    if s != [] && s[|s| - 1] == R.NEWLINE { RStripStops(s[..|s| - 1]); }
  }

  // ---- How what is read begins ----

  /** What is read from an opening tag on begins with a call, or with the tag. */
  lemma BlockBegins(r: R.Rules, h: R.Held, x: Bytes)
    requires h.nl == 0
    ensures var es := R.Reading(r, R.Tool, h, x);
            es == [] || es[0].OneCall? || es[0] == R.OneByte(R.Text, R.OPEN_CALL[0])
  {
    hide R.PartBytes;
    hide R.Find;
    hide R.TextEnd;
    hide R.Reading;
    hide RStrip;
    BlockReads(r, h, x);
    var c := R.Find(x, R.CLOSE_CALL);
    if c.None? {
      TextSays(h, R.OPEN_CALL + x);
    } else {
      FirstFits(x, R.CLOSE_CALL);
      var text := R.OPEN_CALL + x[..c.value] + R.CLOSE_CALL;
      TextSays(h, text);
      StripIsLess(text);
    }
  }

  /** Text that begins with no whitespace and no tag is read from its first byte. */
  lemma TextBegins(r: R.Rules, s: Bytes)
    requires s != [] && !R.IsSpace(s[0]) && !R.At(s, 0, R.OPEN_CALL)
    ensures var es := R.Reading(r, R.InText, R.FRESH, s); es == [] || es[0] == R.OneByte(R.Text, s[0])
  {
    hide R.PartBytes;
    hide R.Find;
    hide R.TextEnd;
    hide RStrip;
    var c := R.FindCall(r, s);
    if c.None? {
      TextSays(R.FRESH, s);
    } else {
      FirstFits(s, R.OPEN_CALL);
      var head := s[..c.value];
      TextSays(R.FRESH, head);
      RStripStops(head);
    }
  }

  /** After a block, nothing read begins with whitespace. */
  lemma AfterBegins(r: R.Rules, h: R.Held, w: Bytes)
    requires h.nl == 0
    ensures var es := R.Reading(r, R.AfterCall, h, w);
            es == [] || es[0].OneCall? || (es[0].OneByte? && !R.IsSpace(es[0].b))
  {
    hide R.PartBytes;
    hide R.Find;
    hide R.TextEnd;
    var rest := R.SkipSpace(w);
    if rest != [] {
      if R.At(rest, 0, R.OPEN_CALL) {
        BlockBegins(r, h, rest[|R.OPEN_CALL|..]);
      } else {
        TextBegins(r, rest);
      }
    }
  }

  // ---- Text before a call ----

  /** What comes after a turn's text: a newline and the first call's block. */
  function Tail(z: Bytes): Bytes { NL + (R.OPEN_CALL + z) }

  /** Text before a call is read as itself if it stands, and is not said if not. */
  lemma {:induction false} TextBefore(r: R.Rules, t: Bytes, z: Bytes) returns (h: R.Held)
    requires r.tools && (t == [] || t[0] != R.NEWLINE) && R.Find(z, R.CLOSE_CALL).Some?
    ensures var es := R.Reading(r, R.InText, R.FRESH, t + Tail(z));
            if TextStands(r, t) then h.nl == 0 && es == R.SpanEvents(R.Text, RStrip(t)) + R.Reading(r, R.Tool, h, z)
            else !Says(es, RStrip(t))
    decreases |t|, 2
  {
    hide R.PartBytes;
    hide R.Find;
    hide R.Reading;
    hide RStrip;
    hide Says;
    hide BlockStands;
    var c := R.FindCall(r, t);
    if c.None? {
      h := LineBefore(r, t, z);
    } else {
      FirstFits(t, R.OPEN_CALL);
      TagThere(t, c.value, R.OPEN_CALL);
      var head, u := t[..c.value], t[c.value + |R.OPEN_CALL|..];
      var first := R.Held(0, R.PartBytes(R.FRESH, R.Text, head).0.any);
      h := BlockBefore(r, first, u, z);
      HeadRead(r, t, c.value, Tail(z));
      var es := R.Reading(r, R.Tool, first, u + Tail(z));
      var said := RStrip(R.OPEN_CALL + u);
      RStripStops(R.OPEN_CALL + u);
      RStripOnto(head, R.OPEN_CALL + u);
      if EndsLine(head) {
        LineLost(r, first, head, u + Tail(z), said);
      } else {
        StripIsLess(head);
        SaysOn(head, said, es);
        if BlockStands(r, u) { SpansOn(head, said, R.Reading(r, R.Tool, h, z)); }
      }
    }
  }

  lemma SpansOn(a: Bytes, b: Bytes, es: seq<R.Event>)
    ensures R.SpanEvents(R.Text, a) + (R.SpanEvents(R.Text, b) + es) == R.SpanEvents(R.Text, a + b) + es
  {
    Spans(a, b);
  }

  /** Text without a tag, and the newline and the call after it. */
  lemma LineBefore(r: R.Rules, t: Bytes, z: Bytes) returns (h: R.Held)
    requires r.tools && (t == [] || t[0] != R.NEWLINE) && NoTag(t, R.OPEN_CALL)
    ensures h.nl == 0
    ensures R.Reading(r, R.InText, R.FRESH, t + Tail(z)) ==
              R.SpanEvents(R.Text, RStrip(t)) + R.Reading(r, R.Tool, h, z)
  {
    hide R.PartBytes;
    hide R.Find;
    hide R.Reading;
    CallTags();
    NoTagPadded(t, R.OPEN_CALL);
    assert t + Tail(z) == (t + NL) + R.OPEN_CALL + z;
    TextThenTool(r, t + NL, z);
    StripBackLine(t);
    assert LStrip(t) == t;
    h := R.Held(0, R.PartBytes(R.FRESH, R.Text, t + NL).0.any);
  }

  /** Text up to its first tag, read. */
  lemma HeadRead(r: R.Rules, t: Bytes, c: nat, more: Bytes)
    requires R.FindCall(r, t) == Some(c) && (t == [] || t[0] != R.NEWLINE) && c + |R.OPEN_CALL| <= |t|
    ensures var h := R.Held(0, R.PartBytes(R.FRESH, R.Text, t[..c]).0.any);
            R.Reading(r, R.InText, R.FRESH, t + more) ==
              R.SpanEvents(R.Text, RStrip(t[..c])) + R.Reading(r, R.Tool, h, t[c + |R.OPEN_CALL|..] + more)
  {
    hide R.PartBytes;
    hide R.Find;
    hide R.Reading;
    hide RStrip;
    R.TextFound(r, R.FRESH, t, more, c);
    TextSays(R.FRESH, t[..c]);
  }

  /** A newline before a block is not said. */
  lemma LineLost(r: R.Rules, h: R.Held, head: Bytes, w: Bytes, said: Bytes)
    requires h.nl == 0 && EndsLine(head)
    ensures !Says(R.SpanEvents(R.Text, RStrip(head)) + R.Reading(r, R.Tool, h, w), head + said)
  {
    hide R.Reading;
    hide RStrip;
    hide Says;
    var es, front := R.Reading(r, R.Tool, h, w), RStrip(head);
    RStripStops(head);
    StripIsLess(head);
    var more := head[|front|..] + said;
    assert front + more == head + said;
    BlockBegins(r, h, w);
    NotSaid(es, more);
    SaysOn(front, more, es);
  }

  lemma {:induction false} BlockBefore(r: R.Rules, h: R.Held, u: Bytes, z: Bytes) returns (h': R.Held)
    requires r.tools && h.nl == 0 && R.Find(z, R.CLOSE_CALL).Some?
    ensures var es := R.Reading(r, R.Tool, h, u + Tail(z));
            if BlockStands(r, u)
            then h'.nl == 0 && es == R.SpanEvents(R.Text, RStrip(R.OPEN_CALL + u)) + R.Reading(r, R.Tool, h', z)
            else !Says(es, RStrip(R.OPEN_CALL + u))
    decreases |u|, 2
  {
    hide R.PartBytes;
    hide R.Find;
    hide R.Reading;
    hide R.TextEnd;
    hide RStrip;
    hide Says;
    hide RestStands;
    hide Tail;
    hide R.At;
    var w := u + Tail(z);
    var said := RStrip(R.OPEN_CALL + u);
    RStripStops(R.OPEN_CALL + u);
    var es := R.Reading(r, R.Tool, h, w);
    var c := R.Find(u, R.CLOSE_CALL);
    h' := h;
    if c.None? {
      LeftOpen(r, h, u, z);
    } else {
      FirstFits(u, R.CLOSE_CALL);
      BlockSplits(u, c.value);
      var body, v := u[..c.value], u[c.value + |R.CLOSE_CALL|..];
      BlockReadOn(r, h, u, c.value, Tail(z));
      if r.callOf(body).Some? {
        NotSaid(es, said);
      } else {
        var text := R.OPEN_CALL + body + R.CLOSE_CALL;
        var later := R.PartBytes(h, R.Text, text).0;
        h' := RestBefore(r, later, v, z);
        RStripOnto(text, v);
        SaysOn(text, RStrip(v), R.Reading(r, R.AfterCall, later, v + Tail(z)));
        if RestStands(r, v) { SpansOn(text, RStrip(v), R.Reading(r, R.Tool, h', z)); }
      }
    }
  }

  lemma BlockSplits(u: Bytes, c: nat)
    requires R.At(u, c, R.CLOSE_CALL)
    ensures c + |R.CLOSE_CALL| <= |u|
    ensures var text := R.OPEN_CALL + u[..c] + R.CLOSE_CALL;
            R.OPEN_CALL + u == text + u[c + |R.CLOSE_CALL|..] && !EndsLine(text)
  {
    TagThere(u, c, R.CLOSE_CALL);
    var v := u[c + |R.CLOSE_CALL|..];
    Joins(R.OPEN_CALL, u[..c], R.CLOSE_CALL, v);
  }

  lemma Joins(a: Bytes, b: Bytes, c: Bytes, d: Bytes)
    ensures a + (b + (c + d)) == (a + b + c) + d
  {
  }

  /** A block that closes inside the text, read. */
  lemma BlockReadOn(r: R.Rules, h: R.Held, u: Bytes, c: nat, more: Bytes)
    requires h.nl == 0 && R.Find(u, R.CLOSE_CALL) == Some(c) && c + |R.CLOSE_CALL| <= |u|
    ensures var v := u[c + |R.CLOSE_CALL|..];
            var text := R.OPEN_CALL + u[..c] + R.CLOSE_CALL;
            var h' := R.PartBytes(h, R.Text, text).0;
            var es := R.Reading(r, R.Tool, h, u + more);
            if r.callOf(u[..c]).Some? then es != [] && es[0].OneCall?
            else h'.nl == 0 && es == R.SpanEvents(R.Text, text) + R.Reading(r, R.AfterCall, h', v + more)
  {
    hide R.PartBytes;
    hide R.Find;
    hide R.Reading;
    hide RStrip;
    R.ToolFound(r, h, u, more, c);
    var text := R.OPEN_CALL + u[..c] + R.CLOSE_CALL;
    TextSays(h, text);
    StripIsLess(text);
  }

  /** A block left open in the text runs on into the first call, and is a call or more text. */
  lemma LeftOpen(r: R.Rules, h: R.Held, u: Bytes, z: Bytes)
    requires h.nl == 0 && R.Find(u, R.CLOSE_CALL).None? && R.Find(z, R.CLOSE_CALL).Some?
    ensures !Says(R.Reading(r, R.Tool, h, u + Tail(z)), RStrip(R.OPEN_CALL + u))
  {
    hide R.PartBytes;
    hide R.Find;
    hide R.Reading;
    hide R.TextEnd;
    hide RStrip;
    hide Says;
    var w := u + Tail(z);
    var said := RStrip(R.OPEN_CALL + u);
    RStripStops(R.OPEN_CALL + u);
    var c := ClosesLater(u, z);
    FirstFits(w, R.CLOSE_CALL);
    BlockReads(r, h, w);
    var es := R.Reading(r, R.Tool, h, w);
    if r.callOf(w[..c]).Some? {
      NotSaid(es, said);
    } else {
      var text := R.OPEN_CALL + w[..c] + R.CLOSE_CALL;
      TextSays(h, text);
      StripIsLess(text);
      var later := R.PartBytes(h, R.Text, text).0;
      TooMuchSaid(text, R.Reading(r, R.AfterCall, later, w[c + |R.CLOSE_CALL|..]), said);
    }
  }

  lemma FrontHasTag(u: Bytes, more: Bytes, c: nat, tag: Bytes)
    requires R.At(u + more, c, tag) && c + |tag| <= |u|
    ensures R.At(u, c, tag)
  {
    assert (u + more)[c..c + |tag|] == u[c..c + |tag|];
  }

  lemma ClosesLater(u: Bytes, z: Bytes) returns (c: nat)
    requires R.Find(u, R.CLOSE_CALL).None? && R.Find(z, R.CLOSE_CALL).Some?
    ensures R.Find(u + Tail(z), R.CLOSE_CALL) == Some(c) && c + |R.CLOSE_CALL| > |u|
  {
    hide R.Find;
    var w := u + Tail(z);
    var front := u + NL + R.OPEN_CALL;
    var zc := R.Find(z, R.CLOSE_CALL).value;
    assert w == front + z;
    FirstFits(z, R.CLOSE_CALL);
    R.AtShifted(front, z, |front| + zc, R.CLOSE_CALL);
    var found := R.Find(w, R.CLOSE_CALL);
    assert R.At(w, |front| + zc, R.CLOSE_CALL);
    c := found.value;
    if c + |R.CLOSE_CALL| <= |u| {
      FrontHasTag(u, Tail(z), c, R.CLOSE_CALL);
      assert false;
    }
  }

  lemma FirstIs(v: Bytes, more: Bytes)
    ensures v != [] ==> (v + more)[0] == v[0]
  {
  }

  lemma {:induction false} RestBefore(r: R.Rules, h: R.Held, v: Bytes, z: Bytes) returns (h': R.Held)
    requires r.tools && h.nl == 0 && R.Find(z, R.CLOSE_CALL).Some?
    ensures var es := R.Reading(r, R.AfterCall, h, v + Tail(z));
            if RestStands(r, v) then h'.nl == 0 && es == R.SpanEvents(R.Text, RStrip(v)) + R.Reading(r, R.Tool, h', z)
            else !Says(es, RStrip(v))
    decreases |v|, 3
  {
    hide R.PartBytes;
    hide R.Find;
    hide R.Reading;
    hide RStrip;
    hide Says;
    hide BlockStands;
    hide TextStands;
    hide Tail;
    hide R.At;
    var w := v + Tail(z);
    FirstIs(v, Tail(z));
    RStripStops(v);
    h' := h;
    if RStrip(v) == [] {
      LinesSkipped(r, h, v, z);
    } else if R.IsSpace(v[0]) {
      AfterBegins(r, h, w);
      NotSaid(R.Reading(r, R.AfterCall, h, w), RStrip(v));
    } else {
      RestGoes(r, h, v, z);
      if R.At(v, 0, R.OPEN_CALL) {
        h' := BlockBefore(r, h, v[|R.OPEN_CALL|..], z);
      } else {
        h' := TextBefore(r, v, z);
      }
    }
  }

  /** What begins with no whitespace after a block is another, or text. */
  lemma RestGoes(r: R.Rules, h: R.Held, v: Bytes, z: Bytes)
    requires v != [] && !R.IsSpace(v[0])
    ensures R.At(v, 0, R.OPEN_CALL) ==> |R.OPEN_CALL| <= |v| && v == R.OPEN_CALL + v[|R.OPEN_CALL|..]
    ensures R.Reading(r, R.AfterCall, h, v + Tail(z)) ==
              if R.At(v, 0, R.OPEN_CALL) then R.Reading(r, R.Tool, h, v[|R.OPEN_CALL|..] + Tail(z))
              else R.Reading(r, R.InText, R.FRESH, v + Tail(z))
  {
    hide R.Reading;
    var w := v + Tail(z);
    CallTags();
    R.AfterHere(r, h, w);
    TagBeforeLine(v, R.OPEN_CALL, R.OPEN_CALL + z);
    if R.At(v, 0, R.OPEN_CALL) {
      assert w[|R.OPEN_CALL|..] == v[|R.OPEN_CALL|..] + Tail(z);
      assert v == v[..|R.OPEN_CALL|] + v[|R.OPEN_CALL|..];
    }
  }

  /** Newlines after a block, and the one before the call, are skipped. */
  lemma LinesSkipped(r: R.Rules, h: R.Held, v: Bytes, z: Bytes)
    requires forall q :: 0 <= q < |v| ==> v[q] == R.NEWLINE
    ensures R.Reading(r, R.AfterCall, h, v + Tail(z)) == R.SpanEvents(R.Text, []) + R.Reading(r, R.Tool, h, z)
  {
    hide R.Reading;
    assert v + Tail(z) == (v + NL) + (R.OPEN_CALL + z);
    R.AfterSpace(r, h, v + NL, R.OPEN_CALL + z);
    TagFirst(R.OPEN_CALL, z);
    R.AfterHere(r, h, R.OPEN_CALL + z);
    var es := R.Reading(r, R.Tool, h, z);
    assert R.SpanEvents(R.Text, []) + es == es;
  }

  /** A tag of one line does not reach over a newline. */
  lemma TagBeforeLine(v: Bytes, tag: Bytes, more: Bytes)
    requires OneLine(tag)
    ensures R.At(v + (NL + more), 0, tag) <==> R.At(v, 0, tag)
  {
    var w := v + (NL + more);
    if |tag| <= |v| {
      assert w[..|tag|] == v[..|tag|];
    } else if |tag| <= |w| {
      assert w[..|tag|][|v|] == R.NEWLINE;
    }
  }

  // ---- The turn ----

  /** The text and the calls of a turn, read. */
  lemma CallsAfterText(f: Floats, content: Bytes, calls: seq<Tree>)
    requires Sound(f) && AllGood(f, calls) && calls != []
    ensures R.Reading(Rules(f), R.InText, R.FRESH, NL + (NL + LStrip(content)) + CallsText(f, calls, content != [])) ==
              R.SpanEvents(R.Text, Strip(content)) + CallEvents(f, calls) <==>
            TextStands(Rules(f), LStrip(content)) && NoneCloses(f, calls)
  {
    hide R.PartBytes;
    hide R.Find;
    hide R.Reading;
    hide RStrip;
    hide LStrip;
    hide TextStands;
    hide TextIn;
    hide BodyOf;
    hide GoodCall;
    hide CallRead;
    hide CallOf;
    hide CallEvents;
    var said := LStrip(content);
    var body, rest := BodyOf(f, calls[0]), CallsText(f, calls[1..], true);
    var z := body + R.CLOSE_CALL + rest;
    LStripDone(content);
    FirstCall(f, content, calls, said, z);
    CloseInside(body, rest);
    var h := TextBefore(Rules(f), said, z);
    var es := R.Reading(Rules(f), R.InText, R.FRESH, said + Tail(z));
    var front, tool := R.SpanEvents(R.Text, RStrip(said)), R.Reading(Rules(f), R.Tool, h, z);
    NoTextInCalls(f, calls);
    SaidAlone(RStrip(said), CallEvents(f, calls));
    if TextStands(Rules(f), said) {
      assert (front + tool)[|front|..] == tool && (front + CallEvents(f, calls))[|front|..] == CallEvents(f, calls);
      if NoneCloses(f, calls) {
        ReadCall(f, h, calls[0], rest);
        ReadCalls(f, h, calls[1..], true);
        CallFirst(f, calls);
      } else {
        FirstOrLater(f, h, calls);
      }
    }
  }

  lemma SaidAlone(s: Bytes, es: seq<R.Event>)
    requires TextIn(es) == 0
    ensures Says(R.SpanEvents(R.Text, s) + es, s)
  {
    TextInBoth(R.SpanEvents(R.Text, s), es);
    TextInSpan(R.Text, s);
  }

  lemma CloseInside(body: Bytes, rest: Bytes)
    ensures R.Find(body + R.CLOSE_CALL + rest, R.CLOSE_CALL).Some?
  {
    hide R.Find;
    var z := body + R.CLOSE_CALL + rest;
    assert z[|body|..|body| + |R.CLOSE_CALL|] == R.CLOSE_CALL;
    assert R.At(z, |body|, R.CLOSE_CALL);
  }

  /** The newlines before a turn's text go. */
  lemma FirstCall(f: Floats, content: Bytes, calls: seq<Tree>, said: Bytes, z: Bytes)
    requires Sound(f) && calls != [] && said == LStrip(content)
    requires z == BodyOf(f, calls[0]) + R.CLOSE_CALL + CallsText(f, calls[1..], true)
    ensures R.Reading(Rules(f), R.InText, R.FRESH, NL + (NL + said) + CallsText(f, calls, content != [])) ==
              R.Reading(Rules(f), R.InText, R.FRESH, said + Tail(z))
  {
    hide R.Reading;
    hide BodyOf;
    hide Rules;
    hide Sound;
    hide LStrip;
    CallsBegin(f, calls, content != []);
    hide CallsText;
    hide Tail;
    Apart(said, z);
    if content != [] {
      LineGoes(Rules(f), NL + (said + Tail(z)));
      LineGoes(Rules(f), said + Tail(z));
    } else {
      Nearby(z);
      NothingStripped();
      LineGoes(Rules(f), said + Tail(z));
    }
  }

  lemma NothingStripped()
    ensures LStrip([]) == []
  {
  }

  lemma Apart(said: Bytes, z: Bytes)
    ensures NL + (NL + said) + (NL + (R.OPEN_CALL + z)) == NL + (NL + (said + Tail(z)))
  {
  }

  lemma Nearby(z: Bytes)
    ensures NL + (NL + []) + ([] + (R.OPEN_CALL + z)) == NL + ([] + Tail(z))
  {
  }

  /** A turn with calls, its reasoning read back. */
  lemma CallTurnReadBack(f: Floats, m: Tree)
    requires Sound(f) && AllGood(f, Calls(m)) && Calls(m) != [] && NoTag(Strip(Parts(m).0), R.CLOSE_THINK)
    ensures R.Read(Rules(f), TurnText(f, m, true, true)) == TurnEvents(f, m) <==>
              TextStands(Rules(f), LStrip(Parts(m).1)) && NoneCloses(f, Calls(m))
  {
    hide GoodCall;
    hide Parts;
    hide BodyOf;
    hide R.Find;
    hide R.PartBytes;
    hide CallsText;
    hide CallEvents;
    hide NoneCloses;
    hide Rules;
    hide LStrip;
    hide RStrip;
    hide TextStands;
    var (reasoning, content) := Parts(m);
    var calls := CallsText(f, Calls(m), content != []);
    var inside := Strip(reasoning);
    var after := NL + (NL + LStrip(content)) + calls;
    TurnShape(inside, LStrip(content), calls);
    ReasonRead(f, inside, after);
    StripTwice(reasoning);
    CallsAfterText(f, content, Calls(m));
    var why := R.SpanEvents(R.Reasoning, inside);
    var heard := R.Reading(Rules(f), R.InText, R.FRESH, after);
    var told := R.SpanEvents(R.Text, Strip(content)) + CallEvents(f, Calls(m));
    assert (why + heard)[|why|..] == heard && (why + told)[|why|..] == told;
  }

  lemma {:induction false} NoReasoningInCalls(f: Floats, calls: seq<Tree>)
    requires Sound(f) && AllGood(f, calls)
    ensures ReasoningIn(CallEvents(f, calls)) == []
    decreases |calls|
  {
    hide GoodCall;
    hide CallRead;
    if calls != [] {
      NoReasoningInCalls(f, calls[1..]);
      var one := R.OneCall(CallRead(f, calls[0]));
      assert ([one] + CallEvents(f, calls[1..]))[1..] == CallEvents(f, calls[1..]);
    }
  }

  /** What a turn says of its reasoning. */
  lemma ReasoningOfTurn(f: Floats, m: Tree)
    requires Sound(f) && AllGood(f, Calls(m))
    ensures ReasoningIn(TurnEvents(f, m)) == Strip(Parts(m).0)
  {
    hide GoodCall;
    hide Parts;
    hide CallEvents;
    hide LStrip;
    hide RStrip;
    var (reasoning, content) := Parts(m);
    var inside := Strip(reasoning);
    var text := if Calls(m) == [] then LStrip(content) else Strip(content);
    NoReasoningInCalls(f, Calls(m));
    ReasoningInSpan(R.Reasoning, inside);
    ReasoningInSpan(R.Text, text);
    ReasoningInBoth(R.SpanEvents(R.Text, text), CallEvents(f, Calls(m)));
    ReasoningInBoth(R.SpanEvents(R.Reasoning, inside), R.SpanEvents(R.Text, text) + CallEvents(f, Calls(m)));
  }

  /**
   * A final turn is read back as it is, whatever tags are in it, exactly when
   * its reasoning has no closing tag inside, its text stands where it is, and
   * no call's body has a closing tag inside.
   */
  lemma TurnReadsBack(f: Floats, m: Tree)
    requires Sound(f) && AllGood(f, Calls(m))
    ensures R.Read(Rules(f), TurnText(f, m, true, true)) == TurnEvents(f, m) <==>
              && NoTag(Strip(Parts(m).0), R.CLOSE_THINK)
              && if Calls(m) == [] then StaysText(Rules(f), LStrip(Parts(m).1))
                 else TextStands(Rules(f), LStrip(Parts(m).1)) && NoneCloses(f, Calls(m))
  {
    hide *;
    ReasoningReadBack(f, m);
    ReasoningOfTurn(f, m);
    if NoTag(Strip(Parts(m).0), R.CLOSE_THINK) {
      if Calls(m) == [] { TextReadBack(f, m); } else { CallTurnReadBack(f, m); }
    }
  }
}
