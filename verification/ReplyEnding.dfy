/**
 * How a reply ends. The parser's header has a final call drop the newlines at
 * the ends of the parts; the text a reply ends in keeps its own. Which replies
 * keep any, and how many, is settled by where the reply ends.
 */
module ReplyEnding {
  import opened Basics
  import opened ChatTurn
  import opened ReplyReading

  /** The newlines of text that events end with. */
  function Kept(es: seq<Event>): nat {
    if es != [] && es[|es| - 1] == OneByte(Text, NEWLINE) then 1 + Kept(es[..|es| - 1]) else 0
  }

  /** The newlines a text ends with, none for one of newlines alone. */
  function NewlinesAfter(s: Bytes): nat
  {
    RStripShrinks(s);
    if RStrip(s) == [] then 0 else |s| - |RStrip(s)|
  }

  /** The text a reply ends in, with the tag of a call left open; none if it ends in reasoning or after a call. */
  function Ending(r: Rules, phase: Phase, t: Bytes): Option<Bytes>
    decreases |t|, Rank(phase)
  {
    match phase
    case Start =>
      if r.think && At(t, 0, OPEN_THINK) then Ending(r, Reason, t[|OPEN_THINK|..]) else Ending(r, InText, t)
    case Reason =>
      (match Find(t, CLOSE_THINK)
       case Some(c) => Ending(r, InText, t[c + |CLOSE_THINK|..])
       case None => None)
    case InText =>
      (match FindCall(r, t)
       case Some(c) => Ending(r, Tool, t[c + |OPEN_CALL|..])
       case None => Some(t))
    case Tool =>
      (match Find(t, CLOSE_CALL)
       case Some(c) => Ending(r, AfterCall, t[c + |CLOSE_CALL|..])
       case None => Some(OPEN_CALL + t))
    case AfterCall =>
      var rest := SkipSpace(t);
      if rest == [] then None
      else if At(rest, 0, OPEN_CALL) then Ending(r, Tool, rest[|OPEN_CALL|..])
      else Ending(r, InText, rest)
    case Finished => None
  }

  // ---- What parts leave at their ends ----

  lemma {:induction false} KeptNewlines(es: seq<Event>, n: nat)
    requires Kept(es) == 0
    ensures Kept(es + Newlines(Text, n)) == n
  {
    var all := es + Newlines(Text, n);
    if n == 0 {
      assert all == es;
    } else {
      assert all[..|all| - 1] == es + Newlines(Text, n - 1);
      KeptNewlines(es, n - 1);
    }
  }

  lemma {:induction false} KeptAfter(a: seq<Event>, b: seq<Event>)
    requires Kept(a) == 0
    ensures Kept(a + b) == Kept(b)
    decreases b
  {
    if b == [] {
      assert a + b == a;
    } else {
      assert (a + b)[..|a + b| - 1] == a + b[..|b| - 1];
      KeptAfter(a, b[..|b| - 1]);
    }
  }

  /** A part's own bytes never end in a newline: those are held back. */
  lemma {:induction false} PartHolds(h: Held, kind: Kind, s: Bytes)
    ensures var (h', e) := PartBytes(h, kind, s);
            && h' == (if RStrip(s) == [] then Held(h.nl + |s|, h.any) else Held(NewlinesAfter(s), true))
            && Kept(e) == 0
    decreases |s|
  {
    if s != [] {
      var most, b := s[..|s| - 1], s[|s| - 1];
      PartHolds(h, kind, most);
      RStripMore(most, b);
      assert s == most + [b];
      var (h1, e1) := PartBytes(h, kind, most);
      assert e1 + [] == e1;
    }
  }

  /** Text to the reply's end, from its beginning or from a tag. */
  lemma TextEndKeeps(h: Held, s: Bytes)
    requires h == FRESH || (s != [] && s[0] != NEWLINE)
    ensures Kept(TextEnd(h, s)) == NewlinesAfter(s)
  {
    PartHolds(h, Text, s);
    if h != FRESH { FirstStays(s); }
    var (h', e) := PartBytes(h, Text, s);
    KeptNewlines(e, h'.nl);
    assert e + [] == e;
  }

  lemma {:induction false} FirstStays(s: Bytes)
    requires s != [] && s[0] != NEWLINE
    ensures RStrip(s) != []
    decreases |s|
  {
    if s[|s| - 1] == NEWLINE { FirstStays(s[..|s| - 1]); }
  }

  // ---- What the reply keeps ----

  lemma {:induction false} ReadingKeeps(r: Rules, phase: Phase, h: Held, t: Bytes)
    requires phase.InText? ==> h == FRESH
    ensures Kept(Reading(r, phase, h, t)) ==
              match Ending(r, phase, t) case None => 0 case Some(s) => NewlinesAfter(s)
    decreases |t|, Rank(phase)
  {
    hide PartBytes;
    hide Find;
    hide Kept;
    hide NewlinesAfter;
    hide TextEnd;
    match phase
    case Start =>
      if r.think && At(t, 0, OPEN_THINK) {
        ReadingKeeps(r, Reason, FRESH, t[|OPEN_THINK|..]);
      } else {
        ReadingKeeps(r, InText, FRESH, t);
      }
    case Reason =>
      var c := Find(t, CLOSE_THINK);
      if c.Some? {
        FirstFits(t, CLOSE_THINK);
        var rest := t[c.value + |CLOSE_THINK|..];
        PartHolds(h, Reasoning, t[..c.value]);
        ReadingKeeps(r, InText, FRESH, rest);
        KeptAfter(PartBytes(h, Reasoning, t[..c.value]).1, Reading(r, InText, FRESH, rest));
      } else {
        PartHolds(h, Reasoning, t);
      }
    case InText =>
      var c := FindCall(r, t);
      if c.Some? {
        FirstFits(t, OPEN_CALL);
        var rest := t[c.value + |OPEN_CALL|..];
        var (h', e) := PartBytes(h, Text, t[..c.value]);
        PartHolds(h, Text, t[..c.value]);
        ReadingKeeps(r, Tool, Held(0, h'.any), rest);
        KeptAfter(e, Reading(r, Tool, Held(0, h'.any), rest));
      } else {
        TextEndKeeps(h, t);
      }
    case Tool =>
      var c := Find(t, CLOSE_CALL);
      if c.Some? {
        FirstFits(t, CLOSE_CALL);
        BlockKeeps(r, h, t[..c.value], t[c.value + |CLOSE_CALL|..]);
      } else {
        TextEndKeeps(h, OPEN_CALL + t);
      }
    case AfterCall =>
      var rest := SkipSpace(t);
      NothingKept();
      if rest != [] {
        if At(rest, 0, OPEN_CALL) {
          ReadingKeeps(r, Tool, h, rest[|OPEN_CALL|..]);
        } else {
          ReadingKeeps(r, InText, FRESH, rest);
        }
      }
    case Finished => NothingKept();
  }

  lemma NothingKept()
    ensures Kept([]) == 0
  {
  }

  /** A block between its tags, a call or not, leaves the end to what follows. */
  lemma {:induction false} BlockKeeps(r: Rules, h: Held, body: Bytes, rest: Bytes)
    ensures var (h', e) := PartBytes(h, Text, OPEN_CALL + body + CLOSE_CALL);
            var kept := match Ending(r, AfterCall, rest) case None => 0 case Some(s) => NewlinesAfter(s);
            && (forall call :: Kept([OneCall(call)] + Reading(r, AfterCall, h, rest)) == kept)
            && Kept(e + Reading(r, AfterCall, h', rest)) == kept
    decreases |rest|, 2
  {
    hide PartBytes;
    hide Reading;
    hide Ending;
    hide NewlinesAfter;
    var text := OPEN_CALL + body + CLOSE_CALL;
    var (h', e) := PartBytes(h, Text, text);
    PartHolds(h, Text, text);
    ReadingKeeps(r, AfterCall, h, rest);
    ReadingKeeps(r, AfterCall, h', rest);
    KeptAfter(e, Reading(r, AfterCall, h', rest));
    forall call ensures Kept([OneCall(call)] + Reading(r, AfterCall, h, rest)) == Kept(Reading(r, AfterCall, h, rest)) {
      KeptAfter([OneCall(call)], Reading(r, AfterCall, h, rest));
    }
  }

  predicate IsEnd(s: Bytes, t: Bytes) { |s| <= |t| && t[|t| - |s|..] == s }

  lemma EndOfEnd(s: Bytes, u: Bytes, t: Bytes)
    requires IsEnd(s, u) && IsEnd(u, t)
    ensures IsEnd(s, t)
  {
    assert t[|t| - |s|..] == u[|u| - |s|..];
  }

  lemma Drop(t: Bytes, n: nat)
    requires n <= |t|
    ensures IsEnd(t[n..], t)
  {
  }

  /** The text a reply ends in is the end of the reply. */
  lemma {:induction false} EndingIsTheEnd(r: Rules, phase: Phase, t: Bytes)
    ensures var s := Ending(r, phase, t);
            s.Some? ==> IsEnd(s.value, if phase.Tool? then OPEN_CALL + t else t)
    decreases |t|, Rank(phase), 0
  {
    hide Find;
    hide IsEnd;
    var whole := if phase.Tool? then OPEN_CALL + t else t;
    Drop(whole, 0);
    assert whole[0..] == whole;
    var s := Ending(r, phase, t);
    if s.None? { return; }
    match phase
    case Start =>
      if r.think && At(t, 0, OPEN_THINK) {
        Drop(t, |OPEN_THINK|);
        EndsLater(r, Reason, t[|OPEN_THINK|..], t);
      } else {
        EndingIsTheEnd(r, InText, t);
      }
    case Reason =>
      FirstFits(t, CLOSE_THINK);
      var n := Find(t, CLOSE_THINK).value + |CLOSE_THINK|;
      Drop(t, n);
      EndsLater(r, InText, t[n..], t);
    case InText =>
      var c := FindCall(r, t);
      if c.Some? {
        FirstFits(t, OPEN_CALL);
        TagAt(t, c.value);
        Drop(t, c.value);
        EndsLater(r, Tool, t[c.value + |OPEN_CALL|..], t);
      }
    case Tool =>
      if Find(t, CLOSE_CALL).Some? {
        FirstFits(t, CLOSE_CALL);
        var n := Find(t, CLOSE_CALL).value + |CLOSE_CALL|;
        assert t[n..] == whole[|OPEN_CALL| + n..];
        Drop(whole, |OPEN_CALL| + n);
        EndsLater(r, AfterCall, t[n..], whole);
      }
    case AfterCall =>
      var rest := SkipSpace(t);
      SkipsToTheEnd(t);
      if At(rest, 0, OPEN_CALL) {
        TagAt(rest, 0);
        EndsLater(r, Tool, rest[|OPEN_CALL|..], t);
      } else {
        EndsLater(r, InText, rest, t);
      }
  }

  lemma {:induction false} EndsLater(r: Rules, phase: Phase, t: Bytes, whole: Bytes)
    requires IsEnd(if phase.Tool? then OPEN_CALL + t else t, whole)
    ensures var s := Ending(r, phase, t); s.Some? ==> IsEnd(s.value, whole)
    decreases |t|, Rank(phase), 1
  {
    hide IsEnd;
    hide Ending;
    EndingIsTheEnd(r, phase, t);
    var s := Ending(r, phase, t);
    if s.Some? { EndOfEnd(s.value, if phase.Tool? then OPEN_CALL + t else t, whole); }
  }

  lemma TagAt(t: Bytes, c: nat)
    requires At(t, c, OPEN_CALL)
    ensures c + |OPEN_CALL| <= |t| && OPEN_CALL + t[c + |OPEN_CALL|..] == t[c..]
  {
  }

  lemma {:induction false} SkipsToTheEnd(t: Bytes)
    ensures IsEnd(SkipSpace(t), t)
  {
    if t != [] && IsSpace(t[0]) { SkipsToTheEnd(t[1..]); }
  }

  /**
   * What a final call keeps of the newlines at a reply's end: those of the
   * text it ends in. There are some exactly when the reply ends in text, or
   * in a call left open, that is not newlines alone, and its last byte is one.
   */
  lemma KeepsItsNewlines(r: Rules, t: Bytes)
    ensures var s := Ending(r, Start, t);
            && Kept(Read(r, t)) == (if s.None? then 0 else NewlinesAfter(s.value))
            && (Kept(Read(r, t)) > 0 <==>
                  s.Some? && (exists b <- s.value :: b != NEWLINE) && t != [] && t[|t| - 1] == NEWLINE)
  {
    ReadingKeeps(r, Start, FRESH, t);
    EndingIsTheEnd(r, Start, t);
    var s := Ending(r, Start, t);
    if s.Some? {
      LastByte(s.value);
      assert s.value != [] ==> s.value[|s.value| - 1] == t[|t| - 1];
    }
  }

  lemma {:induction false} LastByte(s: Bytes)
    ensures RStrip(s) != [] <==> exists b <- s :: b != NEWLINE
    ensures NewlinesAfter(s) > 0 <==> (exists b <- s :: b != NEWLINE) && s[|s| - 1] == NEWLINE
    decreases |s|
  {
    if s != [] {
      var most, b := s[..|s| - 1], s[|s| - 1];
      assert s == most + [b];
      RStripMore(most, b);
      RStripShrinks(most);
      LastByte(most);
      assert b in s;
      assert forall x <- most :: x in s;
      assert forall x <- s :: x == b || x in most;
    }
  }

  /** A text that keeps its newline, which the header would have dropped. */
  lemma ANewlineKept(r: Rules)
    ensures Read(r, [0x61, NEWLINE]) == [OneByte(Text, 0x61), OneByte(Text, NEWLINE)]
  {
    var t: Bytes := [0x61, NEWLINE];
    assert At(t, 0, OPEN_THINK) ==> |OPEN_THINK| <= |t|;
    assert forall i :: 0 <= i <= |t| ==> At(t, i, OPEN_CALL) ==> i + |OPEN_CALL| <= |t|;
    NotFound(t, OPEN_CALL);
    TextToEnd(r, FRESH, t);
    PartSays(Text, t);
    assert LStrip(t) == t;
    assert SpanEvents(Text, t) == [OneByte(Text, 0x61), OneByte(Text, NEWLINE)];
  }
}
