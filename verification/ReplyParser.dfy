/**
 * The parser that reads a reply back while it is written: fed the reply so
 * far each time it grows, it reports each part once it is sure of it. What it
 * has reported, and what the rest will be read as, always add up to the same.
 */
module ReplyParser {
  import opened Basics
  import opened ReplyReading

  lemma FlattenOne(a: seq<Part>, p: Part)
    ensures Flatten(a + [p]) == Flatten(a) + EventsOf(p)
  {
    assert (a + [p])[..|a|] == a;
  }

  /** Appending is associative, and appending nothing changes nothing. */
  lemma Join<T>(a: seq<T>, b: seq<T>, c: seq<T>)
    ensures (a + b) + c == a + (b + c) && a + [] == a
  {
  }

  // A turn's effect on what has been said and what the rest will be read as.

  lemma StartTurns(r: Rules, h: Held, said: seq<Event>, t: Bytes, final: bool)
    requires final || !(r.think && |t| < |OPEN_THINK| && t == OPEN_THINK[..|t|])
    ensures forall rest :: (final ==> rest == []) ==>
              said + Reading(r, Start, h, t + rest) ==
                if r.think && At(t, 0, OPEN_THINK) then said + Reading(r, Reason, FRESH, t[|OPEN_THINK|..] + rest)
                else said + Reading(r, InText, FRESH, t + rest)
  {
    hide Reading;
    forall rest | final ==> rest == []
      ensures said + Reading(r, Start, h, t + rest) ==
                if r.think && At(t, 0, OPEN_THINK) then said + Reading(r, Reason, FRESH, t[|OPEN_THINK|..] + rest)
                else said + Reading(r, InText, FRESH, t + rest)
    {
      StartSettled(r, h, t, rest);
    }
  }

  lemma ReasonTurns(r: Rules, h: Held, said: seq<Event>, t: Bytes, c: nat)
    requires Find(t, CLOSE_THINK) == Some(c)
    ensures forall rest :: said + Reading(r, Reason, h, t + rest)
              == (said + PartBytes(h, Reasoning, t[..c]).1) + Reading(r, InText, FRESH, t[c + |CLOSE_THINK|..] + rest)
  {
    hide Reading;
    hide PartBytes;
    forall rest ensures said + Reading(r, Reason, h, t + rest)
              == (said + PartBytes(h, Reasoning, t[..c]).1) + Reading(r, InText, FRESH, t[c + |CLOSE_THINK|..] + rest)
    {
      ReasonFound(r, h, t, rest, c);
      Join(said, PartBytes(h, Reasoning, t[..c]).1, Reading(r, InText, FRESH, t[c + |CLOSE_THINK|..] + rest));
    }
  }

  lemma ReasonWaits(r: Rules, h: Held, said: seq<Event>, t: Bytes, hold: nat)
    requires Find(t, CLOSE_THINK).None? && IsHoldback(t, CLOSE_THINK, hold)
    ensures var (h', e) := PartBytes(h, Reasoning, t[..|t| - hold]);
            forall rest :: said + Reading(r, Reason, h, t + rest) ==
                (said + e) + Reading(r, Reason, h', t[|t| - hold..] + rest)
  {
    hide Reading;
    hide PartBytes;
    var (h', e) := PartBytes(h, Reasoning, t[..|t| - hold]);
    forall rest ensures said + Reading(r, Reason, h, t + rest) ==
        (said + e) + Reading(r, Reason, h', t[|t| - hold..] + rest) {
      ReasonHeldBack(r, h, t, rest, hold);
      Join(said, e, Reading(r, Reason, h', t[|t| - hold..] + rest));
    }
  }

  lemma TextTurns(r: Rules, h: Held, said: seq<Event>, t: Bytes, c: nat)
    requires FindCall(r, t) == Some(c)
    ensures var (h', e) := PartBytes(h, Text, t[..c]);
            forall rest :: said + Reading(r, InText, h, t + rest)
              == (said + e) + Reading(r, Tool, Held(0, h'.any), t[c + |OPEN_CALL|..] + rest)
  {
    hide Reading;
    hide PartBytes;
    var (h', e) := PartBytes(h, Text, t[..c]);
    forall rest ensures said + Reading(r, InText, h, t + rest)
              == (said + e) + Reading(r, Tool, Held(0, h'.any), t[c + |OPEN_CALL|..] + rest)
    {
      TextFound(r, h, t, rest, c);
      Join(said, e, Reading(r, Tool, Held(0, h'.any), t[c + |OPEN_CALL|..] + rest));
    }
  }

  lemma TextWaits(r: Rules, h: Held, said: seq<Event>, t: Bytes, hold: nat)
    requires hold <= |t| && FindCall(r, t).None?
    requires if r.tools then IsHoldback(t, OPEN_CALL, hold) else hold == 0
    ensures var (h', e) := PartBytes(h, Text, t[..|t| - hold]);
            forall rest :: said + Reading(r, InText, h, t + rest) ==
                (said + e) + Reading(r, InText, h', t[|t| - hold..] + rest)
  {
    hide Reading;
    hide PartBytes;
    var (h', e) := PartBytes(h, Text, t[..|t| - hold]);
    forall rest ensures said + Reading(r, InText, h, t + rest) ==
        (said + e) + Reading(r, InText, h', t[|t| - hold..] + rest) {
      TextHeldBack(r, h, t, rest, hold);
      Join(said, e, Reading(r, InText, h', t[|t| - hold..] + rest));
    }
  }

  /** What a block's body is reported as, and what is then held back. */
  function BlockSays(r: Rules, h: Held, body: Bytes): (Held, seq<Event>) {
    match r.callOf(body)
    case Some(call) => (h, [OneCall(call)])
    case None => PartBytes(h, Text, OPEN_CALL + body + CLOSE_CALL)
  }

  lemma ToolTurns(r: Rules, h: Held, said: seq<Event>, t: Bytes, c: nat)
    requires Find(t, CLOSE_CALL) == Some(c)
    ensures var (h', e) := BlockSays(r, h, t[..c]);
            forall rest :: said + Reading(r, Tool, h, t + rest)
              == (said + e) + Reading(r, AfterCall, h', t[c + |CLOSE_CALL|..] + rest)
  {
    hide Reading;
    hide PartBytes;
    var (h', e) := BlockSays(r, h, t[..c]);
    forall rest ensures said + Reading(r, Tool, h, t + rest)
              == (said + e) + Reading(r, AfterCall, h', t[c + |CLOSE_CALL|..] + rest)
    {
      ToolFound(r, h, t, rest, c);
      Join(said, e, Reading(r, AfterCall, h', t[c + |CLOSE_CALL|..] + rest));
    }
  }

  lemma AfterTurns(r: Rules, h: Held, said: seq<Event>, space: Bytes, t: Bytes, final: bool)
    requires (forall q :: 0 <= q < |space| ==> IsSpace(space[q])) && t != [] && !IsSpace(t[0])
    requires final || !(|t| < |OPEN_CALL| && t == OPEN_CALL[..|t|])
    ensures forall rest :: (final ==> rest == []) ==>
              said + Reading(r, AfterCall, h, (space + t) + rest) ==
                if At(t, 0, OPEN_CALL) then said + Reading(r, Tool, h, t[|OPEN_CALL|..] + rest)
                else said + Reading(r, InText, FRESH, t + rest)
  {
    hide Reading;
    forall rest | final ==> rest == []
      ensures said + Reading(r, AfterCall, h, (space + t) + rest) ==
                if At(t, 0, OPEN_CALL) then said + Reading(r, Tool, h, t[|OPEN_CALL|..] + rest)
                else said + Reading(r, InText, FRESH, t + rest)
    {
      AfterSettled(r, h, space, t, rest);
    }
  }

  lemma AfterWaits(r: Rules, h: Held, said: seq<Event>, space: Bytes, t: Bytes)
    requires forall q :: 0 <= q < |space| ==> IsSpace(space[q])
    ensures forall rest ::
          said + Reading(r, AfterCall, h, (space + t) + rest) ==
          said + Reading(r, AfterCall, h, t + rest)
  {
    hide Reading;
    forall rest ensures Reading(r, AfterCall, h, (space + t) + rest) == Reading(r, AfterCall, h, t + rest) {
      Join(space, t, rest);
      AfterSpace(r, h, space, t + rest);
    }
  }

  // What a parser waits for.

  /** The beginning of a tag, not all of it. */
  predicate Begins(t: Bytes, tag: Bytes) { |t| < |tag| && t == tag[..|t|] }

  /** The text t is all that waits for more of the reply: what could begin a tag, or a block not closed. */
  predicate Waits(r: Rules, phase: Phase, t: Bytes) {
    match phase
    case Start => r.think && Begins(t, OPEN_THINK)
    case Reason => Begins(t, CLOSE_THINK)
    case InText => if r.tools then Begins(t, OPEN_CALL) else t == []
    case Tool => Find(t, CLOSE_CALL).None?
    case AfterCall => Begins(t, OPEN_CALL)
    case Finished => true
  }

  /** A block begun with t may still become a call. */
  ghost predicate MayBeCall(r: Rules, t: Bytes) {
    exists more :: BecomesCall(r, t, more)
  }

  ghost predicate BecomesCall(r: Rules, t: Bytes, more: Bytes) {
    r.callOf(t + more).Some? && Find(t + more + CLOSE_CALL, CLOSE_CALL) == Some(|t + more|)
  }

  /** Whether what waits is undecided: a block may still be a call, and without calls no newlines are held back. */
  ghost predicate Undecided(r: Rules, phase: Phase, h: Held, t: Bytes) {
    match phase
    case Start => true
    case Reason => true
    case InText => if r.tools then MayBeCall(r, []) else Released(Text, h) == []
    case Tool => MayBeCall(r, t)
    case AfterCall => MayBeCall(r, [])
    case Finished => false
  }

  /** Readings that have no first event in common. */
  predicate Differ(a: seq<Event>, b: seq<Event>) { a == [] || b == [] || a[0] != b[0] }

  lemma {:induction false} OnlyBytes(h: Held, kind: Kind, s: Bytes)
    ensures forall e <- PartBytes(h, kind, s).1 :: e.OneByte?
    decreases |s|
  {
    if s != [] { OnlyBytes(h, kind, s[..|s| - 1]); }
  }

  lemma EndsInBytes(h: Held, s: Bytes)
    ensures forall e <- TextEnd(h, s) :: e.OneByte?
  {
    OnlyBytes(h, Text, s);
  }

  lemma TooShort(t: Bytes, tag: Bytes)
    requires |t| < |tag|
    ensures Find(t, tag).None? && !At(t, 0, tag)
  {
    NotFound(t, tag);
  }

  lemma TagBegun(t: Bytes, tag: Bytes, more: Bytes)
    requires Begins(t, tag)
    ensures t + (tag[|t|..] + more) == tag + more && At(tag + more, 0, tag) && (tag + more)[|tag|..] == more
    ensures Find(tag + more, tag) == Some(0)
  {
    assert tag == tag[..|t|] + tag[|t|..];
    assert (tag + more)[..|tag|] == tag;
    FoundFirst(tag + more, tag, 0);
  }

  /** A reply that only reasons, and about nothing, says nothing. */
  lemma ReasonsNothing(r: Rules, h: Held, t: Bytes) returns (a: Bytes)
    requires r.think && Begins(t, OPEN_THINK)
    ensures Reading(r, Start, h, t + a) == []
  {
    a := OPEN_THINK[|t|..];
    TagBegun(t, OPEN_THINK, []);
    assert a + [] == a && OPEN_THINK + [] == OPEN_THINK;
    TooShort([], CLOSE_THINK);
  }

  lemma ThinksNothing(r: Rules, h: Held, t: Bytes) returns (a: Bytes)
    requires Begins(t, CLOSE_THINK)
    ensures Reading(r, Reason, h, t + a) == []
  {
    a := CLOSE_THINK[|t|..];
    TagBegun(t, CLOSE_THINK, []);
    assert a + [] == a && CLOSE_THINK + [] == CLOSE_THINK && CLOSE_THINK[..0] == [];
    TooShort([], OPEN_CALL);
    assert Reading(r, InText, FRESH, []) == [];
  }

  /** A block that may become a call does, and the call is read first. */
  lemma BlockFirst(r: Rules, h: Held, t: Bytes) returns (a: Bytes)
    requires MayBeCall(r, t) && Find(t, CLOSE_CALL).None?
    ensures var es := Reading(r, Tool, h, t + a); es != [] && es[0].OneCall?
    ensures forall e <- Reading(r, Tool, h, t) :: e.OneByte?
  {
    hide Find;
    hide PartBytes;
    hide TextEnd;
    var more :| BecomesCall(r, t, more);
    a := more + CLOSE_CALL;
    assert t + a == t + more + CLOSE_CALL && (t + a)[..|t + more|] == t + more;
    EndsInBytes(h, OPEN_CALL + t);
  }

  /** What could begin an opening tag does, and the call is read first. */
  lemma CallsFirst(r: Rules, phase: Phase, h: Held, t: Bytes) returns (a: Bytes)
    requires Begins(t, OPEN_CALL) && MayBeCall(r, []) && (phase.AfterCall? || (phase.InText? && r.tools))
    ensures var es := Reading(r, phase, h, t + a); es != [] && es[0].OneCall?
  {
    hide Find;
    hide PartBytes;
    TooShort([], CLOSE_CALL);
    var now := if phase.InText? then Held(0, PartBytes(h, Text, []).0.any) else h;
    var b := BlockFirst(r, now, []);
    a := OPEN_CALL[|t|..] + b;
    TagBegun(t, OPEN_CALL, b);
    assert [] + b == b;
    OpensBlock(r, phase, h, b);
  }

  lemma OpensBlock(r: Rules, phase: Phase, h: Held, b: Bytes)
    requires phase.AfterCall? || (phase.InText? && r.tools)
    requires At(OPEN_CALL + b, 0, OPEN_CALL) && (OPEN_CALL + b)[|OPEN_CALL|..] == b
    requires Find(OPEN_CALL + b, OPEN_CALL) == Some(0)
    ensures var now := if phase.InText? then Held(0, PartBytes(h, Text, []).0.any) else h;
            Reading(r, phase, h, OPEN_CALL + b) == Reading(r, Tool, now, b)
  {
    hide Find;
    assert (OPEN_CALL + b)[..0] == [];
  }

  /** Text that ends where it waits is read to its end byte by byte. */
  lemma TextFirst(r: Rules, h: Held, t: Bytes)
    requires Waits(r, InText, t)
    ensures forall e <- Reading(r, InText, h, t) :: e.OneByte?
    ensures !r.tools ==> Reading(r, InText, h, t) == Released(Text, h)
  {
    if r.tools { TooShort(t, OPEN_CALL); }
    EndsInBytes(h, t);
    hide TextEnd;
    if !r.tools { assert TextEnd(h, []) == Released(Text, h) by { NothingLeft(h); } }
  }

  lemma NothingLeft(h: Held)
    ensures TextEnd(h, []) == Released(Text, h)
  {
  }

  lemma AfterFirst(r: Rules, h: Held, t: Bytes)
    requires Begins(t, OPEN_CALL)
    ensures forall e <- Reading(r, AfterCall, h, t) :: e.OneByte?
  {
    TooShort(t, OPEN_CALL);
    EndsInBytes(FRESH, t);
    hide TextEnd;
    hide Find;
    if t != [] { assert t[0] == OPEN_CALL[0] && SkipSpace(t) == t; }
  }

  lemma FirstOfBytes(es: seq<Event>)
    requires forall e <- es :: e.OneByte?
    ensures es == [] || es[0].OneByte?
  {
  }

  /** Nothing more is sure of what waits: two ways the reply may go on are read differently from the first event. */
  lemma NothingMoreSure(r: Rules, phase: Phase, h: Held, t: Bytes) returns (a: Bytes, b: Bytes)
    requires Waits(r, phase, t) && Undecided(r, phase, h, t)
    ensures Differ(Reading(r, phase, h, t + a), Reading(r, phase, h, t + b))
  {
    hide Find;
    hide PartBytes;
    hide Reading;
    a, b := [], [];
    assert t + [] == t;
    match phase
    case Start => a := ReasonsNothing(r, h, t);
    case Reason => a := ThinksNothing(r, h, t);
    case InText =>
      if r.tools { a := CallsFirst(r, phase, h, t); }
      TextFirst(r, h, t);
      FirstOfBytes(Reading(r, phase, h, t));
    case Tool =>
      a := BlockFirst(r, h, t);
      FirstOfBytes(Reading(r, phase, h, t));
    case AfterCall =>
      a := CallsFirst(r, phase, h, t);
      AfterFirst(r, h, t);
      FirstOfBytes(Reading(r, phase, h, t));
  }

  class Parser {
    const rules: Rules
    var phase: Phase
    var at: nat           // bytes of the reply read
    var nl: nat           // newlines read and held back
    var any: bool         // the part has begun, so later newlines are not leading ones
    var calls: nat        // tool calls reported
    var out: seq<Part>    // what has been reported, in order

    constructor (rules: Rules)
      ensures this.rules == rules && phase == Start && at == 0 && Now() == FRESH && out == []
    {
      this.rules := rules;
      phase := Start;
      at, nl, calls := 0, 0, 0;
      any := false;
      out := [];
    }

    function Now(): Held
      reads this
    {
      Held(nl, any)
    }

    /** What has been reported, and what the rest of the reply text + more will be read as. */
    ghost function Said(text: Bytes, more: Bytes): seq<Event>
      requires at <= |text|
      reads this
    {
      Flatten(out) + Reading(rules, phase, Now(), text[at..] + more)
    }

    method Report(p: MaybePart)
      modifies `out
      ensures Flatten(out) == old(Flatten(out)) + EventsOf(p)
      ensures old(out) <= out
    {
      if p.Span? && p.data == [] {
        assert EventsOf(p) == [];
        return;
      }
      FlattenOne(out, p);
      out := out + [p];
    }

    /** Newlines, sixteen at a time. */
    method ReportNewlines(kind: Kind, n: nat)
      modifies `out
      ensures Flatten(out) == old(Flatten(out)) + Newlines(kind, n)
      ensures old(out) <= out
    {
      var left: nat := n;
      while left > 0
        invariant left <= n && old(out) <= out
        invariant Flatten(out) == old(Flatten(out)) + Newlines(kind, n - left)
      {
        var k := Min(left, 16);
        Report(Span(kind, seq(k, _ => NEWLINE)));
        assert old(Flatten(out)) + Newlines(kind, n - left) + Newlines(kind, k) ==
            old(Flatten(out)) + Newlines(kind, n - left + k);
        assert EventsOf(Span(kind, seq(k, _ => NEWLINE))) == Newlines(kind, k);
        left := left - k;
      }
    }

    method ReportHeld(kind: Kind)
      modifies `out, `nl
      ensures Flatten(out) == old(Flatten(out)) + Released(kind, old(Now())) && nl == 0
      ensures old(out) <= out
    {
      if nl > 0 && any { ReportNewlines(kind, nl); }
      nl := 0;
    }

    /** A run of bytes without newlines. */
    method ReportRun(kind: Kind, run: Bytes)
      requires run != [] && forall q :: 0 <= q < |run| ==> run[q] != NEWLINE
      modifies `nl, `any, `out
      ensures old(out) <= out
      ensures (Now(), Flatten(out)) ==
          (PartBytes(old(Now()), kind, run).0, old(Flatten(out)) + PartBytes(old(Now()), kind, run).1)
    {
      RunEvents(Now(), kind, run);
      Join(Flatten(out), Released(kind, Now()), SpanEvents(kind, run));
      ReportHeld(kind);
      Report(Span(kind, run));
      any := true;
    }

    /** Bytes of a part, a run without newlines at a time. */
    method ReportBytes(kind: Kind, s: Bytes)
      modifies `nl, `any, `out
      ensures old(out) <= out
      ensures (Now(), Flatten(out)) ==
          (PartBytes(old(Now()), kind, s).0, old(Flatten(out)) + PartBytes(old(Now()), kind, s).1)
    {
      hide PartBytes;
      var i := 0;
      ghost var h0, said := Now(), Flatten(out);
      NoBytes(h0, said, kind);
      while i < |s|
        invariant i <= |s| && old(out) <= out
        invariant Now() == PartBytes(h0, kind, s[..i]).0 && Flatten(out) == said + PartBytes(h0, kind, s[..i]).1
      {
        if s[i] == NEWLINE {
          NextNewline(h0, kind, s, i);
          nl := nl + 1;
          i := i + 1;
        } else {
          var j := i;
          while j < |s| && s[j] != NEWLINE
            invariant i <= j <= |s| && forall q :: i <= q < j ==> s[q] != NEWLINE
          {
            j := j + 1;
          }
          NextRun(h0, said, kind, s, i, j);
          ReportRun(kind, s[i..j]);
          i := j;
        }
      }
      assert s[..i] == s;
    }

    static lemma NoBytes(h: Held, said: seq<Event>, kind: Kind)
      ensures PartBytes(h, kind, []).0 == h && said + PartBytes(h, kind, []).1 == said
    {
    }

    static lemma NextNewline(h: Held, kind: Kind, s: Bytes, i: nat)
      requires i < |s| && s[i] == NEWLINE
      ensures var (h1, e1) := PartBytes(h, kind, s[..i]);
              PartBytes(h, kind, s[..i + 1]) == (Held(h1.nl + 1, h1.any), e1)
    {
      assert s[..i + 1][..i] == s[..i];
      Join(PartBytes(h, kind, s[..i]).1, [], []);
    }

    static lemma NextRun(h: Held, said: seq<Event>, kind: Kind, s: Bytes, i: nat, j: nat)
      requires i <= j <= |s|
      ensures var (h1, e1) := PartBytes(h, kind, s[..i]);
              var (h2, e2) := PartBytes(h1, kind, s[i..j]);
              PartBytes(h, kind, s[..j]).0 == h2 && said + PartBytes(h, kind, s[..j]).1 == (said + e1) + e2
    {
      hide PartBytes;
      PartBytesConcat(h, kind, s[..i], s[i..j]);
      assert s[..i] + s[i..j] == s[..j];
    }

    static lemma {:induction false} RunEvents(h: Held, kind: Kind, run: Bytes)
      requires run != [] && forall q :: 0 <= q < |run| ==> run[q] != NEWLINE
      ensures PartBytes(h, kind, run) == (Held(0, true), Released(kind, h) + SpanEvents(kind, run))
      decreases |run|
    {
      var n := |run| - 1;
      var most := run[..n];
      assert SpanEvents(kind, run) == SpanEvents(kind, most) + [OneByte(kind, run[n])];
      Join(Released(kind, h), SpanEvents(kind, most), [OneByte(kind, run[n])]);
      if most != [] {
        RunEvents(h, kind, most);
        assert Released(kind, Held(0, true)) + [OneByte(kind, run[n])] == [OneByte(kind, run[n])];
      } else {
        assert PartBytes(h, kind, most) == (h, []);
        Join(Released(kind, h), [], []);
        assert [] + (Released(kind, h) + [OneByte(kind, run[n])]) == Released(kind, h) + SpanEvents(kind, run);
      }
    }

    method BeginPart()
      modifies `nl, `any
      ensures Now() == FRESH
    {
      nl := 0;
      any := false;
    }

    method FindTag(text: Bytes, tag: Bytes) returns (r: Option<nat>)
      requires at <= |text|
      ensures r == Find(text[at..], tag)
    {
      var i := at;
      ghost var t := text[at..];
      while i + |tag| <= |text|
        invariant at <= i && forall q :: 0 <= q < i - at ==> !At(t, q, tag)
      {
        assert t[i - at..i - at + |tag|] == text[i..i + |tag|];
        if text[i..i + |tag|] == tag {
          FoundFirst(t, tag, i - at);
          return Some(i - at);
        }
        i := i + 1;
      }
      NotFound(t, tag);
      r := None;
    }

    method TagHoldback(text: Bytes, tag: Bytes) returns (k: nat)
      requires at <= |text| && tag != []
      ensures IsHoldback(text[at..], tag, k)
    {
      ghost var t := text[at..];
      k := Min(|tag| - 1, |text| - at);
      while k > 0
        invariant k < |tag| && k <= |t| && forall j :: k < j < |tag| ==> !Grows(t, j, tag)
      {
        assert t[|t| - k..] == text[|text| - k..];
        if text[|text| - k..] == tag[..k] { return; }
        k := k - 1;
      }
      assert t[|t|..] == tag[..0];
    }

    /**
     * What has been reported is all that is sure: whatever events begin the
     * reading of every reply the text may become begin what has been reported.
     */
    lemma AllSureIsReported(text: Bytes, es: seq<Event>)
      requires at <= |text| && Waits(rules, phase, text[at..]) && Undecided(rules, phase, Now(), text[at..])
      requires forall rest :: Said(text, rest) == Read(rules, text + rest)
      requires forall rest :: es <= Read(rules, text + rest)
      ensures es <= Flatten(out)
    {
      hide Reading;
      hide Read;
      hide Flatten;
      hide Waits;
      hide Undecided;
      var a, b := NothingMoreSure(rules, phase, Now(), text[at..]);
      var said := Flatten(out);
      var x, y := Reading(rules, phase, Now(), text[at..] + a), Reading(rules, phase, Now(), text[at..] + b);
      assert es <= Read(rules, text + a) == Said(text, a) == said + x;
      assert es <= Read(rules, text + b) == Said(text, b) == said + y;
      SharedIsFront(es, said, x, y);
    }

    static lemma SharedIsFront(es: seq<Event>, said: seq<Event>, x: seq<Event>, y: seq<Event>)
      requires es <= said + x && es <= said + y && Differ(x, y)
      ensures es <= said
    {
      if |es| > |said| {
        FirstPast(es, said, x);
        FirstPast(es, said, y);
        assert false;
      }
    }

    static lemma FirstPast(es: seq<Event>, said: seq<Event>, x: seq<Event>)
      requires es <= said + x && |es| > |said|
      ensures x != [] && x[0] == es[|said|]
    {
    }

    /** What one turn of the parser's loop keeps. */
    twostate predicate Turned(text: Bytes, final: bool, more: bool)
      reads this
    {
      && old(at) <= at <= |text| && old(out) <= out
      && (forall rest :: (final ==> rest == []) ==> Said(text, rest) == old(Said(text, rest)))
      && (more ==> at > old(at) || (at == old(at) && Rank(phase) < Rank(old(phase))))
      && (!more && final ==> phase == Finished)
      && (!more && !final ==> Waits(rules, phase, text[at..]))
    }

    lemma FinishedSaysNothing(text: Bytes)
      requires at <= |text| && phase == Finished
      ensures forall rest :: Said(text, rest) == Flatten(out)
    {
    }

    /** A tag is where the cursor is when the text from there begins with it. */
    static lemma AtHere(text: Bytes, i: nat, tag: Bytes)
      requires i <= |text|
      ensures At(text[i..], 0, tag) <==> |text| - i >= |tag| && text[i..i + |tag|] == tag
      ensures |text[i..]| == |text| - i
    {
      if |text| - i >= |tag| { assert text[i..][..|tag|] == text[i..i + |tag|]; }
    }

    method StartTurn(text: Bytes, final: bool) returns (more: bool)
      requires at <= |text| && phase == Start
      modifies this
      ensures Turned(text, final, more)
    {
      hide Reading;
      ghost var t := text[at..];
      var left, k := |text| - at, |OPEN_THINK|;
      if rules.think && left < k && !final && text[at..] == OPEN_THINK[..left] { return false; }
      StartTurns(rules, Now(), Flatten(out), t, final);
      BeginPart();
      if rules.think && left >= k && text[at..at + k] == OPEN_THINK {
        at := at + k;
        phase := Reason;
        assert text[at..] == t[k..];
      } else {
        phase := InText;
      }
      more := true;
    }

    method ReasonTurn(text: Bytes, final: bool) returns (more: bool)
      requires at <= |text| && phase == Reason
      modifies this
      ensures Turned(text, final, more)
    {
      hide Reading;
      hide PartBytes;
      hide Find;
      ghost var t, h, said := text[at..], Now(), Flatten(out);
      var c := FindTag(text, CLOSE_THINK);
      if c.Some? {
        ReasonTurns(rules, h, said, t, c.value);
        assert text[at..at + c.value] == t[..c.value];
        ReportBytes(Reasoning, text[at..at + c.value]);
        at := at + c.value + |CLOSE_THINK|;
        assert text[at..] == t[c.value + |CLOSE_THINK|..];
        BeginPart();
        phase := InText;
        return true;
      }
      var hold := 0;
      if !final { hold := TagHoldback(text, CLOSE_THINK); }
      var end := |text| - hold;
      assert text[at..end] == t[..|t| - hold];
      ReportBytes(Reasoning, text[at..end]);
      at := end;
      if final {
        phase := Finished;
        assert t[..|t|] == t && t + [] == t;
        ReasonToEnd(rules, h, t);
        FinishedSaysNothing(text);
      } else {
        assert text[at..] == t[|t| - hold..];
        ReasonWaits(rules, h, said, t, hold);
      }
      more := false;
    }

    method TextTurn(text: Bytes, final: bool) returns (more: bool)
      requires at <= |text| && phase == InText
      modifies this
      ensures Turned(text, final, more)
    {
      hide Reading;
      hide PartBytes;
      hide Find;
      var c := None;
      if rules.tools { c := FindTag(text, OPEN_CALL); }
      if c.Some? {
        ghost var t := text[at..];
        TextTurns(rules, Now(), Flatten(out), t, c.value);
        assert text[at..at + c.value] == t[..c.value];
        ReportBytes(Text, text[at..at + c.value]);
        nl := 0;
        at := at + c.value + |OPEN_CALL|;
        assert text[at..] == t[c.value + |OPEN_CALL|..];
        phase := Tool;
        return true;
      }
      var hold := 0;
      if !final && rules.tools { hold := TagHoldback(text, OPEN_CALL); }
      if final { TextEnds(text); } else { TextHolds(text, hold); }
      more := false;
    }

    /** Text to the reply's end. */
    method TextEnds(text: Bytes)
      requires at <= |text| && phase == InText && FindCall(rules, text[at..]).None?
      modifies this
      ensures at == |text| && old(out) <= out && phase == Finished
      ensures forall rest :: Said(text, rest) == old(Said(text, []))
    {
      hide Reading;
      hide PartBytes;
      hide Find;
      ghost var t, h, said := text[at..], Now(), Flatten(out);
      ghost var (h', e) := PartBytes(h, Text, t);
      ReportBytes(Text, text[at..]);
      at := |text|;
      assert t + [] == t;
      ReportHeld(Text);
      phase := Finished;
      TextToEnd(rules, h, t);
      Join(said, e, Released(Text, h'));
      FinishedSaysNothing(text);
    }

    /** Text up to what could begin a tag. */
    method TextHolds(text: Bytes, hold: nat)
      requires at <= |text| && phase == InText && FindCall(rules, text[at..]).None?
      requires if rules.tools then IsHoldback(text[at..], OPEN_CALL, hold) else hold == 0
      modifies this
      ensures old(at) <= at <= |text| && old(out) <= out && phase == InText && Waits(rules, InText, text[at..])
      ensures forall rest :: Said(text, rest) == old(Said(text, rest))
    {
      hide Reading;
      hide PartBytes;
      hide Find;
      ghost var t, h, said := text[at..], Now(), Flatten(out);
      if rules.tools { HoldBegins(t, OPEN_CALL, hold); }
      hide Begins;
      TextWaits(rules, h, said, t, hold);
      hide IsHoldback;
      var end := |text| - hold;
      assert text[at..end] == t[..|t| - hold];
      ReportBytes(Text, text[at..end]);
      at := end;
      assert text[at..] == t[|t| - hold..];
    }

    static lemma HoldBegins(t: Bytes, tag: Bytes, hold: nat)
      requires IsHoldback(t, tag, hold)
      ensures hold <= |t| && Begins(t[|t| - hold..], tag)
    {
    }

    /** A block never closed: what was written is text. */
    method Unclosed(text: Bytes)
      requires at <= |text| && phase == Tool && Find(text[at..], CLOSE_CALL).None?
      modifies this
      ensures at == |text| && old(out) <= out && phase == Finished
      ensures forall rest :: Said(text, rest) == old(Said(text, []))
    {
      hide Reading;
      hide PartBytes;
      hide Find;
      ghost var t, h, said := text[at..], Now(), Flatten(out);
      ghost var (h1, e1) := PartBytes(h, Text, OPEN_CALL);
      ghost var (h2, e2) := PartBytes(h1, Text, t);
      PartBytesConcat(h, Text, OPEN_CALL, t);
      ReportBytes(Text, OPEN_CALL);
      ReportBytes(Text, text[at..]);
      ReportHeld(Text);
      at := |text|;
      phase := Finished;
      assert t + [] == t;
      ToolToEnd(rules, h, t);
      Join(said, e1, e2);
      Join(said, e1 + e2, Released(Text, h2));
      FinishedSaysNothing(text);
    }

    /** A block's body: a call if it is one, else text with its tags. */
    method ReportBlock(body: Bytes)
      modifies `nl, `any, `out, `calls
      ensures old(out) <= out
      ensures (Now(), Flatten(out)) ==
          (BlockSays(rules, old(Now()), body).0, old(Flatten(out)) + BlockSays(rules, old(Now()), body).1)
    {
      hide PartBytes;
      var call := rules.callOf(body);
      if call.Some? {
        Report(Call(call.value));
        calls := calls + 1;
        return;
      }
      ghost var h, said := Now(), Flatten(out);
      ghost var (h1, e1) := PartBytes(h, Text, OPEN_CALL);
      ghost var (h2, e2) := PartBytes(h1, Text, body);
      ghost var (h3, e3) := PartBytes(h2, Text, CLOSE_CALL);
      PartBytesConcat(h, Text, OPEN_CALL, body);
      PartBytesConcat(h, Text, OPEN_CALL + body, CLOSE_CALL);
      Join(said, e1, e2);
      Join(said, e1 + e2, e3);
      ReportBytes(Text, OPEN_CALL);
      ReportBytes(Text, body);
      ReportBytes(Text, CLOSE_CALL);
    }

    method ToolTurn(text: Bytes, final: bool) returns (more: bool)
      requires at <= |text| && phase == Tool
      modifies this
      ensures Turned(text, final, more)
    {
      hide Reading;
      hide PartBytes;
      hide Find;
      var c := FindTag(text, CLOSE_CALL);
      if c.None? {
        if final { Unclosed(text); }
        return false;
      }
      ghost var t := text[at..];
      ToolTurns(rules, Now(), Flatten(out), t, c.value);
      assert text[at..at + c.value] == t[..c.value];
      ReportBlock(text[at..at + c.value]);
      at := at + c.value + |CLOSE_CALL|;
      assert text[at..] == t[c.value + |CLOSE_CALL|..];
      phase := AfterCall;
      more := true;
    }

    method AfterTurn(text: Bytes, final: bool) returns (more: bool)
      requires at <= |text| && phase == AfterCall
      modifies this
      ensures Turned(text, final, more)
    {
      hide Reading;
      hide At;
      hide Find;
      hide Flatten;
      hide SkipSpace;
      var i := at;
      while i < |text| && IsSpace(text[i])
        invariant at <= i <= |text| && forall q :: at <= q < i ==> IsSpace(text[q])
      {
        i := i + 1;
      }
      ghost var space, next := text[at..i], text[i..];
      assert text[at..] == space + next;
      AfterWaits(rules, Now(), Flatten(out), space, next);
      var k, left := |OPEN_CALL|, |text| - i;
      if left == 0 {
        at := i;
        if final {
          phase := Finished;
          AfterToEnd(rules, Now());
          assert next + [] == [];
          FinishedSaysNothing(text);
        }
        return false;
      }
      if left < k && !final && text[i..] == OPEN_CALL[..left] {
        at := i;
        return false;
      }
      AtHere(text, i, OPEN_CALL);
      AfterTurns(rules, Now(), Flatten(out), space, next, final);
      if left >= k && text[i..i + k] == OPEN_CALL {
        at := i + k;
        phase := Tool;
        assert text[at..] == next[k..];
      } else {
        at := i;
        BeginPart();
        phase := InText;
      }
      more := true;
    }

    /**
     * Read the reply so far from where the last call left off. Whatever the
     * reply becomes, what has been reported and what the rest will be read as
     * add up to what they did before; and before the end all has been
     * reported but what has to wait.
     */
    method Feed(text: Bytes, final: bool)
      requires at <= |text|
      modifies this
      ensures old(at) <= at <= |text| && old(out) <= out
      ensures forall rest :: (final ==> rest == []) ==> Said(text, rest) == old(Said(text, rest))
      ensures if final then phase == Finished else Waits(rules, phase, text[at..])
    {
      var more := true;
      while more
        invariant old(at) <= at <= |text| && old(out) <= out
        invariant forall rest :: (final ==> rest == []) ==> Said(text, rest) == old(Said(text, rest))
        invariant !more ==> if final then phase == Finished else Waits(rules, phase, text[at..])
        decreases more, |text| - at, Rank(phase)
      {
        match phase
        case Start => more := StartTurn(text, final);
        case Reason => more := ReasonTurn(text, final);
        case InText => more := TextTurn(text, final);
        case Tool => more := ToolTurn(text, final);
        case AfterCall => more := AfterTurn(text, final);
        case Finished => more := false;
      }
    }
  }
}
