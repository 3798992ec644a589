/**
 * A reply sent on while it is generated: tokens are appended, cut at a stop
 * sequence, held back where a stop sequence or a character may be unfinished,
 * read back, and sent as deltas. What a client builds from the deltas is what
 * the reply read whole says, whatever the tokens and stop sequences.
 */
module ReplyStream {
  import opened Basics
  import opened ReplyReading
  import opened ReplyParser

  // ---- Parts, kept and sent ----

  /** Events put back together: bytes of one kind in a row are one part. */
  function Group(events: seq<Event>): seq<Part> {
    if events == [] then []
    else
      var g := Group(events[..|events| - 1]);
      match events[|events| - 1]
      case OneCall(c) => g + [Call(c)]
      case OneByte(kind, b) => AppendTo(g, kind, [b])
  }

  predicate Joins(g: seq<Part>, kind: Kind) { g != [] && g[|g| - 1].Span? && g[|g| - 1].kind == kind }

  function AppendTo(g: seq<Part>, kind: Kind, data: Bytes): seq<Part>
    requires data != []
  {
    if Joins(g, kind) then g[|g| - 1 := Span(kind, g[|g| - 1].data + data)] else g + [Span(kind, data)]
  }

  lemma AppendTwice(g: seq<Part>, kind: Kind, a: Bytes, b: Bytes)
    requires a != [] && b != []
    ensures AppendTo(AppendTo(g, kind, a), kind, b) == AppendTo(g, kind, a + b)
  {
    if Joins(g, kind) { assert (g[|g| - 1].data + a) + b == g[|g| - 1].data + (a + b); }
  }

  lemma {:induction false} GroupSpan(events: seq<Event>, kind: Kind, data: Bytes)
    requires data != []
    ensures Group(events + SpanEvents(kind, data)) == AppendTo(Group(events), kind, data)
    decreases |data|
  {
    hide AppendTo;
    var n := |data| - 1;
    var most := events + SpanEvents(kind, data[..n]);
    var all := events + SpanEvents(kind, data);
    assert all[..|all| - 1] == most && all[|all| - 1] == OneByte(kind, data[n]);
    assert data == data[..n] + [data[n]];
    if n == 0 {
      assert most == events && data == [data[n]];
    } else {
      GroupSpan(events, kind, data[..n]);
      AppendTwice(Group(events), kind, data[..n], [data[n]]);
    }
  }

  /** What goes out: a part opens, grows, closes. */
  datatype Head = SpanHead(kind: Kind) | CallHead(name: Bytes)

  datatype Sent = Opened(i: nat, head: Head) | Delta(i: nat, data: Bytes) | Closed(i: nat)

  datatype ClientPart = ClientPart(head: Head, data: Bytes, open: bool)

  /** What a client has after one more event, or nothing if the event makes no sense. */
  function Receive(c: Option<seq<ClientPart>>, e: Sent): Option<seq<ClientPart>> {
    if c.None? then None
    else
      var parts := c.value;
      match e
      case Opened(i, head) =>
        if i == |parts| && (i > 0 ==> !parts[i - 1].open) then Some(parts + [ClientPart(head, [], true)]) else None
      case Delta(i, data) =>
        if i + 1 == |parts| && parts[i].open then Some(parts[i := parts[i].(data := parts[i].data + data)]) else None
      case Closed(i) =>
        if i + 1 == |parts| && parts[i].open then Some(parts[i := parts[i].(open := false)]) else None
  }

  /** What a client builds from everything sent. */
  function Rebuild(sent: seq<Sent>): Option<seq<ClientPart>> {
    if sent == [] then Some([]) else Receive(Rebuild(sent[..|sent| - 1]), sent[|sent| - 1])
  }

  lemma RebuildOne(sent: seq<Sent>, e: Sent)
    ensures Rebuild(sent + [e]) == Receive(Rebuild(sent), e)
  {
    assert (sent + [e])[..|sent|] == sent;
  }

  lemma ReceiveWhole(c: seq<ClientPart>, head: Head, data: Bytes)
    requires c != [] ==> !c[|c| - 1].open
    ensures var grown := Receive(Receive(Some(c), Opened(|c|, head)), Delta(|c|, data));
            && grown == Some(c + [ClientPart(head, data, true)])
            && Receive(grown, Closed(|c|)) == Some(c + [ClientPart(head, data, false)])
  {
    var empty, full := c + [ClientPart(head, [], true)], c + [ClientPart(head, data, true)];
    assert [] + data == data && empty[|c| := ClientPart(head, data, true)] == full;
    assert full[|c| := ClientPart(head, data, false)] == c + [ClientPart(head, data, false)];
  }

  datatype Kept = Kept(part: Part, open: bool)

  function AsClient(k: Kept): ClientPart {
    match k.part
    case Span(kind, data) => ClientPart(SpanHead(kind), data, k.open)
    case Call(c) => ClientPart(CallHead(c.name), c.args, k.open)
  }

  function AllAsClient(parts: seq<Kept>): seq<ClientPart> {
    seq(|parts|, i requires 0 <= i < |parts| => AsClient(parts[i]))
  }

  function PartsOf(parts: seq<Kept>): seq<Part> { seq(|parts|, i requires 0 <= i < |parts| => parts[i].part) }

  // ---- Stop sequences ----

  predicate StopAt(stops: seq<Bytes>, t: Bytes, q: nat) { exists i :: 0 <= i < |stops| && At(t, q, stops[i]) }

  /** The first place at or after q where a stop sequence begins. */
  function FirstStop(stops: seq<Bytes>, t: Bytes, q: nat): (r: Option<nat>)
    ensures r.Some? ==> q <= r.value <= |t| && StopAt(stops, t, r.value) && forall p :: q <= p < r.value ==>
        !StopAt(stops, t, p)
    ensures r.None? ==> forall p :: q <= p <= |t| ==> !StopAt(stops, t, p)
    decreases |t| + 1 - q
  {
    if q > |t| then None else if StopAt(stops, t, q) then Some(q) else FirstStop(stops, t, q + 1)
  }

  lemma FirstStopIs(stops: seq<Bytes>, t: Bytes, q: nat, c: nat)
    requires q <= c <= |t| && StopAt(stops, t, c) && forall p :: q <= p < c ==> !StopAt(stops, t, p)
    ensures FirstStop(stops, t, q) == Some(c)
  {
  }

  lemma AtInPrefix(t: Bytes, n: nat, q: nat, tag: Bytes)
    requires q + |tag| <= n <= |t|
    ensures At(t[..n], q, tag) <==> At(t, q, tag)
  {
    assert t[..n][q..q + |tag|] == t[q..q + |tag|];
  }

  ghost predicate StopGrows(stops: seq<Bytes>, t: Bytes, k: nat) {
    exists i :: 0 <= i < |stops| && Grows(t, k, stops[i])
  }

  /** The longest end of t that begins a stop sequence. */
  ghost predicate IsStopHold(stops: seq<Bytes>, t: Bytes, k: nat) {
    k <= |t| && (k > 0 ==> StopGrows(stops, t, k)) && forall j :: k < j <= |t| ==> !StopGrows(stops, t, j)
  }

  /** Text not held back comes before any stop sequence completed later. */
  lemma HeldBackCoversStops(stops: seq<Bytes>, t: Bytes, more: Bytes, k: nat, floor: nat, c: nat)
    requires IsStopHold(stops, t, k) && FirstStop(stops, t, floor).None?
    requires floor <= c && StopAt(stops, t + more, c)
    ensures c >= |t| - k
  {
    var i :| 0 <= i < |stops| && At(t + more, c, stops[i]);
    var s := stops[i];
    assert c <= |t| ==> !StopAt(stops, t, c);
    if c + |s| <= |t| {
      assert (t + more)[..|t|] == t;
      AtInPrefix(t + more, |t|, c, s);
    } else if c < |t| {
      StopCutShort(t, more, c, s);
      assert StopGrows(stops, t, |t| - c);
    }
  }

  lemma StopCutShort(t: Bytes, more: Bytes, c: nat, s: Bytes)
    requires At(t + more, c, s) && c < |t| < c + |s|
    ensures Grows(t, |t| - c, s)
  {
    assert t[c..] == (t + more)[c..c + |s|][..|t| - c];
  }

  /** Whether n is within the text that need not be held back, of whole characters. */
  ghost predicate NotPastHold(stops: seq<Bytes>, t: Bytes, n: nat) {
    exists k :: IsStopHold(stops, t, k) && n <= CompletePrefix(t[..|t| - k])
  }

  lemma {:induction false} HoldExists(stops: seq<Bytes>, t: Bytes, n: nat)
    requires n <= |t| && forall j :: n < j <= |t| ==> !StopGrows(stops, t, j)
    ensures exists k :: IsStopHold(stops, t, k)
    decreases n
  {
    if n == 0 || StopGrows(stops, t, n) {
      assert IsStopHold(stops, t, n);
    } else {
      HoldExists(stops, t, n - 1);
    }
  }

  lemma SameHold(stops: seq<Bytes>, t: Bytes, a: nat, b: nat)
    requires IsStopHold(stops, t, a) && IsStopHold(stops, t, b)
    ensures a == b
  {
  }

  /** What may be read while so much is held back: no less than before, and not past the hold. */
  lemma HoldReaches(stops: seq<Bytes>, t: Bytes, n: nat, hold: nat)
    requires NotPastHold(stops, t, n) && IsStopHold(stops, t, hold)
    ensures hold <= |t|
    ensures var safe := CompletePrefix(t[..|t| - hold]); n <= safe <= |t| && NotPastHold(stops, t, safe)
  {
    hide StopGrows;
    var k :| IsStopHold(stops, t, k) && n <= CompletePrefix(t[..|t| - k]);
    SameHold(stops, t, k, hold);
  }

  /** What was not past the hold still is not, as the text grows. */
  lemma NotPastHoldStays(stops: seq<Bytes>, t: Bytes, more: Bytes, n: nat)
    requires NotPastHold(stops, t, n)
    ensures NotPastHold(stops, t + more, n)
  {
    HoldExists(stops, t + more, |t + more|);
    var k :| IsStopHold(stops, t, k) && n <= CompletePrefix(t[..|t| - k]);
    var k' :| IsStopHold(stops, t + more, k');
    HoldAdvances(stops, t, more, k, k');
    CompletePrefixAdvances(t[..|t| - k], (t + more)[..|t + more| - k']);
  }

  /** A reply is never cut before what has been read of it. */
  lemma CutIsAhead(stops: seq<Bytes>, t: Bytes, more: Bytes, floor: nat, c: nat, n: nat)
    requires NotPastHold(stops, t, n) && FirstStop(stops, t, floor).None? &&
        FirstStop(stops, t + more, floor) == Some(c)
    ensures n <= c
  {
    var k :| IsStopHold(stops, t, k) && n <= CompletePrefix(t[..|t| - k]);
    HeldBackCoversStops(stops, t, more, k, floor, c);
  }

  /** What need not be held back never shrinks. */
  lemma HoldAdvances(stops: seq<Bytes>, t: Bytes, more: Bytes, k: nat, k': nat)
    requires IsStopHold(stops, t, k) && IsStopHold(stops, t + more, k')
    ensures |t| - k <= |t + more| - k'
  {
    var full := t + more;
    var n := |full| - k';
    if n < |t| - k {
      var i :| 0 <= i < |stops| && Grows(full, k', stops[i]);
      var j := |t| - n;
      assert t[n..] == full[n..][..j] == stops[i][..k'][..j] == stops[i][..j];
      assert Grows(t, j, stops[i]) && StopGrows(stops, t, j);
    }
  }

  // ---- Characters ----

  predicate Continues(c: Byte) { 0x80 <= c <= 0xBF }

  /** How many bytes the character c leads takes. */
  function Needs(c: Byte): nat {
    if 0xC2 <= c <= 0xDF then 2 else if 0xE0 <= c <= 0xEF then 3 else if 0xF0 <= c <= 0xF4 then 4 else 0
  }

  function LookBack(t: Bytes, back: nat): (n: nat)
    requires back > 0
    ensures n <= |t|
    decreases 4 - back
  {
    if back > 3 || back > |t| then |t|
    else
      var c := t[|t| - back];
      if Continues(c) then LookBack(t, back + 1) else if Needs(c) > back then |t| - back else |t|
  }

  /** The text up to a character it ends inside of. */
  function CompletePrefix(t: Bytes): nat { LookBack(t, 1) }

  lemma {:induction false} LookBackFinds(t: Bytes, back: nat)
    requires back > 0
    ensures var n := LookBack(t, back);
            n < |t| ==> |t| - 3 <= n <= |t| - back && Needs(t[n]) > |t| - n && forall q :: n < q <= |t| - back ==>
                Continues(t[q])
    decreases 4 - back
  {
    if back <= 3 && back <= |t| && Continues(t[|t| - back]) { LookBackFinds(t, back + 1); }
  }

  lemma {:induction false} LookBackReaches(t: Bytes, back: nat, n: nat)
    requires 0 < back <= |t| - n <= 3 && n < |t| && Needs(t[n]) > |t| - n
    requires forall q :: n < q <= |t| - back ==> Continues(t[q])
    ensures LookBack(t, back) == n
    decreases 4 - back
  {
    if back < |t| - n { LookBackReaches(t, back + 1, n); }
  }

  lemma CompletePrefixAdvances(a: Bytes, b: Bytes)
    requires a <= b
    ensures CompletePrefix(a) <= CompletePrefix(b)
  {
    var n := CompletePrefix(b);
    LookBackFinds(b, 1);
    if n < |a| {
      assert a[n] == b[n] && forall q :: n < q <= |a| - 1 ==> a[q] == b[q];
      LookBackReaches(a, 1, n);
    }
  }

  method Utf8CompletePrefix(t: Bytes, len: nat) returns (start: nat)
    requires len <= |t|
    ensures start == CompletePrefix(t[..len])
  {
    var back := 1;
    while back <= 3 && back <= len
      invariant 1 <= back <= 4 && LookBack(t[..len], 1) == LookBack(t[..len], back)
    {
      var c := t[len - back];
      if Continues(c) {
        back := back + 1;
        continue;
      }
      return if Needs(c) > back then len - back else len;
    }
    start := len;
  }

  // ---- The reply ----

  /** The reply's text after these tokens: cut where a token first completes a stop sequence past floor. */
  function ReplyText(stops: seq<Bytes>, floor: nat, text: Bytes, tokens: seq<Bytes>): Bytes
    decreases |tokens|
  {
    if tokens == [] then text
    else
      var t := text + tokens[0];
      match FirstStop(stops, t, floor)
      case Some(c) => t[..c]
      case None => ReplyText(stops, floor, t, tokens[1..])
  }

  class Reply {
    const parse: bool          // the reply is read back; otherwise it is one text
    const rules: Rules
    const stops: seq<Bytes>
    const floor: nat           // the prefill's length: no stop sequence before it
    const stream: bool
    const rp: Parser
    var text: Bytes
    var emitted: nat
    var parts: seq<Kept>
    var sent: seq<Sent>
    var ended: bool
    ghost var fed: nat         // the text read so far

    constructor (parse: bool, rules: Rules, stops: seq<Bytes>, prefill: Bytes, stream: bool)
      requires forall i :: 0 <= i < |stops| ==> stops[i] != []
      ensures Ok() && !ended && text == prefill && fresh(rp)
      ensures this.parse == parse && this.rules == rules && this.stops == stops && this.floor == |prefill| &&
          this.stream == stream
    {
      this.parse, this.rules, this.stops, this.floor, this.stream := parse, rules, stops, |prefill|, stream;
      rp := new Parser(rules);
      text, emitted, parts, sent, ended := prefill, 0, [], [], false;
      fed := 0;
      new;
      NoStopPastEnd(stops, prefill);
      assert PartsOf(parts) == [] && AllAsClient(parts) == [] && text[..0] == [];
      assert Reported() == [];
      HoldExists(stops, prefill, |prefill|);
      forall full ensures AsRead(full) {
        assert full[0..] == full && [] + Read(rules, full) == Read(rules, full) && full[..0] == [];
      }
    }

    static lemma NoStopPastEnd(stops: seq<Bytes>, t: Bytes)
      requires forall i :: 0 <= i < |stops| ==> stops[i] != []
      ensures FirstStop(stops, t, |t|).None?
    {
    }

    /** Everything a reply's text says, read whole. */
    function Says(t: Bytes): seq<Event> { if parse then Read(rules, t) else SpanEvents(Text, t) }

    /** What the parser has reported and the rest, if the reply becomes full, are full read whole. */
    ghost predicate AsParsed(full: Bytes)
      reads rp
    {
      rp.at <= |full| && Flatten(rp.out) + Reading(rules, rp.phase, rp.Now(), full[rp.at..]) == Read(rules, full)
    }

    ghost predicate AsRead(full: Bytes)
      reads `emitted, `fed, rp
    {
      if parse then AsParsed(full) else emitted == fed <= |full| && rp.out == []
    }

    /** What has been reported so far. */
    ghost function Reported(): seq<Event>
      requires fed <= |text|
      reads `text, `fed, rp
    {
      if parse then Flatten(rp.out) else SpanEvents(Text, text[..fed])
    }

    ghost predicate Ok()
      reads this, rp
    {
      && rp.rules == rules
      && (forall i :: 0 <= i < |stops| ==> stops[i] != [])
      && fed <= |text|
      && (parse ==> rp.at <= fed)
      && (forall full :: text[..fed] <= full ==> AsRead(full))
      && PartsOk(Reported())
      && (!ended ==> FirstStop(stops, text, floor).None?)
      && (!ended ==> NotPastHold(stops, text, fed))
    }

    /**
     * The parts kept are the events reported, put together; the last, unless a call, is open; a
     * client has them so far.
     */
    ghost predicate PartsOk(events: seq<Event>)
      reads `parts, `sent
    {
      && PartsOf(parts) == Group(events)
      && (forall i :: 0 <= i < |parts| ==> (parts[i].open <==> i == |parts| - 1 && parts[i].part.Span?))
      && (stream ==> Rebuild(sent) == Some(AllAsClient(parts)))
    }

    method Send(e: Sent)
      modifies `sent
      ensures sent == old(sent) + [e] && Rebuild(sent) == Receive(Rebuild(old(sent)), e)
    {
      RebuildOne(sent, e);
      sent := sent + [e];
    }

    /** The last part, if it is still open, is done. */
    method ClosePart()
      requires stream ==> Rebuild(sent) == Some(AllAsClient(parts))
      modifies `parts, `sent
      ensures PartsOf(parts) == old(PartsOf(parts)) && |parts| == |old(parts)|
      ensures forall i :: 0 <= i < |parts| ==> parts[i].open == (old(parts[i].open) && i < |parts| - 1)
      ensures stream ==> Rebuild(sent) == Some(AllAsClient(parts))
    {
      if parts == [] || !parts[|parts| - 1].open { return; }
      var last := |parts| - 1;
      ghost var before := parts;
      parts := parts[last := parts[last].(open := false)];
      if stream {
        Send(Closed(last));
        assert AllAsClient(parts) == AllAsClient(before)[last := AllAsClient(before)[last].(open := false)];
      }
      assert PartsOf(parts) == PartsOf(before);
    }

    /** A part as the parser reads it: kept, and sent on in a stream. */
    method OnPart(p: Part, ghost events: seq<Event>)
      requires PartsOk(events)
      modifies `parts, `sent
      ensures PartsOk(events + EventsOf(p))
    {
      if p.Span? && parts != [] && parts[|parts| - 1].open && parts[|parts| - 1].part.kind == p.kind {
        Grow(p.kind, p.data, events);
        return;
      }
      hide Rebuild;
      ghost var before := parts;
      if p.Span? { GroupSpan(events, p.kind, p.data); } else { assert (events + EventsOf(p))[..|events|] == events; }
      ClosePart();
      NewPart(p);
      assert PartsOf(parts) == PartsOf(before) + [p];
      assert p.Span? ==> !Joins(Group(events), p.kind) by {
        if before != [] { assert Group(events)[|before| - 1] == before[|before| - 1].part; }
      }
    }

    /** The part that is open grows. */
    method Grow(kind: Kind, data: Bytes, ghost events: seq<Event>)
      requires PartsOk(events) && data != []
      requires parts != [] && parts[|parts| - 1].open && parts[|parts| - 1].part.Span? &&
          parts[|parts| - 1].part.kind == kind
      modifies `parts, `sent
      ensures PartsOk(events + SpanEvents(kind, data))
    {
      hide Rebuild;
      hide Group;
      ghost var before := parts;
      GroupSpan(events, kind, data);
      var last := |parts| - 1;
      assert Group(events)[last] == parts[last].part;
      parts := parts[last := Kept(Span(kind, parts[last].part.data + data), true)];
      assert PartsOf(parts) == Group(events + SpanEvents(kind, data));
      if stream {
        Send(Delta(last, data));
        assert AllAsClient(parts) ==
            AllAsClient(before)[last := AllAsClient(before)[last].(data := AllAsClient(before)[last].data + data)];
      }
    }

    /** A part that joins none before it: a call is sent whole. */
    method NewPart(p: Part)
      requires forall i :: 0 <= i < |parts| ==> !parts[i].open
      requires stream ==> Rebuild(sent) == Some(AllAsClient(parts))
      modifies `parts, `sent
      ensures parts == old(parts) + [Kept(p, p.Span?)]
      ensures stream ==> Rebuild(sent) == Some(AllAsClient(parts))
    {
      hide Rebuild;
      hide Receive;
      ghost var before := parts;
      var i := |parts|;
      parts := parts + [Kept(p, p.Span?)];
      if stream {
        var head := if p.Span? then SpanHead(p.kind) else CallHead(p.call.name);
        var data := if p.Span? then p.data else p.call.args;
        Send(Opened(i, head));
        ReceiveWhole(AllAsClient(before), head, data);
        Send(Delta(i, data));
        if p.Call? { Send(Closed(i)); }
        assert AllAsClient(parts) == AllAsClient(before) + [AsClient(Kept(p, p.Span?))];
      }
    }

    /** Text that cannot yet be sent: the longest end of it that begins a stop sequence. */
    method StopHoldback() returns (hold: nat)
      requires forall i :: 0 <= i < |stops| ==> stops[i] != []
      ensures IsStopHold(stops, text, hold)
    {
      hold := 0;
      for i := 0 to |stops|
        invariant hold <= |text| && (hold > 0 ==> StopGrows(stops, text, hold))
        invariant forall j, q :: hold < j <= |text| && 0 <= q < i ==> !Grows(text, j, stops[q])
      {
        var s := stops[i];
        var k: nat := if |s| - 1 < |text| then |s| - 1 else |text|;
        while k > hold
          invariant k <= |text| && k < |s|
          invariant forall j :: Max(k, hold) < j <= |text| ==> !Grows(text, j, s)
        {
          if text[|text| - k..] == s[..k] {
            assert Grows(text, k, s);
            hold := k;
            break;
          }
          k := k - 1;
        }
      }
    }

    /** Where the earliest stop sequence begins, looking only where bytes added since from could complete one. */
    method FindStop(from: nat) returns (best: Option<nat>)
      requires from <= |text| && FirstStop(stops, text[..from], floor).None?
      requires forall i :: 0 <= i < |stops| ==> stops[i] != []
      ensures best == FirstStop(stops, text, floor)
    {
      best := None;
      for i := 0 to |stops|
        invariant best.Some? ==>
              floor <= best.value <= |text| &&
              exists p ::
              0 <= p < i &&
              At(text, best.value, stops[p])
        invariant forall p, q :: 0 <= p < i && floor <= q <= |text| && (best.Some? ==> q < best.value) ==>
            !At(text, q, stops[p])
      {
        var s := stops[i];
        var start := if from >= |s| then from - |s| + 1 else 0;
        if start < floor { start := floor; }
        forall q | floor <= q < start && q <= |text| ensures !At(text, q, s) {
          AtInPrefix(text, from, q, s);
          assert !StopAt(stops, text[..from], q);
        }
        var q := start;
        ghost var was := best;
        while q + |s| <= |text|
          invariant start <= q && best == was
          invariant forall r :: floor <= r < q && r <= |text| ==> !At(text, r, s)
        {
          if text[q..q + |s|] == s {
            assert At(text, q, s);
            if best.None? || q < best.value { best := Some(q); }
            break;
          }
          q := q + 1;
        }
      }
      if best.Some? {
        FirstStopIs(stops, text, floor, best.value);
      }
    }

    /** Feed the parser the text up to safe, and keep the parts it reports. */
    method ReadParsed(safe: nat, final: bool, ghost done: Bytes)
      requires parse && rp.rules == rules && rp.at <= |done| && safe <= |text| && done <= text[..safe]
      requires PartsOk(Flatten(rp.out)) && forall full :: done <= full ==> AsParsed(full)
      modifies this`parts, this`sent, rp
      ensures rp.at <= safe && PartsOk(Flatten(rp.out))
      ensures forall full :: text[..safe] <= full && (final ==> full == text[..safe]) ==> AsParsed(full)
      ensures if final then Flatten(rp.out) == Read(rules, text[..safe])
              else Waits(rules, rp.phase, text[rp.at..safe])
    {
      hide Reading;
      hide Flatten;
      hide Waits;
      var n := |rp.out|;
      ghost var was := rp.out;
      FeedParser(text[..safe], final, done);
      assert rp.out[..n] == was;
      assert text[..safe][rp.at..] == text[rp.at..safe];
      KeepFrom(n);
    }

    method FeedParser(now: Bytes, final: bool, ghost done: Bytes)
      requires parse && rp.rules == rules && rp.at <= |done| && done <= now
      requires forall full :: done <= full ==> AsParsed(full)
      modifies rp
      ensures rp.at <= |now| && old(rp.out) <= rp.out
      ensures forall full :: now <= full && (final ==> full == now) ==> AsParsed(full)
      ensures if final then Flatten(rp.out) == Read(rules, now) else Waits(rules, rp.phase, now[rp.at..])
    {
      hide Flatten;
      hide Waits;
      ghost var at := rp.at;
      rp.Feed(now, final);
      forall full | now <= full && (final ==> full == now) ensures AsParsed(full) {
        assert done <= full && old(AsParsed(full));
        ghost var rest := full[|now|..];
        assert now[at..] + rest == full[at..] && now[rp.at..] + rest == full[rp.at..];
        assert rp.Said(now, rest) == old(rp.Said(now, rest));
      }
      if final {
        assert AsParsed(now);
        rp.FinishedSaysNothing(now);
        assert now[rp.at..] + [] == now[rp.at..];
      }
    }

    /** Keep the parts the parser has reported from the n-th on. */
    method KeepFrom(n: nat)
      requires n <= |rp.out| && PartsOk(Flatten(rp.out[..n]))
      modifies `parts, `sent
      ensures PartsOk(Flatten(rp.out))
    {
      hide Flatten;
      hide PartsOk;
      for k := n to |rp.out|
        invariant PartsOk(Flatten(rp.out[..k]))
      {
        FlattenOne(rp.out[..k], rp.out[k]);
        assert rp.out[..k + 1] == rp.out[..k] + [rp.out[k]];
        OnPart(rp.out[k], Flatten(rp.out[..k]));
      }
      assert rp.out[..|rp.out|] == rp.out;
    }

    /** Read the text up to safe, or all of it once final, and keep what it says. */
    method ReadTo(safe: nat, final: bool)
      requires Ok() && fed <= safe <= |text| && (final ==> safe == |text|)
      modifies this`parts, this`sent, this`emitted, this`fed, rp
      ensures fed == safe
      ensures forall full :: text[..safe] <= full && (final ==> full == text[..safe]) ==> AsRead(full)
      ensures (parse ==> rp.at <= fed) && PartsOk(Reported())
      ensures final ==> Reported() == Says(text)
      ensures !final ==> AllSaid()
    {
      hide PartsOk;
      hide Waits;
      hide Reading;
      hide Flatten;
      ghost var done, now := text[..fed], text[..safe];
      assert final ==> now == text;
      assert AsRead(done);
      if parse {
        forall full | done <= full ensures AsParsed(full) { assert AsRead(full); }
        ReadParsed(safe, final, done);
        fed := safe;
      } else {
        ReadPlain(safe, done);
        fed := safe;
        assert PartsOk(SpanEvents(Text, now));
      }
    }

    /** Nothing read is kept back but what the parser must wait with. */
    ghost predicate AllSaid()
      requires fed <= |text|
      reads `text, `fed, rp
    {
      parse ==> rp.at <= fed && Waits(rules, rp.phase, text[rp.at..fed])
    }

    /** What a stream has read of its text: all but what may begin a stop sequence, to a whole character. */
    ghost predicate CaughtUp()
      reads `text, `fed, rp
    {
      && fed <= |text| && AllSaid()
      && exists hold :: IsStopHold(stops, text, hold) && fed == CompletePrefix(text[..|text| - hold])
    }

    /** All that is sure of what was read back has been reported. */
    lemma AllSureIsSaid(es: seq<Event>)
      requires Ok() && CaughtUp() && parse && Undecided(rules, rp.phase, rp.Now(), text[rp.at..fed])
      requires forall full :: text[..fed] <= full ==> es <= Read(rules, full)
      ensures es <= Reported()
    {
      hide Read;
      hide Reading;
      hide Flatten;
      hide Waits;
      hide Undecided;
      hide PartsOk;
      hide CompletePrefix;
      hide FirstStop;
      ghost var now := text[..fed];
      assert now[rp.at..] == text[rp.at..fed];
      forall rest
        ensures rp.Said(now, rest) == Read(rules, now + rest) && es <= Read(rules, now + rest)
      {
        assert AsRead(now + rest) && (now + rest)[rp.at..] == now[rp.at..] + rest;
      }
      rp.AllSureIsReported(now, es);
    }

    /** A reply that is not read back: the text not yet sent on is text. */
    method ReadPlain(safe: nat, ghost done: Bytes)
      requires !parse && emitted <= safe <= |text| && done == text[..emitted]
      requires PartsOk(SpanEvents(Text, done))
      modifies `parts, `sent, `emitted
      ensures emitted == safe && PartsOk(SpanEvents(Text, text[..safe]))
    {
      if safe > emitted {
        assert SpanEvents(Text, text[..safe]) == SpanEvents(Text, done) + SpanEvents(Text, text[emitted..safe]);
        OnPart(Span(Text, text[emitted..safe]), SpanEvents(Text, done));
        emitted := safe;
      }
    }

    /** The reply as far as it can be read: what could begin a stop sequence, or end inside a character, waits. */
    method ReplyReady()
      requires Ok() && !ended
      modifies this`parts, this`sent, this`emitted, this`fed, rp
      ensures Ok() && CaughtUp()
    {
      hide AllSaid;
      hide PartsOk;
      hide IsStopHold;
      hide NotPastHold;
      hide CompletePrefix;
      hide FirstStop;
      var hold := StopHoldback();
      HoldReaches(stops, text, fed, hold);
      var safe := Utf8CompletePrefix(text, |text| - hold);
      ReadTo(safe, false);
    }

    /** One token's bytes: true when they completed a stop sequence, where the reply is then cut. */
    method Take(token: Bytes) returns (stopped: bool)
      requires Ok() && !ended
      modifies this`text, this`ended, this`parts, this`sent, this`emitted, this`fed, rp
      ensures Ok() && ended == stopped
      ensures var t := old(text) + token;
              match FirstStop(stops, t, floor)
              case Some(c) => stopped && text == t[..c]
              case None => !stopped && text == t
      ensures if stream && !stopped then CaughtUp() else sent == old(sent)
    {
      hide CaughtUp;
      hide PartsOk;
      hide AsRead;
      hide NotPastHold;
      hide FirstStop;
      hide StopAt;
      ghost var was := text;
      var before := |text|;
      text := text + token;
      assert text[..before] == was && text[..fed] == was[..fed];
      var cut := FindStop(before);
      if cut.Some? {
        CutIsAhead(stops, was, token, floor, cut.value, fed);
        text := text[..cut.value];
        ended := true;
        assert text[..fed] == was[..fed];
        return true;
      }
      NotPastHoldStays(stops, was, token, fed);
      assert Ok();
      if stream { ReplyReady(); }
      stopped := false;
    }

    /** The rest of the reply, read to its end. */
    method Finish()
      requires Ok()
      modifies this`ended, this`parts, this`sent, this`emitted, this`fed, rp
      ensures PartsOf(parts) == Group(Says(text))
      ensures stream ==> Rebuild(sent) == Some(AllAsClient(parts))
      ensures forall i :: 0 <= i < |parts| ==> !parts[i].open
    {
      ReadTo(|text|, true);
      ClosePart();
    }
  }

  /**
   * A whole reply: its tokens until a stop sequence, then its end. The parts
   * depend on the text alone, not on whether it was streamed; and what a
   * client rebuilds from the deltas is those parts, each closed.
   */
  method RunReply(parse: bool, rules: Rules, stops: seq<Bytes>, prefill: Bytes, stream: bool, tokens: seq<Bytes>)
    returns (parts: seq<Kept>, client: seq<Sent>)
    requires forall i :: 0 <= i < |stops| ==> stops[i] != []
    ensures var text := ReplyText(stops, |prefill|, prefill, tokens);
            PartsOf(parts) == Group(if parse then Read(rules, text) else SpanEvents(Text, text))
    ensures forall i :: 0 <= i < |parts| ==> !parts[i].open
    ensures stream ==> Rebuild(client) == Some(AllAsClient(parts))
  {
    var g := new Reply(parse, rules, stops, prefill, stream);
    var i := 0;
    assert tokens[0..] == tokens;
    while i < |tokens|
      invariant i <= |tokens| && g.Ok() && !g.ended && fresh(g) && fresh(g.rp)
      invariant ReplyText(stops, |prefill|, prefill, tokens) == ReplyText(stops, |prefill|, g.text, tokens[i..])
    {
      assert tokens[i..][1..] == tokens[i + 1..];
      var stopped := g.Take(tokens[i]);
      if stopped { break; }
      i := i + 1;
    }
    g.Finish();
    parts, client := g.parts, g.sent;
  }
}
