/**
 * A tool call between its tags: how the chat template writes one and how a
 * reply's reader takes one, and that the second undoes the first.
 */
module ChatCall {
  import opened Basics
  import opened JsonGrammar
  import opened JsonReader
  import opened JsonTree
  import opened JsonWriter
  import opened FloatRepr
  import P = JsonParser
  import T = JsonRoundTrip
  import R = ReplyReading

  const NAME: Bytes := [0x6E, 0x61, 0x6D, 0x65]
  const ARGUMENTS: Bytes := [0x61, 0x72, 0x67, 0x75, 0x6D, 0x65, 0x6E, 0x74, 0x73]
  const FUNCTION: Bytes := [0x66, 0x75, 0x6E, 0x63, 0x74, 0x69, 0x6F, 0x6E]
  const EMPTY_OBJECT: Bytes := [OPEN_BRACE, CLOSE_BRACE]

  /** An object's first member with a key. */
  function Get(t: Tree, key: Bytes): Option<Tree> { if t.Members? then FirstWith(t.members, key) else None }

  function FirstWith(ms: seq<Member>, key: Bytes): Option<Tree> {
    if ms == [] then None else if ms[0].key == key then Some(ms[0].value) else FirstWith(ms[1..], key)
  }

  // ---- Reading a call ----

  function TrimEnd(s: Bytes): Bytes {
    if s != [] && R.IsSpace(s[|s| - 1]) then TrimEnd(s[..|s| - 1]) else s
  }

  /** Arguments a model wrote as a string of JSON are the object it holds. */
  function Inner(args: Option<Tree>): Option<Tree> {
    if args.Some? && args.value.Text? then
      var held := ReadTree(args.value.s);
      if held.Some? && held.value.Members? then held else args
    else args
  }

  function ArgumentsText(f: Floats, args: Option<Tree>): Bytes
    requires Sound(f)
  {
    if args.Some? && args.value != Atom(Null) then Plain(Norm(f, args.value)) else EMPTY_OBJECT
  }

  /** The call a block's body is, if it is one. */
  function CallOf(f: Floats, body: Bytes): Option<R.ToolCall>
    requires Sound(f)
  {
    match ReadTree(TrimEnd(R.SkipSpace(body)))
    case None => None
    case Some(call) =>
      var name := Get(call, NAME);
      if name.Some? && name.value.Text? && name.value.s != [] then
        Some(R.ToolCall(name.value.s, ArgumentsText(f, Inner(Get(call, ARGUMENTS)))))
      else None
  }

  method ReportCall(f: Floats, body: Bytes) returns (call: Option<R.ToolCall>)
    requires Sound(f)
    ensures call == CallOf(f, body)
  {
    hide ReadTree;
    hide Norm;
    hide Plain;
    hide Sound;
    var s := body;
    while s != [] && R.IsSpace(s[0])
      invariant R.SkipSpace(s) == R.SkipSpace(body)
    {
      s := s[1..];
    }
    ghost var front := s;
    while s != [] && R.IsSpace(s[|s| - 1])
      invariant TrimEnd(s) == TrimEnd(front)
    {
      s := s[..|s| - 1];
    }
    var doc := P.Parse(s);
    if doc.None? { return None; }
    var name := Get(doc.value, NAME);
    if name.None? || !name.value.Text? || name.value.s == [] { return None; }
    var args := Get(doc.value, ARGUMENTS);
    if args.Some? && args.value.Text? {
      var inner := P.Parse(args.value.s);
      if inner.Some? && inner.value.Members? { args := inner; }
    }
    var text := EMPTY_OBJECT;
    if args.Some? && args.value != Atom(Null) {
      var w := new Writer(f);
      w.Write(args.value);
      assert [] + Plain(Norm(f, args.value)) == Plain(Norm(f, args.value));
      text := w.data;
    }
    call := Some(R.ToolCall(name.value.s, text));
  }

  // ---- Which blocks are calls ----

  predicate Spaces(s: Bytes) { forall k :: 0 <= k < |s| ==> R.IsSpace(s[k]) }

  /** No whitespace at either end. */
  predicate Tight(s: Bytes) { s == [] || (!R.IsSpace(s[0]) && !R.IsSpace(s[|s| - 1])) }

  lemma {:induction false} FrontGoes(front: Bytes, s: Bytes)
    requires Spaces(front) && (s == [] || !R.IsSpace(s[0]))
    ensures R.SkipSpace(front + s) == s
  {
    R.SpaceSkipped(front + s, |front|);
    assert (front + s)[|front|..] == s;
  }

  lemma {:induction false} BackGoes(s: Bytes, back: Bytes)
    requires Spaces(back) && (s == [] || !R.IsSpace(s[|s| - 1]))
    ensures TrimEnd(s + back) == s
    decreases |back|
  {
    if back == [] {
      assert s + back == s;
    } else {
      var n := |back| - 1;
      assert (s + back)[..|s + back| - 1] == s + back[..n];
      BackGoes(s, back[..n]);
    }
  }

  lemma AllSpaces(s: Bytes)
    requires Spaces(s)
    ensures R.SkipSpace(s) == []
  {
    FrontGoes(s, []);
    assert s + [] == s;
  }

  /** An object whose first name is a string, not empty. */
  predicate NamesCall(t: Option<Tree>) {
    && t.Some? && t.value.Members?
    && match FirstWith(t.value.members, NAME) case Some(Text(s)) => s != [] case _ => false
  }

  /** What a call's arguments come to. */
  function ArgumentsSay(f: Floats, args: Option<Tree>): Bytes
    requires Sound(f)
  {
    if args.None? || args.value == Atom(Null) then EMPTY_OBJECT
    else if args.value.Text? then
      var held := ReadTree(args.value.s);
      if held.Some? && held.value.Members? then Plain(Norm(f, held.value)) else Quoted(args.value.s)
    else Plain(Norm(f, args.value))
  }

  /**
   * A block is a call exactly when what is between the whitespace at its ends
   * is an object whose first name is a string, not empty. Its arguments may
   * be anything: none and null are an empty object, a string that holds an
   * object is that object, and all are as Python writes them.
   */
  lemma BlockIsACall(f: Floats, front: Bytes, s: Bytes, back: Bytes)
    requires Sound(f) && Spaces(front) && Tight(s) && Spaces(back)
    ensures CallOf(f, front + s + back).Some? <==> NamesCall(ReadTree(s))
    ensures var call := CallOf(f, front + s + back);
            call.Some? ==>
              var ms := ReadTree(s).value.members;
              && FirstWith(ms, NAME) == Some(Text(call.value.name))
              && call.value.args == ArgumentsSay(f, FirstWith(ms, ARGUMENTS))
  {
    hide ReadTree;
    hide FirstWith;
    if s == [] {
      assert front + s + back == front + back;
      AllSpaces(front + back);
      assert TrimEnd([]) == [];
    } else {
      assert front + s + back == front + (s + back);
      FrontGoes(front, s + back);
      BackGoes(s, back);
    }
  }

  // ---- Writing a call ----

  /** The function a call wraps, if it is an object that is not empty. */
  function Unwrapped(call: Tree): Tree {
    var fn := Get(call, FUNCTION);
    if fn.Some? && fn.value.Members? && fn.value.members != [] then fn.value else call
  }

  /** A member as the template puts it: a string as it is, anything else as JSON. */
  function Shown(f: Floats, v: Option<Tree>, absent: Bytes): Bytes
    requires Sound(f)
  {
    match v
    case None => absent
    case Some(t) => if t.Text? then t.s else Plain(Norm(f, t))
  }

  /** Bytes between quotes, and what follows. */
  function Within(s: Bytes, rest: Bytes): Bytes { [QUOTE] + (s + ([QUOTE] + rest)) }

  /** {"k1": "name", "k2": args} and what follows. */
  function Object(k1: Bytes, name: Bytes, k2: Bytes, args: Bytes, rest: Bytes): Bytes {
    [OPEN_BRACE] + Within(k1,
        [COLON] + ([SPACE] +
            Within(name, [COMMA] + ([SPACE] + Within(k2, [COLON] + ([SPACE] + (args + ([CLOSE_BRACE] + rest))))))))
  }

  /** What stands between a call's tags. */
  function Body(name: Bytes, args: Bytes): Bytes { [R.NEWLINE] + Object(NAME, name, ARGUMENTS, args, [R.NEWLINE]) }

  function BodyOf(f: Floats, call: Tree): Bytes
    requires Sound(f)
  {
    var fn := Unwrapped(call);
    Body(Shown(f, Get(fn, NAME), []), Shown(f, Get(fn, ARGUMENTS), EMPTY_OBJECT))
  }

  /** A call and its tags, after whatever is written already. */
  method WriteCall(w: Writer, call: Tree)
    requires Sound(w.f)
    modifies w
    ensures w.data == old(w.data) + (R.OPEN_CALL + BodyOf(w.f, call) + R.CLOSE_CALL)
  {
    hide Norm;
    hide Plain;
    hide Sound;
    var fn := Get(call, FUNCTION);
    var of := if fn.Some? && fn.value.Members? && fn.value.members != [] then fn.value else call;
    w.Append(R.OPEN_CALL);
    w.Append(BeforeName(NAME));
    var name := Get(of, NAME);
    if name.Some? {
      if name.value.Text? { w.Append(name.value.s); } else { w.Write(name.value); }
    }
    w.Append(BeforeArguments(ARGUMENTS));
    var args := Get(of, ARGUMENTS);
    if args.Some? {
      if args.value.Text? { w.Append(args.value.s); } else { w.Write(args.value); }
    } else {
      w.Append(EMPTY_OBJECT);
    }
    w.Append([CLOSE_BRACE, R.NEWLINE]);
    w.Append(R.CLOSE_CALL);
    Pieces(old(w.data), R.OPEN_CALL, NAME, Shown(w.f, name, []), ARGUMENTS, Shown(w.f, args, EMPTY_OBJECT),
        R.CLOSE_CALL);
  }

  function BeforeName(k: Bytes): Bytes { [R.NEWLINE, OPEN_BRACE, QUOTE] + k + [QUOTE, COLON, SPACE, QUOTE] }

  function BeforeArguments(k: Bytes): Bytes { [QUOTE, COMMA, SPACE, QUOTE] + k + [QUOTE, COLON, SPACE] }

  lemma Pieces(data: Bytes, open: Bytes, k1: Bytes, name: Bytes, k2: Bytes, args: Bytes, close: Bytes)
    ensures data + open + BeforeName(k1) + name + BeforeArguments(k2) + args + [CLOSE_BRACE, R.NEWLINE] + close
         == data + (open + ([R.NEWLINE] + Object(k1, name, k2, args, [R.NEWLINE])) + close)
    ensures name == [] ==> data + open + BeforeName(k1) + name == data + open + BeforeName(k1)
  {
    var r0 := [CLOSE_BRACE, R.NEWLINE];
    assert [CLOSE_BRACE] + [R.NEWLINE] == r0;
    var r1 := args + r0;
    assert BeforeArguments(k2) + r1 == [QUOTE] + ([COMMA] + ([SPACE] + Within(k2, [COLON] + ([SPACE] + r1))));
    var r2 := BeforeArguments(k2) + r1;
    assert BeforeName(k1) + (name + r2) ==
        [R.NEWLINE] + ([OPEN_BRACE] + Within(k1, [COLON] + ([SPACE] + ([QUOTE] + (name + r2)))));
    var body := BeforeName(k1) + (name + r2);
    assert body == [R.NEWLINE] + Object(k1, name, k2, args, [R.NEWLINE]);
    Flat(data, open, BeforeName(k1), name, BeforeArguments(k2), args, r0, close);
  }

  lemma Flat(a: Bytes, b: Bytes, c: Bytes, d: Bytes, e: Bytes, f: Bytes, g: Bytes, h: Bytes)
    ensures a + b + c + d + e + f + g + h == a + (b + (c + (d + (e + (f + g)))) + h)
  {
  }

  // ---- What is written is read back ----

  /** A name that is written between quotes as it is. */
  predicate Simple(name: Bytes) { name != [] && forall i :: 0 <= i < |name| ==> CharOf(name[i]) == Raw(name[i]) }

  lemma SimpleRaws(s: Bytes, rest: Bytes)
    requires Simple(s)
    ensures WfChars(Raws(s)) && Decode(Raws(s)) == s && PutString(Raws(s), rest) == Within(s, rest)
  {
    PutRaws(s, [QUOTE] + rest);
  }

  lemma {:induction false} PutRaws(s: Bytes, rest: Bytes)
    requires forall i :: 0 <= i < |s| ==> CharOf(s[i]) == Raw(s[i])
    ensures WfChars(Raws(s)) && Decode(Raws(s)) == s && PutChars(Raws(s), rest) == s + rest
    decreases s
  {
    if s == [] {
      assert s + rest == rest;
    } else {
      PutRaws(s[1..], rest);
      ByteSurvives(s[0]);
      assert s == [s[0]] + s[1..];
    }
  }

  function Keyed(w1: List<Byte>, key: Bytes, w3: List<Byte>, v: Value, ws: List<Byte>): Entry {
    Entry(Key(w1, Raws(key), Nil, w3), v, ws)
  }

  lemma KeyedText(w1: List<Byte>, key: Bytes, w3: List<Byte>, v: Value, ws: List<Byte>, rest: Bytes)
    requires Simple(key) && WfWs(w1) && WfWs(w3) && WfValue(v) && WfWs(ws)
    ensures var e := Keyed(w1, key, w3, v, ws);
            && WfEntry(Obj, e) && MemberOf(e) == Member(key, TreeOf(v)) && EntryLevels(e) == Levels(v)
            && PutEntry(e, rest) == Put(w1, Within(key, [COLON] + Put(w3, PutValue(v, Put(ws, rest)))))
  {
    hide PutString;
    hide PutValue;
    hide Simple;
    SimpleRaws(key, [COLON] + Put(w3, PutValue(v, Put(ws, rest))));
  }

  const ONE_SPACE := Cons(SPACE, Nil)

  /** How such an object is derived, the argument text being a document's. */
  function ObjectCst(k1: Bytes, name: Bytes, k2: Bytes, d: Doc): Value {
    Full(Obj, More(Keyed(Nil, k1, ONE_SPACE, Str(Raws(name)), Nil),
        One(Keyed(ONE_SPACE, k2, Cons(SPACE, d.before), d.v, d.after))))
  }

  lemma OneSpace(rest: Bytes)
    ensures Put(ONE_SPACE, rest) == [SPACE] + rest
  {
  }

  lemma {:induction false} ValueOnto(v: Value, a: Bytes, b: Bytes)
    ensures PutValue(v, a + b) == PutValue(v, a) + b
    decreases v, 0
  {
    match v
    case Str(cs) => StringOnto(cs, a, b);
    case Num(n) => NumberOnto(n, a, b);
    case Lit(w) => P.PutOnto(WordText(w), a, b);
    case Empty(k, w) =>
      assert [Closer(k)] + (a + b) == ([Closer(k)] + a) + b;
      P.PutOnto(w, [Closer(k)] + a, b);
    case Full(k, es) =>
      assert [Closer(k)] + (a + b) == ([Closer(k)] + a) + b;
      EntriesOnto(es, [Closer(k)] + a, b);
  }

  lemma {:induction false} EntriesOnto(es: Entries, a: Bytes, b: Bytes)
    ensures PutEntries(es, a + b) == PutEntries(es, a) + b
    decreases es, 0
  {
    hide PutEntry;
    match es
    case One(e) => EntryOnto(e, a, b);
    case More(e, rest) =>
      EntriesOnto(rest, a, b);
      var tail := PutEntries(rest, a);
      assert [COMMA] + (tail + b) == ([COMMA] + tail) + b;
      EntryOnto(e, [COMMA] + tail, b);
  }

  lemma {:induction false} EntryOnto(e: Entry, a: Bytes, b: Bytes)
    ensures PutEntry(e, a + b) == PutEntry(e, a) + b
    decreases e, 0
  {
    hide PutValue;
    P.PutOnto(e.ws, a, b);
    var x := Put(e.ws, a);
    ValueOnto(e.v, x, b);
    PrefixOnto(e.pre, PutValue(e.v, x), b);
  }

  lemma PrefixOnto(p: Prefix, a: Bytes, b: Bytes)
    ensures PutPrefix(p, a + b) == PutPrefix(p, a) + b
  {
    hide PutString;
    match p
    case NoKey(w1) => P.PutOnto(w1, a, b);
    case Key(w1, key, w2, w3) =>
      P.PutOnto(w3, a, b);
      var x3 := Put(w3, a);
      assert [COLON] + (x3 + b) == ([COLON] + x3) + b;
      P.PutOnto(w2, [COLON] + x3, b);
      var x2 := Put(w2, [COLON] + x3);
      StringOnto(key, x2, b);
      P.PutOnto(w1, PutString(key, x2), b);
  }

  lemma StringOnto(cs: List<StrChar>, a: Bytes, b: Bytes)
    ensures PutString(cs, a + b) == PutString(cs, a) + b
  {
    hide PutChars;
    assert [QUOTE] + (a + b) == ([QUOTE] + a) + b;
    CharsOnto(cs, [QUOTE] + a, b);
  }

  lemma {:induction false} CharsOnto(cs: List<StrChar>, a: Bytes, b: Bytes)
    ensures PutChars(cs, a + b) == PutChars(cs, a) + b
    decreases cs
  {
    if cs.Cons? {
      CharsOnto(cs.tail, a, b);
      var x := PutChars(cs.tail, a);
      CharText(cs.head, x + b);
      CharText(cs.head, x);
      assert PutChar(cs.head, []) + (x + b) == (PutChar(cs.head, []) + x) + b;
    }
  }

  lemma NumberOnto(n: Number, a: Bytes, b: Bytes)
    ensures PutNumber(n, a + b) == PutNumber(n, a) + b
  {
    hide PutNumber;
    P.NumberText(n, a + b);
    P.NumberText(n, a);
    assert PutNumber(n, []) + (a + b) == PutNumber(n, []) + a + b;
  }

  lemma DocOnto(d: Doc, rest: Bytes)
    ensures Put(d.before, PutValue(d.v, Put(d.after, rest))) == PutDoc(d) + rest
  {
    hide PutValue;
    assert [] + rest == rest;
    P.PutOnto(d.after, [], rest);
    var x := Put(d.after, []);
    ValueOnto(d.v, x, rest);
    P.PutOnto(d.before, PutValue(d.v, x), rest);
  }

  lemma ObjectText(k1: Bytes, name: Bytes, k2: Bytes, d: Doc, rest: Bytes)
    requires Simple(k1) && Simple(name) && Simple(k2) && WfDoc(d)
    ensures PutValue(ObjectCst(k1, name, k2, d), rest) == Object(k1, name, k2, PutDoc(d), rest)
  {
    hide PutEntry;
    hide PutDoc;
    hide Within;
    hide WfValue;
    hide Simple;
    hide TreeOf;
    hide Levels;
    hide Keyed;
    var r0 := [CLOSE_BRACE] + rest;
    DocOnto(d, r0);
    var second := Keyed(ONE_SPACE, k2, Cons(SPACE, d.before), d.v, d.after);
    KeyedText(ONE_SPACE, k2, Cons(SPACE, d.before), d.v, d.after, r0);
    assert Put(Cons(SPACE, d.before), PutValue(d.v, Put(d.after, r0))) == [SPACE] + (PutDoc(d) + r0);
    var r1 := Within(k2, [COLON] + ([SPACE] + (PutDoc(d) + r0)));
    OneSpace(r1);
    assert PutEntry(second, r0) == [SPACE] + r1;
    var r2 := [COMMA] + ([SPACE] + r1);
    NameText(k1, name, r2);
    var first := Keyed(Nil, k1, ONE_SPACE, Str(Raws(name)), Nil);
    var es := More(first, One(second));
    assert PutEntries(One(second), r0) == PutEntry(second, r0);
    assert PutEntries(es, r0) == PutEntry(first, r2);
    assert ObjectCst(k1, name, k2, d) == Full(Obj, es);
  }

  lemma NameText(k1: Bytes, name: Bytes, rest: Bytes)
    requires Simple(k1) && Simple(name)
    ensures var e := Keyed(Nil, k1, ONE_SPACE, Str(Raws(name)), Nil);
            && WfEntry(Obj, e) && MemberOf(e) == Member(k1, Text(name)) && EntryLevels(e) == 1
            && PutEntry(e, rest) == Within(k1, [COLON] + ([SPACE] + Within(name, rest)))
  {
    hide Simple;
    hide Within;
    hide Keyed;
    SimpleRaws(name, rest);
    KeyedText(Nil, k1, ONE_SPACE, Str(Raws(name)), Nil, rest);
    OneSpace(Within(name, rest));
  }

  lemma ObjectIsRead(k1: Bytes, name: Bytes, k2: Bytes, d: Doc)
    requires Simple(k1) && Simple(name) && Simple(k2) && WfDoc(d) && Levels(d.v) < MAX_LEVELS
    ensures ReadTree(Object(k1, name, k2, PutDoc(d), [])) ==
        Some(Members([Member(k1, Text(name)), Member(k2, TreeOf(d.v))]))
  {
    hide ReadDoc;
    hide MemberOf;
    hide WfEntry;
    hide PutEntry;
    hide WfValue;
    hide Keyed;
    hide Simple;
    hide PutDoc;
    var b := ObjectCst(k1, name, k2, d);
    ObjectIsWf(k1, name, k2, d);
    ObjectText(k1, name, k2, d, []);
    DocReadBack(Doc(Nil, b, Nil));
    WholeDoc(b);
  }

  lemma WholeDoc(v: Value)
    ensures PutDoc(Doc(Nil, v, Nil)) == PutValue(v, [])
  {
  }

  lemma ObjectIsWf(k1: Bytes, name: Bytes, k2: Bytes, d: Doc)
    requires Simple(k1) && Simple(name) && Simple(k2) && WfDoc(d)
    ensures var b := ObjectCst(k1, name, k2, d);
            && WfValue(b) && Levels(b) == 1 + Levels(d.v)
            && TreeOf(b) == Members([Member(k1, Text(name)), Member(k2, TreeOf(d.v))])
  {
    hide MemberOf;
    hide WfEntry;
    hide PutEntry;
    hide EntryLevels;
    hide Keyed;
    hide Simple;
    NameText(k1, name, []);
    KeyedText(ONE_SPACE, k2, Cons(SPACE, d.before), d.v, d.after, []);
    var es := ObjectCst(k1, name, k2, d).es;
    assert Levels(d.v) >= 1;
    assert EntriesLevels(es.rest) == Levels(d.v);
    assert MembersOf(es.rest) == [Member(k2, TreeOf(d.v))];
    assert MembersOf(es) == [Member(k1, Text(name))] + MembersOf(es.rest);
  }

  lemma TrimmedBody(name: Bytes, args: Bytes)
    ensures TrimEnd(R.SkipSpace(Body(name, args))) == Object(NAME, name, ARGUMENTS, args, [])
  {
    hide Object;
    var inside := Object(NAME, name, ARGUMENTS, args, []);
    ObjectEnds(NAME, name, ARGUMENTS, args);
    ObjectOnto(NAME, name, ARGUMENTS, args, [R.NEWLINE]);
    assert Body(name, args)[1..] == inside + [R.NEWLINE];
    assert (inside + [R.NEWLINE])[..|inside|] == inside;
  }

  lemma WithinOnto(s: Bytes, a: Bytes, b: Bytes)
    ensures Within(s, a + b) == Within(s, a) + b
  {
    assert [QUOTE] + (a + b) == ([QUOTE] + a) + b;
    assert s + (([QUOTE] + a) + b) == (s + ([QUOTE] + a)) + b;
  }

  lemma TwoOnto(x: Byte, y: Byte, a: Bytes, b: Bytes)
    ensures [x] + ([y] + (a + b)) == ([x] + ([y] + a)) + b
  {
  }

  lemma ObjectOnto(k1: Bytes, name: Bytes, k2: Bytes, args: Bytes, b: Bytes)
    ensures Object(k1, name, k2, args, b) == Object(k1, name, k2, args, []) + b
  {
    hide Within;
    var x0 := args + ([CLOSE_BRACE] + []);
    assert args + ([CLOSE_BRACE] + b) == x0 + b;
    TwoOnto(COLON, SPACE, x0, b);
    var x1 := [COLON] + ([SPACE] + x0);
    WithinOnto(k2, x1, b);
    TwoOnto(COMMA, SPACE, Within(k2, x1), b);
    var x2 := [COMMA] + ([SPACE] + Within(k2, x1));
    WithinOnto(name, x2, b);
    TwoOnto(COLON, SPACE, Within(name, x2), b);
    var x3 := [COLON] + ([SPACE] + Within(name, x2));
    WithinOnto(k1, x3, b);
    assert [OPEN_BRACE] + (Within(k1, x3) + b) == ([OPEN_BRACE] + Within(k1, x3)) + b;
  }

  lemma ObjectEnds(k1: Bytes, name: Bytes, k2: Bytes, args: Bytes)
    ensures var o := Object(k1, name, k2, args, []);
            o != [] && o[0] == OPEN_BRACE && o[|o| - 1] == CLOSE_BRACE
  {
    hide Within;
    var x0 := args + ([CLOSE_BRACE] + []);
    var x1 := [COLON] + ([SPACE] + x0);
    var x2 := [COMMA] + ([SPACE] + Within(k2, x1));
    var x3 := [COLON] + ([SPACE] + Within(name, x2));
    LastWithin(k2, x1);
    LastWithin(name, x2);
    LastWithin(k1, x3);
  }

  lemma LastWithin(s: Bytes, rest: Bytes)
    requires rest != []
    ensures Within(s, rest) != [] && Within(s, rest)[|Within(s, rest)| - 1] == rest[|rest| - 1]
  {
  }

  /** A call's body, its arguments the text of any object, is read as that call, its arguments as they are written. */
  lemma BodyReadsBack(f: Floats, name: Bytes, d: Doc)
    requires Sound(f) && Simple(name) && WfDoc(d)
    requires (d.v.Empty? || d.v.Full?) && d.v.kind.Obj? && Levels(d.v) < MAX_LEVELS
    ensures CallOf(f, Body(name, PutDoc(d))) == Some(R.ToolCall(name, Plain(Norm(f, TreeOf(d.v)))))
  {
    hide Norm;
    hide Plain;
    hide Sound;
    hide PutDoc;
    hide Body;
    hide Object;
    hide ReadTree;
    hide R.SkipSpace;
    hide TrimEnd;
    TrimmedBody(name, PutDoc(d));
    ObjectIsRead(NAME, name, ARGUMENTS, d);
    var ms := [Member(NAME, Text(name)), Member(ARGUMENTS, TreeOf(d.v))];
    GetBoth(NAME, Text(name), ARGUMENTS, TreeOf(d.v));
    assert |NAME| != |ARGUMENTS|;
  }

  lemma GetBoth(k1: Bytes, v1: Tree, k2: Bytes, v2: Tree)
    requires |k1| != |k2|
    ensures var t := Members([Member(k1, v1), Member(k2, v2)]); Get(t, k1) == Some(v1) && Get(t, k2) == Some(v2)
  {
    var ms := [Member(k1, v1), Member(k2, v2)];
    assert ms[1..] == [Member(k2, v2)];
    assert FirstWith(ms, k2) == FirstWith(ms[1..], k2);
    assert FirstWith([Member(k2, v2)], k2) == Some(v2);
  }

  // ---- Any call ----

  /** Arguments that are an object of finite numbers, or the text of an object, or none. */
  predicate GoodArguments(f: Floats, args: Option<Tree>)
    requires Sound(f)
  {
    match args
    case None => true
    case Some(Members(_)) => T.Clean(args.value, false) && T.AllFinite(f, args.value) &&
        T.TreeLevels(args.value) < MAX_LEVELS
    case Some(Text(s)) => IsObjectText(s)
    case _ => false
  }

  predicate IsObjectText(s: Bytes) {
    var d := ReadDoc(s);
    d.Some? && (d.value.v.Empty? || d.value.v.Full?) && d.value.v.kind.Obj? && Levels(d.value.v) < MAX_LEVELS
  }

  /** The object that arguments are. */
  function Meant(args: Option<Tree>): Tree {
    match args
    case None => Members([])
    case Some(t) => if t.Text? && ReadTree(t.s).Some? then ReadTree(t.s).value else t
  }

  predicate GoodCall(f: Floats, call: Tree)
    requires Sound(f)
  {
    var fn := Unwrapped(call);
    var name := Get(fn, NAME);
    name.Some? && name.value.Text? && Simple(name.value.s) && GoodArguments(f, Get(fn, ARGUMENTS))
  }

  /** What reading a call back gives: its name, and its arguments as Python writes them. */
  function CallRead(f: Floats, call: Tree): R.ToolCall
    requires Sound(f) && GoodCall(f, call)
  {
    var fn := Unwrapped(call);
    R.ToolCall(Get(fn, NAME).value.s, Plain(Norm(f, Meant(Get(fn, ARGUMENTS)))))
  }

  lemma ArgumentsAsDoc(f: Floats, args: Option<Tree>) returns (d: Doc)
    requires Sound(f) && GoodArguments(f, args)
    ensures WfDoc(d) && (d.v.Empty? || d.v.Full?) && d.v.kind.Obj? && Levels(d.v) < MAX_LEVELS
    ensures PutDoc(d) == Shown(f, args, EMPTY_OBJECT)
    ensures Plain(Norm(f, TreeOf(d.v))) == Plain(Norm(f, Meant(args)))
  {
    hide ReadTree;
    match args
    case None => d := Doc(Nil, Empty(Obj, Nil), Nil);
    case Some(Members(_)) =>
      var n := Norm(f, args.value);
      T.NormIsClean(f, args.value);
      T.NormTwice(f, args.value);
      T.CstWf(n);
      T.CstText(n, []);
      assert Plain(n) + [] == Plain(n);
      d := Doc(Nil, T.Cst(n), Nil);
    case Some(Text(s)) =>
      ReadDocWrites(s);
      d := ReadDoc(s).value;
      TextOfObject(s);
    case Some(Atom(_)) => assert false;
    case Some(Numeral(_)) => assert false;
    case Some(Items(_)) => assert false;
  }

  lemma TextOfObject(s: Bytes)
    requires IsObjectText(s)
    ensures WfValue(ReadDoc(s).value.v) && ReadTree(s) == Some(TreeOf(ReadDoc(s).value.v))
  {
    ReadDocWrites(s);
  }

  /** A call the template wrote is read back as that call. */
  lemma CallRoundTrip(f: Floats, call: Tree)
    requires Sound(f) && GoodCall(f, call)
    ensures CallOf(f, BodyOf(f, call)) == Some(CallRead(f, call))
  {
    hide GoodArguments;
    hide Norm;
    hide Plain;
    hide PutDoc;
    hide Levels;
    hide Meant;
    hide CallOf;
    var fn := Unwrapped(call);
    var d := ArgumentsAsDoc(f, Get(fn, ARGUMENTS));
    BodyReadsBack(f, Get(fn, NAME).value.s, d);
  }
}
