/**
 * Writing JSON and reading it back: what is written is read as the tree with
 * its repeated keys merged and its numbers as Python prints them, exactly
 * when every number written is finite; written again it is the same bytes;
 * and the automaton calls it whole if it is an object within its limits.
 */
module JsonRoundTrip {
  import opened Basics
  import opened JsonGrammar
  import opened JsonReader
  import opened JsonTree
  import opened JsonWriter
  import opened FloatRepr
  import opened JsonMeans
  import P = JsonParser
  import A = JsonPrefix
  import G = JsonAgrees

  // ---- Trees whose numbers are numbers ----

  const MINUS_INFINITY: Bytes := [MINUS] + INFINITY

  predicate IsInfinity(lit: Bytes) { lit == INFINITY || lit == MINUS_INFINITY }

  /** Whether a tree's numbers are numbers, or may be infinities too. */
  predicate Clean(t: Tree, wild: bool)
    decreases t, 0
  {
    match t
    case Atom(_) => true
    case Text(_) => true
    case Numeral(lit) => IsNumber(lit) || (wild && IsInfinity(lit))
    case Items(xs) => CleanItems(xs, wild)
    case Members(ms) => CleanMembers(ms, wild)
  }

  predicate CleanItems(xs: seq<Tree>, wild: bool)
    decreases xs, 0
  {
    xs == [] || (Clean(xs[0], wild) && CleanItems(xs[1..], wild))
  }

  predicate CleanMember(m: Member, wild: bool)
    decreases m, 0
  {
    Clean(m.value, wild)
  }

  predicate CleanMembers(ms: seq<Member>, wild: bool)
    decreases ms, 0
  {
    ms == [] || (CleanMember(ms[0], wild) && CleanMembers(ms[1..], wild))
  }

  /** How many values deep a tree goes, itself counted. */
  function TreeLevels(t: Tree): nat
    decreases t, 0
  {
    match t
    case Items(xs) => 1 + ItemsLevels(xs)
    case Members(ms) => 1 + MembersLevels(ms)
    case Atom(_) => 1
    case Numeral(_) => 1
    case Text(_) => 1
  }

  function ItemsLevels(xs: seq<Tree>): nat
    decreases xs, 0
  {
    if xs == [] then 0 else Max(TreeLevels(xs[0]), ItemsLevels(xs[1..]))
  }

  function MemberLevels(m: Member): nat
    decreases m, 0
  {
    TreeLevels(m.value)
  }

  function MembersLevels(ms: seq<Member>): nat
    decreases ms, 0
  {
    if ms == [] then 0 else Max(MemberLevels(ms[0]), MembersLevels(ms[1..]))
  }

  // ---- The derivation of what is written ----

  function Cst(t: Tree): Value
    requires Clean(t, false)
    decreases t, 0
  {
    match t
    case Atom(w) => Lit(w)
    case Text(s) => Str(CharsOf(s))
    case Numeral(lit) => Num(ReadNumber(lit).v)
    case Items(xs) => if xs == [] then Empty(Arr, Nil) else Full(Arr, CstItems(xs, true))
    case Members(ms) => if ms == [] then Empty(Obj, Nil) else Full(Obj, CstMembers(ms, true))
  }

  function Before(first: bool): List<Byte> { if first then Nil else Cons(SPACE, Nil) }

  function CstItems(xs: seq<Tree>, first: bool): Entries
    requires CleanItems(xs, false) && xs != []
    decreases xs, 0
  {
    var e := Entry(NoKey(Before(first)), Cst(xs[0]), Nil);
    if |xs| == 1 then One(e) else More(e, CstItems(xs[1..], false))
  }

  function CstMember(m: Member, first: bool): Entry
    requires CleanMember(m, false)
    decreases m, 0
  {
    Entry(Key(Before(first), CharsOf(m.key), Nil, Cons(SPACE, Nil)), Cst(m.value), Nil)
  }

  function CstMembers(ms: seq<Member>, first: bool): Entries
    requires CleanMembers(ms, false) && ms != []
    decreases ms, 0
  {
    if |ms| == 1 then One(CstMember(ms[0], first)) else More(CstMember(ms[0], first), CstMembers(ms[1..], false))
  }

  lemma {:induction false} CstWf(t: Tree)
    requires Clean(t, false)
    ensures WfValue(Cst(t)) && Levels(Cst(t)) == TreeLevels(t) && TreeOf(Cst(t)) == t
    decreases t, 0
  {
    match t
    case Atom(_) =>
    case Text(s) => EveryStringSurvives(s);
    case Numeral(lit) =>
    case Items(xs) => if xs != [] { CstItemsWf(xs, true); }
    case Members(ms) => if ms != [] { CstMembersWf(ms, true); }
  }

  lemma {:induction false} CstItemsWf(xs: seq<Tree>, first: bool)
    requires CleanItems(xs, false) && xs != []
    ensures var es := CstItems(xs, first);
            WfEntries(Arr, es) && EntriesLevels(es) == ItemsLevels(xs) && ItemsOf(es) == xs
    decreases xs, 0
  {
    CstWf(xs[0]);
    if |xs| > 1 {
      CstItemsWf(xs[1..], false);
      assert xs == [xs[0]] + xs[1..];
    } else {
      assert xs == [xs[0]];
    }
  }

  lemma {:induction false} CstMemberWf(m: Member, first: bool)
    requires CleanMember(m, false)
    ensures var e := CstMember(m, first);
            WfEntry(Obj, e) && EntryLevels(e) == MemberLevels(m) && MemberOf(e) == m
    decreases m, 0
  {
    EveryStringSurvives(m.key);
    CstWf(m.value);
  }

  lemma {:induction false} CstMembersWf(ms: seq<Member>, first: bool)
    requires CleanMembers(ms, false) && ms != []
    ensures var es := CstMembers(ms, first);
            WfEntries(Obj, es) && EntriesLevels(es) == MembersLevels(ms) && MembersOf(es) == ms
    decreases ms, 0
  {
    hide CstMember;
    hide MemberOf;
    hide WfEntry;
    CstMemberWf(ms[0], first);
    if |ms| > 1 {
      CstMembersWf(ms[1..], false);
      assert ms == [ms[0]] + ms[1..];
    } else {
      assert ms == [ms[0]];
    }
  }

  lemma {:induction false} CstText(t: Tree, rest: Bytes)
    requires Clean(t, false)
    ensures PutValue(Cst(t), rest) == Plain(t) + rest
    decreases t, 0
  {
    match t
    case Atom(w) => PutWord(w, rest);
    case Text(s) => QuotedText(s, rest);
    case Numeral(lit) => PutWhole(lit, rest);
    case Items(xs) =>
      var closed := [CLOSE_BRACKET] + rest;
      if xs != [] { CstItemsText(xs, true, closed); }
      Around(OPEN_BRACKET, PlainItems(xs, true), CLOSE_BRACKET, rest);
    case Members(ms) =>
      var closed := [CLOSE_BRACE] + rest;
      if ms != [] { CstMembersText(ms, true, closed); }
      Around(OPEN_BRACE, PlainMembers(ms, true), CLOSE_BRACE, rest);
  }

  lemma PutWord(w: Word, rest: Bytes)
    ensures Put(WordText(w), rest) == Put(WordText(w), []) + rest
  {
    P.PutSplit(WordText(w), rest);
  }

  /** A number's text is the number's, whatever comes after. */
  lemma PutWhole(lit: Bytes, rest: Bytes)
    requires IsNumber(lit)
    ensures PutNumber(ReadNumber(lit).v, rest) == lit + rest
  {
    P.NumberText(ReadNumber(lit).v, rest);
  }

  lemma Around(open: Byte, inside: Bytes, close: Byte, rest: Bytes)
    ensures [open] + (inside + ([close] + rest)) == [open] + inside + [close] + rest
  {
  }

  lemma {:induction false} CstItemsText(xs: seq<Tree>, first: bool, rest: Bytes)
    requires CleanItems(xs, false) && xs != []
    ensures (if first then [] else [COMMA]) + PutEntries(CstItems(xs, first), rest) == PlainItems(xs, first) + rest
    decreases xs, 0
  {
    hide Plain;
    hide Cst;
    hide PutValue;
    var next := if |xs| == 1 then rest else [COMMA] + PutEntries(CstItems(xs[1..], false), rest);
    CstText(xs[0], next);
    var tail := PlainItems(xs[1..], false);
    if |xs| > 1 {
      CstItemsText(xs[1..], false, rest);
    }
    assert next == tail + rest;
    Spaced(first, Plain(xs[0]), tail, rest);
  }

  lemma Spaced(first: bool, text: Bytes, tail: Bytes, rest: Bytes)
    ensures (if first then [] else [COMMA]) + Put(Before(first), text + (tail + rest)) ==
        Comma(first) + text + tail + rest
  {
    if !first { assert Put(Before(first), text + (tail + rest)) == [SPACE] + (text + (tail + rest)); }
  }

  lemma {:induction false} CstMembersText(ms: seq<Member>, first: bool, rest: Bytes)
    requires CleanMembers(ms, false) && ms != []
    ensures (if first then [] else [COMMA]) + PutEntries(CstMembers(ms, first), rest) == PlainMembers(ms, first) + rest
    decreases ms, 0
  {
    hide PlainMember;
    hide CstMember;
    hide PutEntry;
    var next := if |ms| == 1 then rest else [COMMA] + PutEntries(CstMembers(ms[1..], false), rest);
    CstMemberText(ms[0], first, next);
    var tail := PlainMembers(ms[1..], false);
    if |ms| > 1 {
      CstMembersText(ms[1..], false, rest);
    }
    assert next == tail + rest;
    Spaced(first, PlainMember(ms[0]), tail, rest);
  }

  lemma {:induction false} CstMemberText(m: Member, first: bool, rest: Bytes)
    requires CleanMember(m, false)
    ensures PutEntry(CstMember(m, first), rest) == Put(Before(first), PlainMember(m) + rest)
    decreases m, 0
  {
    hide Plain;
    hide Cst;
    hide PutValue;
    hide Quoted;
    hide PutString;
    CstText(m.value, rest);
    var x := Plain(m.value) + rest;
    var after := [COLON] + ([SPACE] + x);
    QuotedText(m.key, after);
    assert Put(Cons(SPACE, Nil), x) == [SPACE] + x;
    assert Quoted(m.key) + after == PlainMember(m) + rest;
  }

  // ---- What is written is read back ----

  lemma PlainReadBack(t: Tree, rest: Bytes, levels: nat)
    requires Clean(t, false) && TreeLevels(t) <= levels && NumberEnds(rest)
    ensures ReadValue(Plain(t) + rest, levels) == Ok(Cst(t), rest)
  {
    CstWf(t);
    CstText(t, rest);
    ValueReadBack(Cst(t), rest, levels);
  }

  /** A tree's text is read as that tree. */
  lemma ReadBack(t: Tree)
    requires Clean(t, false) && TreeLevels(t) <= MAX_LEVELS
    ensures ReadTree(Plain(t)) == Some(t)
  {
    CstWf(t);
    CstText(t, []);
    var d := Doc(Nil, Cst(t), Nil);
    assert Plain(t) + [] == Plain(t);
    assert PutDoc(d) == Plain(t);
    DocReadBack(d);
    PlainStarts(t, false);
  }

  lemma PlainStarts(t: Tree, wild: bool)
    requires Clean(t, wild)
    ensures var p := Plain(t);
            p != [] && !IsWs(p[0]) && p[0] != CLOSE_BRACE && p[0] != CLOSE_BRACKET && p[0] != COMMA && p[0] < 0x80
  {
    if t.Numeral? && IsNumber(t.lit) {
      var n := ReadNumber(t.lit).v;
      ValueStarts(Num(n), []);
      assert t.lit == PutNumber(n, []);
      assert t.lit[0] == MINUS || IsDigit(t.lit[0]);
    }
  }

  // ---- An infinity is not JSON ----

  lemma InfinityIsBad(lit: Bytes, rest: Bytes, levels: nat)
    requires IsInfinity(lit)
    ensures ReadValue(lit + rest, levels).Bad? && !IsNumber(lit)
  {
    var t := lit + rest;
    assert t[0] == lit[0];
    if lit == INFINITY {
      assert t[0] == 0x49;
    } else {
      assert t[0] == MINUS && t[1..][0] == t[1] == lit[1] == 0x49;
      assert lit[1..][0] == 0x49;
    }
  }

  lemma {:induction false} DirtyIsBad(t: Tree, rest: Bytes, levels: nat)
    requires Clean(t, true) && !Clean(t, false) && TreeLevels(t) <= levels
    ensures ReadValue(Plain(t) + rest, levels).Bad?
    decreases t, 1
  {
    hide ReadValue;
    hide ReadEntries;
    match t
    case Atom(_) => assert false;
    case Text(_) => assert false;
    case Numeral(lit) => InfinityIsBad(lit, rest, levels);
    case Items(xs) =>
      var inside := PlainItems(xs, true) + ([CLOSE_BRACKET] + rest);
      Around(OPEN_BRACKET, PlainItems(xs, true), CLOSE_BRACKET, rest);
      PlainStarts(xs[0], true);
      assert inside[0] == Plain(xs[0])[0];
      DirtyItems(xs, [CLOSE_BRACKET] + rest, levels - 1);
      ContainerIsBad(Arr, inside, levels);
    case Members(ms) =>
      var inside := PlainMembers(ms, true) + ([CLOSE_BRACE] + rest);
      Around(OPEN_BRACE, PlainMembers(ms, true), CLOSE_BRACE, rest);
      MemberStarts(ms[0]);
      assert inside[0] == PlainMember(ms[0])[0];
      DirtyMembers(ms, [CLOSE_BRACE] + rest, levels - 1);
      ContainerIsBad(Obj, inside, levels);
  }

  lemma MemberStarts(m: Member)
    ensures PlainMember(m) != [] && PlainMember(m)[0] == QUOTE
  {
  }

  lemma ContainerIsBad(k: Kind, inside: Bytes, levels: nat)
    requires levels > 0 && inside != [] && !IsWs(inside[0]) && inside[0] != Closer(k)
    requires ReadEntries(k, inside, levels - 1).Bad?
    ensures ReadValue([Opener(k)] + inside, levels).Bad?
  {
    hide ReadEntries;
    NoWs(inside);
    assert ([Opener(k)] + inside)[1..] == inside;
    assert ReadValue([Opener(k)] + inside, levels) == ReadContainer(k, inside, levels);
  }

  /** What comes before an entry but for the comma. */
  function Blank(first: bool): Bytes { if first then [] else [SPACE] }

  lemma BlankRead(first: bool, t: Bytes)
    requires t != [] && !IsWs(t[0])
    ensures ReadWs(Blank(first) + t).1 == t
  {
    if first {
      assert Blank(first) + t == t;
    } else {
      assert ([SPACE] + t)[1..] == t;
    }
  }

  lemma {:induction false} DirtyItems(xs: seq<Tree>, rest: Bytes, levels: nat)
    requires CleanItems(xs, true) && !CleanItems(xs, false) && ItemsLevels(xs) <= levels && rest != [] && !IsWs(rest[0])
    ensures ReadEntries(Arr, PlainItems(xs, true) + rest, levels).Bad?
    ensures ReadEntries(Arr, [SPACE] + (PlainItems(xs, true) + rest), levels).Bad?
    decreases xs, 0
  {
    hide Plain;
    hide PlainItems;
    hide ReadEntry;
    hide ReadEntries;
    hide ReadValue;
    hide Cst;
    var more := PlainItems(xs[1..], false) + rest;
    var t1 := Plain(xs[0]) + more;
    ItemsText(xs, rest);
    if !Clean(xs[0], false) {
      DirtyIsBad(xs[0], more, levels);
    } else {
      DirtyItems(xs[1..], rest, levels);
      PlainReadBack(xs[0], more, levels);
    }
    ItemRead(xs[0], more, levels);
    BadEntries(Arr, t1, levels);
    BadEntries(Arr, [SPACE] + t1, levels);
  }

  lemma ItemsText(xs: seq<Tree>, rest: Bytes)
    requires xs != [] && rest != [] && !IsWs(rest[0])
    ensures var more := PlainItems(xs[1..], false) + rest;
            && PlainItems(xs, true) + rest == Plain(xs[0]) + more
            && more != [] && !IsWs(more[0])
            && (|xs| > 1 ==> more[0] == COMMA && more[1..] == [SPACE] + (PlainItems(xs[1..], true) + rest))
  {
    hide Plain;
    hide PlainItems;
    PlainFirst(xs, true);
    NoGap(Plain(xs[0]), PlainItems(xs[1..], false), rest);
    PlainNone();
    if |xs| > 1 {
      PlainFirst(xs[1..], true);
      PlainFirst(xs[1..], false);
      WithGap(Plain(xs[1]), PlainItems(xs[1..][1..], false), rest);
    } else {
      assert xs[1..] == [] && [] + rest == rest;
    }
  }

  lemma PlainFirst(xs: seq<Tree>, first: bool)
    requires xs != []
    ensures PlainItems(xs, first) == Comma(first) + Plain(xs[0]) + PlainItems(xs[1..], false)
  {
  }

  lemma PlainNone()
    ensures PlainItems([], false) == []
  {
  }

  lemma NoGap(a: Bytes, b: Bytes, rest: Bytes)
    ensures [] + a + b + rest == a + (b + rest)
  {
  }

  lemma WithGap(a: Bytes, b: Bytes, rest: Bytes)
    ensures SEPARATOR + a + b + rest == [COMMA] + ([SPACE] + ([] + a + b + rest))
  {
  }

  /** Entries are not read if the first is not, or those after it are not. */
  lemma BadEntries(k: Kind, t: Bytes, levels: nat)
    ensures var e := ReadEntry(k, t, levels);
            && (e.Bad? ==> ReadEntries(k, t, levels).Bad?)
            && (e.Ok? && e.rest != [] && e.rest[0] == COMMA && ReadEntries(k, e.rest[1..], levels).Bad? ==>
                ReadEntries(k, t, levels).Bad?)
  {
  }

  /** An item is read as its value is, spaced or not. */
  lemma ItemRead(x: Tree, rest: Bytes, levels: nat)
    requires Clean(x, true) && rest != [] && !IsWs(rest[0])
    ensures var r, t := ReadValue(Plain(x) + rest, levels), Plain(x) + rest;
            && (r.Bad? ==> ReadEntry(Arr, t, levels).Bad? && ReadEntry(Arr, [SPACE] + t, levels).Bad?)
            && (r.Ok? && r.rest == rest ==>
                  var plain, spaced := ReadEntry(Arr, t, levels), ReadEntry(Arr, [SPACE] + t, levels);
                  plain.Ok? && plain.rest == rest && spaced.Ok? && spaced.rest == rest)
  {
    hide Plain;
    hide ReadValue;
    hide ReadWs;
    PlainStarts(x, true);
    var t := Plain(x) + rest;
    BlankRead(true, t);
    BlankRead(false, t);
    assert [] + t == t;
    NoWs(rest);
  }

  lemma NoWs(t: Bytes)
    requires t != [] && !IsWs(t[0])
    ensures ReadWs(t).1 == t
  {
  }

  lemma {:induction false} DirtyMembers(ms: seq<Member>, rest: Bytes, levels: nat)
    requires CleanMembers(ms, true) && !CleanMembers(ms, false) && MembersLevels(ms) <= levels
    ensures ReadEntries(Obj, PlainMembers(ms, true) + rest, levels).Bad?
    ensures ReadEntries(Obj, [SPACE] + (PlainMembers(ms, true) + rest), levels).Bad?
    decreases ms, 0
  {
    hide PlainMember;
    hide ReadEntry;
    hide ReadEntries;
    var more := PlainMembers(ms[1..], false) + rest;
    var t1 := PlainMember(ms[0]) + more;
    assert PlainMembers(ms, true) + rest == t1;
    if !CleanMember(ms[0], false) {
      DirtyMember(ms[0], more, levels);
    } else {
      DirtyMembers(ms[1..], rest, levels);
      assert more == [COMMA] + ([SPACE] + (PlainMembers(ms[1..], true) + rest));
      MemberReadBack(ms[0], true, more, levels);
      MemberReadBack(ms[0], false, more, levels);
      assert more[1..] == [SPACE] + (PlainMembers(ms[1..], true) + rest);
    }
    BadEntries(Obj, t1, levels);
    BadEntries(Obj, [SPACE] + t1, levels);
  }

  lemma MemberReadBack(m: Member, first: bool, rest: Bytes, levels: nat)
    requires CleanMember(m, false) && MemberLevels(m) <= levels && rest != [] && rest[0] == COMMA
    ensures ReadEntry(Obj, Blank(first) + (PlainMember(m) + rest), levels) == Ok(CstMember(m, first), rest)
    ensures first ==> Blank(first) + (PlainMember(m) + rest) == PlainMember(m) + rest
    ensures !first ==> Blank(first) + (PlainMember(m) + rest) == [SPACE] + (PlainMember(m) + rest)
  {
    CstMemberWf(m, first);
    CstMemberText(m, first, rest);
    EntryReadBack(Obj, CstMember(m, first), rest, levels);
    assert Put(Before(first), PlainMember(m) + rest) == Blank(first) + (PlainMember(m) + rest) by {
      if !first { assert Put(Cons(SPACE, Nil), PlainMember(m) + rest) == [SPACE] + (PlainMember(m) + rest); }
    }
  }

  lemma {:induction false} DirtyMember(m: Member, rest: Bytes, levels: nat)
    requires CleanMember(m, true) && !CleanMember(m, false) && MemberLevels(m) <= levels
    ensures ReadEntry(Obj, PlainMember(m) + rest, levels).Bad?
    ensures ReadEntry(Obj, [SPACE] + (PlainMember(m) + rest), levels).Bad?
    decreases m, 0
  {
    hide Plain;
    hide ReadValue;
    hide Quoted;
    DirtyIsBad(m.value, rest, levels);
    EveryStringSurvives(m.key);
    PlainStarts(m.value, true);
    var x := Plain(m.value) + rest;
    var after := [COLON] + ([SPACE] + x);
    QuotedText(m.key, after);
    var t1 := PlainMember(m) + rest;
    assert t1 == PutString(CharsOf(m.key), after);
    var pre := Key(Nil, CharsOf(m.key), Nil, Cons(SPACE, Nil));
    assert Put(Cons(SPACE, Nil), x) == [SPACE] + x;
    PrefixReadBack(Obj, pre, x);
    assert PutPrefix(pre, x) == t1;
    var spaced := pre.(w1 := Cons(SPACE, Nil));
    PrefixReadBack(Obj, spaced, x);
    assert PutPrefix(spaced, x) == [SPACE] + t1;
  }

  // ---- Trees that were read ----

  lemma {:induction false} ReadIsClean(v: Value)
    requires WfValue(v)
    ensures Clean(TreeOf(v), false) && TreeLevels(TreeOf(v)) == Levels(v)
    decreases v, 0
  {
    match v
    case Str(_) =>
    case Lit(_) =>
    case Num(n) => NumberReadBack(n, []);
    case Empty(_, _) =>
    case Full(k, es) => if k.Arr? { ItemsAreClean(es); } else { MembersAreClean(es); }
  }

  lemma {:induction false} ItemsAreClean(es: Entries)
    requires WfEntries(Arr, es)
    ensures CleanItems(ItemsOf(es), false) && ItemsLevels(ItemsOf(es)) == EntriesLevels(es)
    decreases es, 0
  {
    assert WfEntry(Arr, es.e);
    ReadIsClean(es.e.v);
    var xs := ItemsOf(es);
    if es.More? {
      ItemsAreClean(es.rest);
      assert xs[1..] == ItemsOf(es.rest);
    } else {
      assert xs[1..] == [];
    }
  }

  lemma {:induction false} MembersAreClean(es: Entries)
    requires WfEntries(Obj, es)
    ensures CleanMembers(MembersOf(es), false) && MembersLevels(MembersOf(es)) == EntriesLevels(es)
    decreases es, 0
  {
    assert WfEntry(Obj, es.e);
    ReadIsClean(es.e.v);
    assert MemberOf(es.e).value == TreeOf(es.e.v);
    var ms := MembersOf(es);
    if es.More? {
      MembersAreClean(es.rest);
      assert ms[1..] == MembersOf(es.rest);
    } else {
      assert ms[1..] == [];
    }
  }

  // ---- Numbers written ----

  lemma {:induction false} InPut(l: List<Byte>, b: Byte, rest: Bytes)
    requires b in rest
    ensures b in Put(l, rest)
    decreases l
  {
    if l.Cons? {
      InPut(l.tail, b, rest);
      assert Put(l, rest)[1..] == Put(l.tail, rest);
    }
  }

  lemma FloatText(n: Number)
    requires WfNumber(n) && IsFloat(n)
    ensures !IntText(PutNumber(n, []))
  {
    var e := PutExp(n.exp, []);
    var f := PutFrac(n.frac, e);
    assert DOT in f || LOWER_E in f || UPPER_E in f;
    var b :| b in f && (b == DOT || b == LOWER_E || b == UPPER_E);
    InPut(n.whole, b, f);
    assert b in PutUnsigned(n, []);
  }

  predicate FiniteNumber(f: Floats, lit: Bytes)
    requires IsNumber(lit)
  {
    IntText(lit) || ReadDouble(f, ReadNumber(lit).v).Finite?
  }

  /** A number is written as a number that is written the same again, or as an infinity. */
  lemma NumberWritten(f: Floats, lit: Bytes)
    requires Sound(f) && IsNumber(lit)
    ensures var text := NumberText(f, lit);
            if FiniteNumber(f, lit) then IsNumber(text) && FiniteNumber(f, text) && NumberText(f, text) == text
            else IsInfinity(text) && !IsNumber(text)
  {
    hide ReadNumber;
    var n := ReadNumber(lit).v;
    ZeroIsNumber();
    if !IntText(lit) {
      var x := ReadDouble(f, n);
      if x.Finite? {
        ReprAgain(f, n);
        var m := ReprNumber(f, x.neg, x.size);
        NumberReadBack(m, []);
        FloatText(m);
      } else {
        InfinityIsBad(NumberText(f, lit), [], 1);
      }
    }
  }

  lemma ZeroIsNumber()
    ensures IsNumber([ZERO]) && IntText([ZERO])
  {
    var n := Number(false, Cons(ZERO, Nil), Nil, NoExp);
    NumberReadBack(n, []);
    assert PutNumber(n, []) == [ZERO];
  }

  // ---- Trees written ----

  /** Whether every number written, of the values that are kept, is finite. */
  predicate AllFinite(f: Floats, t: Tree)
    requires Clean(t, false)
    decreases t, 0
  {
    match t
    case Atom(_) => true
    case Text(_) => true
    case Numeral(lit) => FiniteNumber(f, lit)
    case Items(xs) => FiniteItems(f, xs)
    case Members(ms) => FiniteMembers(f, ms, 0)
  }

  predicate FiniteItems(f: Floats, xs: seq<Tree>)
    requires CleanItems(xs, false)
    decreases xs, 0
  {
    xs == [] || (AllFinite(f, xs[0]) && FiniteItems(f, xs[1..]))
  }

  predicate FiniteMember(f: Floats, m: Member)
    requires CleanMember(m, false)
    decreases m, 0
  {
    AllFinite(f, m.value)
  }

  predicate FiniteMembers(f: Floats, ms: seq<Member>, i: nat)
    requires CleanMembers(ms, false) && i <= |ms|
    decreases ms, |ms| - i
  {
    if i == |ms| then true
    else if Seen(ms, i) then FiniteMembers(f, ms, i + 1)
    else
      var j := Last(ms, ms[i].key, i + 1, i);
      CleanAt(ms, j);
      FiniteMember(f, ms[j]) && FiniteMembers(f, ms, i + 1)
  }

  lemma {:induction false} CleanAt(ms: seq<Member>, j: nat)
    requires CleanMembers(ms, false) && j < |ms|
    ensures CleanMember(ms[j], false) && MemberLevels(ms[j]) <= MembersLevels(ms)
    decreases j
  {
    if j > 0 { CleanAt(ms[1..], j - 1); }
  }

  lemma {:induction false} NormIsClean(f: Floats, t: Tree)
    requires Sound(f) && Clean(t, false)
    ensures var n := Norm(f, t);
            Clean(n, true) && TreeLevels(n) <= TreeLevels(t) && (Clean(n, false) <==> AllFinite(f, t))
    decreases t, 0
  {
    match t
    case Atom(_) =>
    case Text(_) =>
    case Numeral(lit) => NumberWritten(f, lit);
    case Items(xs) => NormItemsClean(f, xs);
    case Members(ms) => NormMembersClean(f, ms, 0);
  }

  lemma {:induction false} NormItemsClean(f: Floats, xs: seq<Tree>)
    requires Sound(f) && CleanItems(xs, false)
    ensures var ns := NormItems(f, xs);
            CleanItems(ns, true) && ItemsLevels(ns) <= ItemsLevels(xs) &&
                (CleanItems(ns, false) <==> FiniteItems(f, xs))
    decreases xs, 0
  {
    if xs != [] {
      NormIsClean(f, xs[0]);
      NormItemsClean(f, xs[1..]);
      assert NormItems(f, xs)[1..] == NormItems(f, xs[1..]);
    }
  }

  lemma {:induction false} NormMemberClean(f: Floats, m: Member)
    requires Sound(f) && CleanMember(m, false)
    ensures var n := NormMember(f, m);
            CleanMember(n, true) && MemberLevels(n) <= MemberLevels(m) &&
                (CleanMember(n, false) <==> FiniteMember(f, m))
    decreases m, 0
  {
    NormIsClean(f, m.value);
  }

  lemma {:induction false} NormMembersClean(f: Floats, ms: seq<Member>, i: nat)
    requires Sound(f) && CleanMembers(ms, false) && i <= |ms|
    ensures var ns := NormMembers(f, ms, i);
            CleanMembers(ns, true) && MembersLevels(ns) <= MembersLevels(ms) &&
                (CleanMembers(ns, false) <==> FiniteMembers(f, ms, i))
    decreases ms, |ms| - i
  {
    hide Seen;
    hide Last;
    hide CleanMember;
    hide MemberLevels;
    hide NormMember;
    hide FiniteMember;
    hide Sound;
    if i < |ms| {
      NormMembersClean(f, ms, i + 1);
      if !Seen(ms, i) {
        var j := Last(ms, ms[i].key, i + 1, i);
        CleanAt(ms, j);
        NormMemberClean(f, ms[j]);
        assert NormMembers(f, ms, i)[1..] == NormMembers(f, ms, i + 1);
      }
    }
  }

  // ---- What is written means what was read ----

  /** What is read of a number without a fraction or an exponent has none of their bytes. */
  lemma {:induction false} DigitsPlain(ds: List<Byte>, rest: Bytes)
    requires WfDigits(ds) && IntText(rest)
    ensures IntText(Put(ds, rest))
    decreases ds
  {
    if ds.Cons? {
      DigitsPlain(ds.tail, rest);
      assert Put(ds, rest) == [ds.head] + Put(ds.tail, rest);
    }
  }

  lemma IntTextIs(lit: Bytes)
    requires IsNumber(lit)
    ensures WfNumber(ReadNumber(lit).v) && PutNumber(ReadNumber(lit).v, []) == lit
    ensures IntText(lit) <==> !IsFloat(ReadNumber(lit).v)
  {
    var n := ReadNumber(lit).v;
    PutWhole(lit, []);
    assert lit + [] == lit;
    if IsFloat(n) { FloatText(n); } else { DigitsPlain(n.whole, []); }
  }

  /** A number is written as one that means the same. */
  lemma NumberKept(f: Floats, lit: Bytes)
    requires Sound(f) && IsNumber(lit) && FiniteNumber(f, lit)
    ensures SameNumber(f, lit, NumberText(f, lit))
  {
    IntTextIs(lit);
    var n := ReadNumber(lit).v;
    if !IntText(lit) {
      ReprAgain(f, n);
      NumberReadBack(ReprNumber(f, n.minus, ReadDouble(f, n).size), []);
    } else if lit == MINUS_ZERO {
      MinusZeroRead();
    } else if Digits(0, n.whole) == 0 {
      ZeroIsZero(n);
      assert n.minus ==> lit == MINUS_ZERO;
    }
  }

  lemma MinusZeroRead()
    ensures ReadNumber(MINUS_ZERO) == Ok(Number(true, Cons(ZERO, Nil), Nil, NoExp), [])
    ensures ReadNumber([ZERO]) == Ok(Number(false, Cons(ZERO, Nil), Nil, NoExp), [])
  {
    var zero := Number(false, Cons(ZERO, Nil), Nil, NoExp);
    NumberReadBack(zero, []);
    NumberReadBack(zero.(minus := true), []);
    assert PutNumber(zero, []) == [ZERO] && PutNumber(zero.(minus := true), []) == MINUS_ZERO;
  }

  /** A tree is written as one that means the same. */
  lemma {:induction false} NormAlike(f: Floats, t: Tree)
    requires Sound(f) && Clean(t, false) && AllFinite(f, t)
    ensures Alike(f, t, Norm(f, t))
    decreases t, 0
  {
    match t
    case Atom(_) =>
    case Text(_) =>
    case Numeral(lit) => NumberKept(f, lit);
    case Items(xs) => ItemsAlike(f, xs);
    case Members(ms) =>
      var d := MembersAlike(f, ms, 0);
      NormAsDict(f, ms, NormMembers(f, ms, 0), d);
  }

  lemma {:induction false} ItemsAlike(f: Floats, xs: seq<Tree>)
    requires Sound(f) && CleanItems(xs, false) && FiniteItems(f, xs)
    ensures AllAlike(f, xs, NormItems(f, xs))
    decreases xs, 0
  {
    hide Norm;
    hide Alike;
    if xs != [] {
      NormAlike(f, xs[0]);
      ItemsAlike(f, xs[1..]);
      var us := NormItems(f, xs);
      assert us[1..] == NormItems(f, xs[1..]);
      forall i | 0 <= i < |xs|
        ensures Alike(f, xs[i], us[i])
      {
        if i > 0 { assert xs[i] == xs[1..][i - 1] && us[i] == us[1..][i - 1]; }
      }
    }
  }

  /** A member written comes from these places, from i on. */
  ghost predicate Comes(f: Floats, ms: seq<Member>, i: nat, p: Places, u: Member) {
    && i <= p.first <= p.last < |ms| && ms[p.first].key == ms[p.last].key == u.key
    && !Seen(ms, p.first) && IsLast(ms, p.last) && MemberAlike(f, ms[p.last], u)
  }

  /** Where the members written from i on come from. */
  ghost predicate Written(f: Floats, ms: seq<Member>, i: nat, us: seq<Member>, d: seq<Places>) {
    && |d| == |us| && i <= |ms|
    && (forall a :: 0 <= a < |d| ==> Comes(f, ms, i, d[a], us[a]))
    && (forall a, b :: 0 <= a < b < |d| ==> d[a].first < d[b].first)
    && (forall k :: i <= k < |ms| && !Seen(ms, k) ==> exists a :: 0 <= a < |d| && d[a].first == k)
  }

  lemma {:induction false} MembersAlike(f: Floats, ms: seq<Member>, i: nat) returns (d: seq<Places>)
    requires Sound(f) && CleanMembers(ms, false) && i <= |ms| && FiniteMembers(f, ms, i)
    ensures Written(f, ms, i, NormMembers(f, ms, i), d)
    decreases ms, |ms| - i
  {
    hide MemberAlike;
    hide NormMember;
    hide Sound;
    hide Written;
    d := [];
    if i == |ms| {
      NothingWritten(f, ms);
    } else if Seen(ms, i) {
      d := MembersAlike(f, ms, i + 1);
      SkippedWritten(f, ms, i, NormMembers(f, ms, i), d);
    } else {
      var j := Last(ms, ms[i].key, i + 1, i);
      CleanAt(ms, j);
      NormMemberAlike(f, ms[j]);
      var more := MembersAlike(f, ms, i + 1);
      d := [Places(i, j)] + more;
      ComesHere(f, ms, i, j);
      OneMoreWritten(f, ms, i, Places(i, j), NormMember(f, ms[j]), NormMembers(f, ms, i + 1), more);
    }
  }

  lemma {:induction false} NormMemberAlike(f: Floats, m: Member)
    requires Sound(f) && CleanMember(m, false) && FiniteMember(f, m)
    ensures MemberAlike(f, m, NormMember(f, m))
    decreases m, 0
  {
    NormAlike(f, m.value);
  }

  lemma NothingWritten(f: Floats, ms: seq<Member>)
    ensures Written(f, ms, |ms|, [], [])
  {
  }

  lemma ComesLater(f: Floats, ms: seq<Member>, i: nat, p: Places, u: Member)
    requires Comes(f, ms, i + 1, p, u)
    ensures Comes(f, ms, i, p, u) && p.first > i
  {
  }

  lemma SkippedWritten(f: Floats, ms: seq<Member>, i: nat, us: seq<Member>, d: seq<Places>)
    requires i < |ms| && Seen(ms, i) && Written(f, ms, i + 1, us, d)
    ensures Written(f, ms, i, us, d)
  {
    hide Comes;
    hide Seen;
    forall a | 0 <= a < |d| ensures Comes(f, ms, i, d[a], us[a]) { ComesLater(f, ms, i, d[a], us[a]); }
  }

  lemma ComesHere(f: Floats, ms: seq<Member>, i: nat, j: nat)
    requires Sound(f) && i < |ms| && !Seen(ms, i) && j == Last(ms, ms[i].key, i + 1, i)
    requires MemberAlike(f, ms[j], NormMember(f, ms[j]))
    ensures Comes(f, ms, i, Places(i, j), NormMember(f, ms[j]))
  {
    hide MemberAlike;
    hide Seen;
    hide Last;
    KeptKey(f, ms[j]);
    hide NormMember;
  }

  lemma OneMoreWritten(f: Floats, ms: seq<Member>, i: nat, p: Places, u: Member, us: seq<Member>, d: seq<Places>)
    requires i < |ms| && Comes(f, ms, i, p, u) && p.first == i && Written(f, ms, i + 1, us, d)
    ensures Written(f, ms, i, [u] + us, [p] + d)
  {
    hide Seen;
    hide Comes;
    var all, more := [p] + d, [u] + us;
    forall a | 0 <= a < |all|
      ensures Comes(f, ms, i, all[a], more[a]) && (a > 0 ==> all[a].first > i)
    {
      if a > 0 {
        assert Comes(f, ms, i + 1, d[a - 1], us[a - 1]);
        ComesLater(f, ms, i, d[a - 1], us[a - 1]);
      }
    }
    OneMoreFirst(ms, i, p, d);
  }

  lemma OneMoreFirst(ms: seq<Member>, i: nat, p: Places, d: seq<Places>)
    requires i < |ms| && p.first == i
    requires forall k :: i + 1 <= k < |ms| && !Seen(ms, k) ==> exists a :: 0 <= a < |d| && d[a].first == k
    ensures forall k :: i <= k < |ms| && !Seen(ms, k) ==> exists a :: 0 <= a < |[p] + d| && ([p] + d)[a].first == k
  {
    hide Seen;
    var all := [p] + d;
    forall k | i <= k < |ms| && !Seen(ms, k)
      ensures exists a :: 0 <= a < |all| && all[a].first == k
    {
      if k > i {
        var a :| 0 <= a < |d| && d[a].first == k;
        assert all[a + 1].first == k;
      } else {
        assert all[0].first == k;
      }
    }
  }

  lemma NormAsDict(f: Floats, ms: seq<Member>, us: seq<Member>, d: seq<Places>)
    requires Written(f, ms, 0, us, d)
    ensures AsDict(f, ms, us, d)
  {
    hide MemberAlike;
    forall a | 0 <= a < |d| ensures FromPlace(f, ms, d[a], us[a]) {
      assert Comes(f, ms, 0, d[a], us[a]);
      NotSeenIsFirst(ms, d[a].first);
    }
    forall k | 0 <= k < |ms|
      ensures exists a :: 0 <= a < |us| && us[a].key == ms[k].key
    {
      var j := FirstWithKey(ms, k);
      var a :| 0 <= a < |d| && d[a].first == j;
      assert Comes(f, ms, 0, d[a], us[a]);
      assert us[a].key == ms[k].key;
    }
  }

  lemma NotSeenIsFirst(ms: seq<Member>, k: nat)
    requires k < |ms| && !Seen(ms, k)
    ensures IsFirst(ms, k)
  {
  }

  lemma {:induction false} FirstWithKey(ms: seq<Member>, k: nat) returns (j: nat)
    requires k < |ms|
    ensures j <= k && ms[j].key == ms[k].key && !Seen(ms, j)
    decreases k
  {
    j := k;
    if Seen(ms, k) {
      var i :| 0 <= i < k && ms[i].key == ms[k].key;
      j := FirstWithKey(ms, i);
    }
  }

  // ---- Repeated keys ----

  predicate Has(ms: seq<Member>, key: Bytes) { exists k :: 0 <= k < |ms| && ms[k].key == key }

  function Replace(ms: seq<Member>, m: Member): seq<Member> {
    seq(|ms|, i requires 0 <= i < |ms| => if ms[i].key == m.key then m else ms[i])
  }

  /** What d[key] = value does to a dict: a key it has keeps its place. */
  function DictPut(d: seq<Member>, m: Member): seq<Member> {
    if Has(d, m.key) then Replace(d, m) else d + [m]
  }

  /** The dict json.loads makes of members, one after another. */
  function Dict(f: Floats, ms: seq<Member>): seq<Member>
    requires Sound(f)
    decreases |ms|
  {
    if ms == [] then [] else DictPut(Dict(f, ms[..|ms| - 1]), NormMember(f, ms[|ms| - 1]))
  }

  lemma LastOfMore(ms: seq<Member>, m: Member, key: Bytes, i: nat, found: nat)
    requires i <= |ms| && found < i && ms[found].key == key
    ensures Last(ms + [m], key, i, found) == if m.key == key then |ms| else Last(ms, key, i, found)
    decreases |ms| - i
  {
    if i < |ms| { LastOfMore(ms, m, key, i + 1, if ms[i].key == key then i else found); }
  }

  /** One more member replaces the value of a key there already, or comes last. */
  lemma {:induction false} OneMoreMember(f: Floats, ms: seq<Member>, m: Member, i: nat)
    requires Sound(f) && i <= |ms|
    ensures NormMembers(f, ms + [m], i)
         == Replace(NormMembers(f, ms, i), NormMember(f, m)) + (if Has(ms, m.key) then [] else [NormMember(f, m)])
    decreases |ms| - i
  {
    hide NormMember;
    hide Sound;
    hide Seen;
    hide Has;
    hide Replace;
    var more := ms + [m];
    var n := NormMember(f, m);
    KeptKey(f, m);
    SeenInMore(ms, m, i);
    ReplaceNone(n);
    if i == |ms| {
      assert NormMembers(f, more, i + 1) == [];
      assert more[Last(more, more[i].key, i + 1, i)] == m;
      assert NormMembers(f, more, i) == if Has(ms, m.key) then [] else [n];
    } else {
      OneMoreMember(f, ms, m, i + 1);
      assert more[i] == ms[i];
      if !Seen(ms, i) {
        var key := ms[i].key;
        LastOfMore(ms, m, key, i + 1, i);
        var j := Last(ms, key, i + 1, i);
        KeptKey(f, ms[j]);
        var head := NormMember(f, ms[j]);
        var tail := NormMembers(f, ms, i + 1);
        ReplaceFirst(head, tail, n);
        assert NormMembers(f, more, i) == [if key == m.key then n else head] + NormMembers(f, more, i + 1);
      }
    }
  }

  lemma SeenInMore(ms: seq<Member>, m: Member, i: nat)
    requires i <= |ms|
    ensures Seen(ms + [m], i) <==> if i < |ms| then Seen(ms, i) else Has(ms, m.key)
  {
    var more := ms + [m];
    assert forall j :: 0 <= j < |ms| ==> more[j] == ms[j];
    if i < |ms| {
      if Seen(more, i) {
        var j :| 0 <= j < i && more[j].key == more[i].key;
        assert ms[j].key == ms[i].key;
      }
      if Seen(ms, i) {
        var j :| 0 <= j < i && ms[j].key == ms[i].key;
        assert more[j].key == more[i].key;
      }
    } else {
      if Seen(more, i) {
        var j :| 0 <= j < i && more[j].key == more[i].key;
        assert ms[j].key == m.key;
      }
      if Has(ms, m.key) {
        var j :| 0 <= j < |ms| && ms[j].key == m.key;
        assert more[j].key == more[i].key;
      }
    }
  }

  lemma ReplaceNone(n: Member)
    ensures Replace([], n) == []
  {
  }

  lemma ReplaceFirst(head: Member, tail: seq<Member>, n: Member)
    ensures Replace([head] + tail, n) == [if head.key == n.key then n else head] + Replace(tail, n)
  {
  }

  lemma KeptKey(f: Floats, m: Member)
    requires Sound(f)
    ensures NormMember(f, m).key == m.key
  {
  }

  /** Every key is written, where it first comes, and no other. */
  lemma {:induction false} KeysWritten(f: Floats, ms: seq<Member>, i: nat, key: Bytes)
    requires Sound(f) && i <= |ms|
    ensures Has(NormMembers(f, ms, i), key) <==> exists k :: i <= k < |ms| && ms[k].key == key && !Seen(ms, k)
    decreases |ms| - i
  {
    hide NormMember;
    hide Sound;
    if i < |ms| {
      KeysWritten(f, ms, i + 1, key);
      if !Seen(ms, i) {
        var j := Last(ms, ms[i].key, i + 1, i);
        KeptKey(f, ms[j]);
        var tail := NormMembers(f, ms, i + 1);
        var all := NormMembers(f, ms, i);
        assert all == [NormMember(f, ms[j])] + tail;
        assert Has(all, key) <==> ms[i].key == key || Has(tail, key) by {
          if Has(tail, key) {
            var k :| 0 <= k < |tail| && tail[k].key == key;
            assert all[k + 1].key == key;
          }
          assert all[0].key == ms[i].key;
        }
      }
    }
  }

  lemma {:induction false} FirstPlace(ms: seq<Member>, k: nat)
    requires k < |ms|
    ensures exists j :: 0 <= j <= k && ms[j].key == ms[k].key && !Seen(ms, j)
    decreases k
  {
    if Seen(ms, k) {
      var j :| 0 <= j < k && ms[j].key == ms[k].key;
      FirstPlace(ms, j);
    }
  }

  /** An object is written as the dict that its members, put one after another, make. */
  lemma {:induction false} WrittenAsDict(f: Floats, ms: seq<Member>)
    requires Sound(f)
    ensures NormMembers(f, ms, 0) == Dict(f, ms)
    decreases |ms|
  {
    hide NormMember;
    hide Sound;
    if ms != [] {
      var most, m := ms[..|ms| - 1], ms[|ms| - 1];
      assert ms == most + [m];
      WrittenAsDict(f, most);
      OneMoreMember(f, most, m, 0);
      KeptKey(f, m);
      KeysWritten(f, most, 0, m.key);
      var d := Dict(f, most);
      if Has(most, m.key) {
        var k :| 0 <= k < |most| && most[k].key == m.key;
        FirstPlace(most, k);
        assert Has(d, m.key);
      } else {
        assert !Has(d, m.key);
        assert Replace(d, NormMember(f, m)) == d;
      }
    }
  }

  // ---- Written again ----

  predicate Distinct(ms: seq<Member>) { forall i, j :: 0 <= i < j < |ms| ==> ms[i].key != ms[j].key }

  lemma {:induction false} KeysDistinct(f: Floats, ms: seq<Member>, i: nat)
    requires Sound(f) && i <= |ms|
    ensures Distinct(NormMembers(f, ms, i))
    decreases |ms| - i
  {
    hide NormMember;
    hide Sound;
    if i < |ms| {
      KeysDistinct(f, ms, i + 1);
      if !Seen(ms, i) {
        var j := Last(ms, ms[i].key, i + 1, i);
        KeptKey(f, ms[j]);
        var tail := NormMembers(f, ms, i + 1);
        var all := NormMembers(f, ms, i);
        assert all == [NormMember(f, ms[j])] + tail;
        KeysWritten(f, ms, i + 1, ms[i].key);
        assert !Has(tail, ms[i].key);
      }
    }
  }

  /** Whether each value is written as it is. */
  predicate Settled(f: Floats, ms: seq<Member>)
    requires Sound(f)
  {
    forall k :: 0 <= k < |ms| ==> NormMember(f, ms[k]) == ms[k]
  }

  lemma {:induction false} SettledStays(f: Floats, ms: seq<Member>, i: nat)
    requires Sound(f) && i <= |ms| && Distinct(ms) && Settled(f, ms)
    ensures NormMembers(f, ms, i) == ms[i..]
    decreases |ms| - i
  {
    hide NormMember;
    hide Sound;
    if i < |ms| {
      SettledStays(f, ms, i + 1);
      assert !Seen(ms, i);
      assert Last(ms, ms[i].key, i + 1, i) == i;
    }
  }

  lemma {:induction false} NormTwice(f: Floats, t: Tree)
    requires Sound(f) && Clean(t, false) && AllFinite(f, t)
    ensures Norm(f, Norm(f, t)) == Norm(f, t)
    decreases t, 0
  {
    match t
    case Atom(_) =>
    case Text(_) =>
    case Numeral(lit) => NumberWritten(f, lit);
    case Items(xs) => NormItemsTwice(f, xs);
    case Members(ms) =>
      var ns := NormMembers(f, ms, 0);
      NormMembersTwice(f, ms, 0);
      KeysDistinct(f, ms, 0);
      SettledStays(f, ns, 0);
      assert ns[0..] == ns;
  }

  lemma {:induction false} NormItemsTwice(f: Floats, xs: seq<Tree>)
    requires Sound(f) && CleanItems(xs, false) && FiniteItems(f, xs)
    ensures NormItems(f, NormItems(f, xs)) == NormItems(f, xs)
    decreases xs, 0
  {
    if xs != [] {
      NormTwice(f, xs[0]);
      NormItemsTwice(f, xs[1..]);
      assert NormItems(f, xs)[1..] == NormItems(f, xs[1..]);
    }
  }

  lemma {:induction false} NormMemberTwice(f: Floats, m: Member)
    requires Sound(f) && CleanMember(m, false) && FiniteMember(f, m)
    ensures NormMember(f, NormMember(f, m)) == NormMember(f, m)
    decreases m, 0
  {
    NormTwice(f, m.value);
  }

  lemma {:induction false} NormMembersTwice(f: Floats, ms: seq<Member>, i: nat)
    requires Sound(f) && CleanMembers(ms, false) && i <= |ms| && FiniteMembers(f, ms, i)
    ensures Settled(f, NormMembers(f, ms, i))
    decreases ms, |ms| - i
  {
    hide NormMember;
    hide CleanMember;
    hide FiniteMember;
    hide Seen;
    hide Sound;
    if i < |ms| {
      NormMembersTwice(f, ms, i + 1);
      if !Seen(ms, i) {
        var j := Last(ms, ms[i].key, i + 1, i);
        CleanAt(ms, j);
        NormMemberTwice(f, ms[j]);
        var all := NormMembers(f, ms, i);
        assert all == [NormMember(f, ms[j])] + NormMembers(f, ms, i + 1);
      }
    }
  }

  // ---- The round trip ----

  /** A text the parser reads, and the tree it is read as. */
  lemma ReadTreeIsClean(text: Bytes)
    requires ReadTree(text).Some?
    ensures var t := ReadTree(text).value; Clean(t, false) && TreeLevels(t) <= MAX_LEVELS
  {
    var from := if HasMark(text) then text[3..] else text;
    ReadDocWrites(from);
    ReadIsClean(ReadDoc(from).value.v);
  }

  /**
   * What is written of a text that was read is JSON exactly when the numbers
   * written are finite; then it is read as the merged tree, which means to
   * Python what the text did, and written again it is the same bytes.
   */
  lemma RoundTrip(f: Floats, text: Bytes)
    requires Sound(f) && ReadTree(text).Some?
    ensures Clean(ReadTree(text).value, false)
    ensures var t := ReadTree(text).value;
            var written := Plain(Norm(f, t));
            && (ReadTree(written).Some? <==> AllFinite(f, t))
            && (AllFinite(f, t) ==> ReadTree(written) == Some(Norm(f, t)) && Plain(Norm(f, Norm(f, t))) == written)
            && (AllFinite(f, t) ==> Alike(f, t, ReadTree(written).value))
  {
    hide ReadTree;
    ReadTreeIsClean(text);
    var t := ReadTree(text).value;
    var n := Norm(f, t);
    NormIsClean(f, t);
    if AllFinite(f, t) {
      ReadBack(n);
      NormTwice(f, t);
      NormAlike(f, t);
    } else {
      DirtyIsNotRead(n);
    }
  }

  lemma DirtyIsNotRead(n: Tree)
    requires Clean(n, true) && !Clean(n, false) && TreeLevels(n) <= MAX_LEVELS
    ensures ReadTree(Plain(n)) == None
  {
    hide ReadValue;
    PlainStarts(n, true);
    DirtyIsBad(n, [], MAX_LEVELS);
    assert Plain(n) + [] == Plain(n);
    NoWs(Plain(n));
  }

  /**
   * A text that is read and whose writing is not: 1e999, where the doubles
   * end before it, is written as Infinity.
   */
  lemma AnInfinityWritten(f: Floats)
    requires Sound(f)
    ensures var n := Number(false, Cons(0x31, Nil), Nil,
                            Exp(LOWER_E, None, Cons(NINE, Cons(NINE, Cons(NINE, Nil)))));
            var text: Bytes := [0x31, LOWER_E, NINE, NINE, NINE];
            && WfNumber(n) && ReadTree(text) == Some(Numeral(text))
            && (ReadDouble(f, n).Infinite? ==>
                  Plain(Norm(f, Numeral(text))) == INFINITY && ReadTree(INFINITY) == None)
  {
    hide *;
    var n := Number(false, Cons(0x31, Nil), Nil, Exp(LOWER_E, None, Cons(NINE, Cons(NINE, Cons(NINE, Nil)))));
    FarText();
    FarRead(f, n, [0x31, LOWER_E, NINE, NINE, NINE]);
  }

  lemma FarText()
    ensures var n := Number(false, Cons(0x31, Nil), Nil,
                            Exp(LOWER_E, None, Cons(NINE, Cons(NINE, Cons(NINE, Nil)))));
            var text: Bytes := [0x31, LOWER_E, NINE, NINE, NINE];
            WfNumber(n) && PutNumber(n, []) == text && text[1] in text
  {
  }

  lemma FarRead(f: Floats, n: Number, text: Bytes)
    requires Sound(f) && WfNumber(n) && !n.minus && PutNumber(n, []) == text && LOWER_E in text
    ensures ReadTree(text) == Some(Numeral(text))
    ensures ReadDouble(f, n).Infinite? ==>
        Plain(Norm(f, Numeral(text))) == INFINITY && ReadTree(INFINITY) == None
  {
    hide ReadTree;
    hide Plain;
    hide Norm;
    hide Sound;
    TextOf(n, text);
    InfinityText(f, n, text);
    InfinityIsBad(INFINITY, [], 1);
    PlainNumeral(INFINITY);
    DirtyIsNotRead(Numeral(INFINITY));
  }

  lemma PlainNumeral(lit: Bytes)
    ensures Plain(Numeral(lit)) == lit
  {
  }

  lemma TextOf(n: Number, text: Bytes)
    requires WfNumber(n) && PutNumber(n, []) == text
    ensures ReadNumber(text) == Read.Ok(n, []) && IsNumber(text) && ReadTree(text) == Some(Numeral(text))
  {
    hide ReadTree;
    hide PutNumber;
    NumberReadBack(n, []);
    ReadBack(Numeral(text));
  }

  lemma InfinityText(f: Floats, n: Number, text: Bytes)
    requires Sound(f) && ReadNumber(text) == Read.Ok(n, []) && WfNumber(n) && LOWER_E in text
    ensures ReadDouble(f, n) == Infinite(false) ==> Plain(Norm(f, Numeral(text))) == INFINITY
  {
    hide ReadNumber;
    hide Sound;
  }

  // ---- And by the automaton ----

  /** Whether every string and key is UTF-8. */
  predicate Utf8Tree(t: Tree)
    decreases t, 0
  {
    match t
    case Atom(_) => true
    case Numeral(_) => true
    case Text(s) => IsUtf8(s)
    case Items(xs) => Utf8Items(xs)
    case Members(ms) => Utf8Members(ms)
  }

  predicate Utf8Items(xs: seq<Tree>)
    decreases xs, 0
  {
    xs == [] || (Utf8Tree(xs[0]) && Utf8Items(xs[1..]))
  }

  predicate Utf8Member(m: Member)
    decreases m, 0
  {
    IsUtf8(m.key) && Utf8Tree(m.value)
  }

  predicate Utf8Members(ms: seq<Member>)
    decreases ms, 0
  {
    ms == [] || (Utf8Member(ms[0]) && Utf8Members(ms[1..]))
  }

  lemma {:induction false} StrictIfUtf8(t: Tree)
    requires Clean(t, false)
    ensures Strict(Cst(t), A.MAX_WS) <==> Utf8Tree(t)
    decreases t, 0
  {
    match t
    case Atom(_) =>
    case Numeral(_) =>
    case Text(s) => WrittenUtf8(s);
    case Items(xs) => if xs != [] { StrictItems(xs, true); }
    case Members(ms) => if ms != [] { StrictMembers(ms, true); }
  }

  lemma {:induction false} StrictItems(xs: seq<Tree>, first: bool)
    requires CleanItems(xs, false) && xs != []
    ensures StrictEntries(CstItems(xs, first), A.MAX_WS) <==> Utf8Items(xs)
    decreases xs, 0
  {
    StrictIfUtf8(xs[0]);
    if |xs| > 1 { StrictItems(xs[1..], false); }
  }

  lemma {:induction false} StrictMember(m: Member, first: bool)
    requires CleanMember(m, false)
    ensures StrictEntry(CstMember(m, first), A.MAX_WS) <==> Utf8Member(m)
    decreases m, 0
  {
    WrittenUtf8(m.key);
    StrictIfUtf8(m.value);
  }

  lemma {:induction false} StrictMembers(ms: seq<Member>, first: bool)
    requires CleanMembers(ms, false) && ms != []
    ensures StrictEntries(CstMembers(ms, first), A.MAX_WS) <==> Utf8Members(ms)
    decreases ms, 0
  {
    hide CstMember;
    hide StrictEntry;
    hide Utf8Member;
    StrictMember(ms[0], first);
    if |ms| > 1 { StrictMembers(ms[1..], false); }
  }

  /**
   * The automaton calls what is written of an object whole exactly when the
   * strings in it are UTF-8 and it is not too deep.
   */
  lemma WrittenIsWhole(t: Tree)
    requires t.Members? && Clean(t, false) && TreeLevels(t) <= MAX_LEVELS
    ensures A.Complete(A.Feed(A.INITIAL, Plain(t))) <==> Utf8Tree(t) && Nesting(Cst(t)) <= A.MAX_DEPTH
  {
    var d := Doc(Nil, Cst(t), Nil);
    CstWf(t);
    CstText(t, []);
    StrictIfUtf8(t);
    assert Plain(t) + [] == Plain(t);
    assert PutDoc(d) == Plain(t);
    DocReadBack(d);
    G.CompleteIffReadWithinLimits(Plain(t));
  }

  /** The document a text is, whitespace and all, keeps to the automaton's limits. */
  predicate WithinLimits(t: Bytes) {
    var d := ReadDoc(t);
    d.Some? && StrictDoc(d.value, A.MAX_WS) && Nesting(d.value.v) <= A.MAX_DEPTH
  }

  lemma MarkFails(t: Bytes)
    requires HasMark(t)
    ensures A.Feed(A.INITIAL, t) == A.Failed && ReadDoc(t) == None
  {
    assert A.Step(A.INITIAL, t[0]) == A.Failed;
    A.FeedFailed(t[1..]);
  }

  /**
   * The two readers of JSON: the automaton calls a text whole exactly when
   * the parser reads it as an object, it is within the automaton's limits,
   * and it does not begin with a byte order mark.
   */
  lemma WholeIffParsed(t: Bytes)
    ensures A.Complete(A.Feed(A.INITIAL, t)) <==>
              !HasMark(t) && ReadTree(t).Some? && ReadTree(t).value.Members? && WithinLimits(t)
  {
    hide ReadDoc;
    G.CompleteIffReadWithinLimits(t);
    ReadDocWrites(t);
    if HasMark(t) { MarkFails(t); }
  }

  /** A text in which they differ: the mark before an object is skipped by the parser alone. */
  lemma OnlyTheParserSkipsTheMark()
    ensures var t: Bytes := [0xEF, 0xBB, 0xBF, OPEN_BRACE, CLOSE_BRACE];
            ReadTree(t) == Some(Members([])) && WithinLimits(t[3..]) && A.Feed(A.INITIAL, t) == A.Failed
  {
    var t: Bytes := [0xEF, 0xBB, 0xBF, OPEN_BRACE, CLOSE_BRACE];
    MarkFails(t);
    var d := Doc(Nil, Empty(Obj, Nil), Nil);
    assert t[3..] == [OPEN_BRACE, CLOSE_BRACE];
    assert PutDoc(d) == t[3..];
    DocReadBack(d);
  }
}
