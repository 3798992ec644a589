/**
 * What a JSON value means to Python, and when one value means what another
 * does: the same words and strings, the same integers and doubles, lists item
 * by item, and objects as the dict json.loads makes of them.
 */
module JsonMeans {
  import opened Basics
  import opened FloatRepr
  import opened JsonGrammar
  import opened JsonReader
  import opened JsonTree

  // ---- Numbers ----

  /** What json.loads makes of a number: an int when it has no fraction and no exponent, else a float. */
  datatype PyNumber = Int(value: int) | Float(double: Double)

  function NumberMeans(f: Floats, n: Number): PyNumber
    requires WfNumber(n)
  {
    if n.frac.Nil? && n.exp.NoExp? then Int(if n.minus then 0 - Digits(0, n.whole) else Digits(0, n.whole))
    else Float(ReadDouble(f, n))
  }

  /** A number that means what another does, an integer with a sign only below zero. */
  predicate SameNumber(f: Floats, a: Bytes, b: Bytes) {
    && ReadsNumber(a) && ReadsNumber(b)
    && var m, n := ReadNumber(a).v, ReadNumber(b).v;
    && NumberMeans(f, m) == NumberMeans(f, n)
    && (NumberMeans(f, n).Int? && n.minus ==> NumberMeans(f, n).value < 0)
  }

  predicate ReadsNumber(lit: Bytes) { ReadNumber(lit).Ok? && ReadNumber(lit).rest == [] && WfNumber(ReadNumber(lit).v) }

  // ---- Values ----

  /** A value that means what another does. */
  ghost predicate Alike(f: Floats, t: Tree, u: Tree)
    decreases t, 0
  {
    match t
    case Atom(w) => u == Atom(w)
    case Text(s) => u == Text(s)
    case Numeral(lit) => u.Numeral? && SameNumber(f, lit, u.lit)
    case Items(xs) => u.Items? && AllAlike(f, xs, u.items)
    case Members(ms) => u.Members? && exists d :: AsDict(f, ms, u.members, d)
  }

  ghost predicate AllAlike(f: Floats, xs: seq<Tree>, us: seq<Tree>)
    decreases xs, 0
  {
    |us| == |xs| && forall i :: 0 <= i < |xs| ==> Alike(f, xs[i], us[i])
  }

  /** For each member of a dict: where its key first comes, and where last. */
  datatype Places = Places(first: nat, last: nat)

  /** The key of member k comes nowhere before it, or nowhere after it. */
  predicate IsFirst(ms: seq<Member>, k: nat)
    requires k < |ms|
  {
    forall j :: 0 <= j < k ==> ms[j].key != ms[k].key
  }

  predicate IsLast(ms: seq<Member>, k: nat)
    requires k < |ms|
  {
    forall j :: k < j < |ms| ==> ms[j].key != ms[k].key
  }

  /** A member of a dict: its key, from where it first comes, with the value it last has. */
  ghost predicate FromPlace(f: Floats, ms: seq<Member>, p: Places, u: Member)
    decreases ms, 1
  {
    && p.first <= p.last < |ms| && u.key == ms[p.first].key == ms[p.last].key
    && IsFirst(ms, p.first) && IsLast(ms, p.last) && MemberAlike(f, ms[p.last], u)
  }

  /**
   * The dict json.loads makes of members: every key once, in the order they
   * first come, each with the value it last has.
   */
  ghost predicate AsDict(f: Floats, ms: seq<Member>, us: seq<Member>, d: seq<Places>)
    decreases ms, 2
  {
    && |d| == |us|
    && (forall a :: 0 <= a < |d| ==> FromPlace(f, ms, d[a], us[a]))
    && (forall a, b :: 0 <= a < b < |d| ==> d[a].first < d[b].first)
    && (forall k :: 0 <= k < |ms| ==> exists a :: 0 <= a < |us| && us[a].key == ms[k].key)
  }

  ghost predicate MemberAlike(f: Floats, m: Member, u: Member)
    decreases m, 0
  {
    Alike(f, m.value, u.value)
  }

  // ---- Zero ----

  lemma {:induction false} DigitsGrow(acc: nat, ds: List<Byte>)
    requires WfDigits(ds)
    ensures Digits(acc, ds) >= acc
    decreases ds
  {
    if ds.Cons? {
      var next := acc * 10 + (ds.head - ZERO);
      assert acc <= next;
      hide Digits;
      DigitsGrow(next, ds.tail);
      DigitsNext(acc, ds);
    }
  }

  lemma DigitsNext(acc: nat, ds: List<Byte>)
    requires WfDigits(ds) && ds.Cons?
    ensures Digits(acc, ds) == Digits(acc * 10 + (ds.head - ZERO), ds.tail)
  {
  }

  /** A whole number is zero only when it is written 0. */
  lemma ZeroIsZero(n: Number)
    requires WfNumber(n) && Digits(0, n.whole) == 0
    ensures n.whole == Cons(ZERO, Nil)
  {
    DigitsGrow(n.whole.head - ZERO, n.whole.tail);
  }
}
