/** Bytes and the few containers the other modules share. */
module Basics {

  type Byte = x: int | 0 <= x < 256

  type Bytes = seq<Byte>

  datatype Option<+T> = None | Some(value: T)

  datatype List<+T> = Nil | Cons(head: T, tail: List<T>)

  function Length<T>(l: List<T>): nat {
    match l
    case Nil => 0
    case Cons(_, tail) => 1 + Length(tail)
  }

  function Append<T>(xs: List<T>, ys: List<T>): List<T> {
    match xs
    case Nil => ys
    case Cons(x, tail) => Cons(x, Append(tail, ys))
  }

  function ListOf<T>(s: seq<T>): List<T> { if s == [] then Nil else Cons(s[0], ListOf(s[1..])) }

  lemma {:induction false} ListOfConcat<T>(a: seq<T>, b: seq<T>)
    ensures ListOf(a + b) == Append(ListOf(a), ListOf(b))
    decreases a
  {
    if a == [] {
      assert a + b == b;
    } else {
      assert (a + b)[1..] == a[1..] + b;
      ListOfConcat(a[1..], b);
    }
  }

  lemma {:induction false} ListOfLength<T>(s: seq<T>)
    ensures Length(ListOf(s)) == |s|
  {
    if s != [] { ListOfLength(s[1..]); }
  }

  /** The bytes of a list, followed by rest. */
  function Put(l: List<Byte>, rest: Bytes): Bytes {
    match l
    case Nil => rest
    case Cons(b, tail) => [b] + Put(tail, rest)
  }

  lemma {:induction false} PutListOf(s: Bytes, rest: Bytes)
    ensures Put(ListOf(s), rest) == s + rest
    decreases s
  {
    if s == [] {
      assert s + rest == rest;
    } else {
      PutListOf(s[1..], rest);
      assert s == [s[0]] + s[1..];
    }
  }

  function Max(a: nat, b: nat): nat {
    if a < b then b else a
  }

  function Min(a: nat, b: nat): nat {
    if a < b then a else b
  }

  /** Numbers below n are at most n. */
  lemma {:induction false} Below(s: set<nat>, n: nat)
    requires forall x <- s :: x < n
    ensures |s| <= n
  {
    if n == 0 {
      assert s == {};
    } else {
      Below(s - {n - 1}, n - 1);
    }
  }

  /** Fewer numbers than n leave one out. */
  lemma {:induction false} OneLeft(s: set<nat>, n: nat) returns (x: nat)
    requires |s| < n
    ensures x < n && x !in s
  {
    if n - 1 !in s {
      x := n - 1;
    } else {
      x := OneLeft(s - {n - 1}, n - 1);
    }
  }

  lemma Euclid(a: nat, c: nat)
    requires c > 0
    ensures a / c * c <= a < a / c * c + c
  {
  }

  lemma Factor(x: nat, y: nat, c: nat)
    ensures x <= y || y * c + c <= x * c
  {
    if y < x {
      var k: nat := x - y - 1;
      assert (y + 1 + k) * c == y * c + c + k * c;
    }
  }

  // ---- Threads ----

  /** Threads not asleep. */
  ghost function Awake(asleep: seq<bool>): nat {
    if asleep == [] then 0 else Awake(asleep[..|asleep| - 1]) + (if asleep[|asleep| - 1] then 0 else 1)
  }

  lemma {:induction false} AwakeChanges(asleep: seq<bool>, w: nat, now: bool)
    requires w < |asleep|
    ensures Awake(asleep[w := now]) + (if asleep[w] then 0 else 1) == Awake(asleep) + (if now then 0 else 1)
  {
    var n := |asleep| - 1;
    if w == n {
      assert asleep[w := now][..n] == asleep[..n];
    } else {
      assert asleep[w := now][..n] == asleep[..n][w := now];
      AwakeChanges(asleep[..n], w, now);
    }
  }
}
