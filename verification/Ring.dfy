/**
 * A ring of fixed size used as a queue, seen as the sequence it holds.
 */
module Ring {
  import opened Basics

  lemma Wraps(x: nat, n: nat)
    requires 0 < n && x < 2 * n
    ensures x % n == if x < n then x else x - n
  {
    if x >= n { assert x == 1 * n + (x - n); }
  }

  /** The place k after the head. */
  function Slot(n: nat, head: nat, k: nat): (r: nat)
    requires head < n && k <= n
    ensures r < n && r == if head + k < n then head + k else head + k - n
  {
    Wraps(head + k, n);
    (head + k) % n
  }

  /** What a ring holds, from its head on. */
  ghost function Queued(ring: seq<nat>, head: nat, len: nat): (q: seq<nat>)
    requires head < |ring| && len <= |ring|
    ensures |q| == len
  {
    seq(len, k requires 0 <= k < len => ring[Slot(|ring|, head, k)])
  }

  /** Taking from the head leaves the rest. */
  lemma Pop(ring: seq<nat>, head: nat, len: nat)
    requires head < |ring| && 0 < len <= |ring|
    ensures var q := Queued(ring, head, len);
            q[0] == ring[head] && Queued(ring, Slot(|ring|, head, 1), len - 1) == q[1..]
  {
    hide Slot;
    assert forall k :: 0 <= k < len - 1 ==> Slot(|ring|, Slot(|ring|, head, 1), k) == Slot(|ring|, head, k + 1);
  }

  /** Putting at the tail of a ring with room appends. */
  lemma Push(ring: seq<nat>, head: nat, len: nat, x: nat)
    requires head < |ring| && len < |ring|
    ensures Queued(ring[Slot(|ring|, head, len) := x], head, len + 1) == Queued(ring, head, len) + [x]
  {
    hide Slot;
    assert forall k :: 0 <= k < len ==> Slot(|ring|, head, k) != Slot(|ring|, head, len);
  }
}
