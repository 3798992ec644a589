/**
 * What the scheduler keeps for each of the model's sequences, and the model's
 * own steps on one. Any step may fail; one that runs adds its token to what
 * the sequence holds.
 */
module Lending {
  import opened Basics
  import opened Solo

  /** How many tokens two lists begin with alike. */
  function Common(a: seq<Token>, b: seq<Token>): (n: nat)
    ensures n <= |a| && n <= |b| && a[..n] == b[..n]
    ensures n < |a| && n < |b| ==> a[n] != b[n]
  {
    if a != [] && b != [] && a[0] == b[0] then 1 + Common(a[1..], b[1..]) else 0
  }

  lemma {:induction false} CommonIsTheLongest(a: seq<Token>, b: seq<Token>, n: nat)
    requires n <= |a| && n <= |b| && a[..n] == b[..n]
    ensures n <= Common(a, b)
    ensures (n == |a| || n == |b| || a[n] != b[n]) ==> n == Common(a, b)
  {
    if n > 0 {
      assert a[0] == a[..n][0] == b[..n][0];
      assert a[1..][..n - 1] == a[..n][1..] == b[..n][1..] == b[1..][..n - 1];
      CommonIsTheLongest(a[1..], b[1..], n - 1);
    }
  }

  /** What a sequence holding cached saves a prompt: never its last token, which gives the first row. */
  function Reuse(prefixCache: bool, cached: seq<Token>, ids: seq<Token>): nat
    requires ids != []
  {
    if prefixCache then Common(cached, ids[..|ids| - 1]) else 0
  }

  method MatchLength(prefixCache: bool, cached: seq<Token>, ids: seq<Token>) returns (n: nat)
    requires ids != []
    ensures n == Reuse(prefixCache, cached, ids)
  {
    n := 0;
    if prefixCache {
      var limit := Min(|ids| - 1, |cached|);
      while n < limit && cached[n] == ids[n]
        invariant 0 <= n <= limit && cached[..n] == ids[..n]
      {
        n := n + 1;
      }
      assert ids[..|ids| - 1][..n] == ids[..n];
      CommonIsTheLongest(cached, ids[..|ids| - 1], n);
    }
  }

  /** A sequence of the model's cache: what the scheduler believes it holds, and what it holds. */
  class Sequence {
    var cached: seq<Token>
    var used: nat
    var busy: bool
    var kv: seq<Token>

    constructor ()
      ensures cached == kv == [] && !busy && used == 0
    {
      cached, kv, used, busy := [], [], 0, false;
    }

    /** Forget all but the first n tokens. */
    method Truncate(n: nat)
      modifies `kv
      ensures kv == old(kv)[..Min(n, |old(kv)|)]
    {
      kv := kv[..Min(n, |kv|)];
    }

    /** Forget all but the first n tokens, and know it. */
    method Keep(n: nat)
      requires n <= |cached| && cached == kv
      modifies `kv, `cached
      ensures cached == kv == old(cached)[..n]
    {
      Truncate(n);
      cached := cached[..n];
    }

    /** Forget all but what a prompt can reuse. */
    method KeepPrefix(prefixCache: bool, ids: seq<Token>) returns (reuse: nat)
      requires ids != [] && cached == kv
      modifies `kv, `cached
      ensures reuse == Reuse(prefixCache, old(cached), ids) && reuse < |ids| && reuse <= |old(cached)|
      ensures cached == kv == ids[..reuse]
    {
      reuse := MatchLength(prefixCache, cached, ids);
      if prefixCache { assert ids[..|ids| - 1][..reuse] == ids[..reuse]; }
      Keep(reuse);
    }

    /** Run tokens one after another, as steps numbered from from on, until one fails or the context is full. */
    method Steps(ctx: nat, tokens: seq<Token>, fails: nat -> bool, from: nat) returns (ran: nat)
      modifies `kv
      ensures ran <= |tokens| && kv == old(kv) + tokens[..ran] && forall k :: from <= k < from + ran ==> !fails(k)
      ensures ran < |tokens| ==> |kv| >= ctx || fails(from + ran)
      ensures |kv| <= Max(ctx, |old(kv)|)
    {
      ran := 0;
      while ran < |tokens|
        invariant ran <= |tokens| && kv == old(kv) + tokens[..ran]
        invariant |kv| <= Max(ctx, |old(kv)|) 
        invariant forall k :: from <= k < from + ran ==> !fails(k)
      {
        if |kv| >= ctx || fails(from + ran) { return; }
        kv := kv + [tokens[ran]];
        ran := ran + 1;
      }
    }
  }
}
