/**
 * What a request is promised: the reply it would get alone, a token at a
 * time. The model is a function from the tokens it holds to a row of scores,
 * and taking a token is a function of the request's own state and that row.
 */
module Solo {
  import opened Basics

  type Token = nat

  /** take_token's answers: go on; the reply ends with this token; no token could be taken. */
  datatype Verdict = Go | End | EndNone

  datatype Finish = ByLength | ByStop

  /** What taking a token gives: its token, and the text and sampler state after it. */
  datatype Taken<+G> = Taken(verdict: Verdict, token: Token, text: G, rng: int)

  /** What befalls a request: which of the model's steps for it fail, and how many tokens in its client has left. */
  datatype Fate = Fate(fails: nat -> bool, leaves: nat -> bool)

  /** A request as its connection queues it: at least one token, and room for at least one more. */
  datatype Request<!R, !G> = Request(
    ids: seq<Token>,
    maxNew: nat,
    stream: bool,
    text: G,
    seed: int,
    take: (G, int, R) -> Taken<G>,
    fate: Fate)

  predicate Servable<R, G>(r: Request<R, G>, ctx: nat) { r.ids != [] && 1 <= r.maxNew && |r.ids| + r.maxNew <= ctx }

  /** A reply so far. */
  datatype Reply<+G> = Reply(taken: seq<Token>, text: G, rng: int, finish: Finish, st: Verdict)

  predicate Over<R, G>(r: Request<R, G>, s: Reply<G>) { s.st != Go || |s.taken| >= r.maxNew }

  /** One more token, taken from the row after everything before it. */
  function Next<R, G>(logits: seq<Token> -> R, r: Request<R, G>, s: Reply<G>): Reply<G> {
    if Over(r, s) then s
    else
      var x := r.take(s.text, s.rng, logits(r.ids + s.taken));
      Reply(if x.verdict == EndNone then s.taken else s.taken + [x.token], x.text, x.rng,
            if x.verdict == Go then s.finish else ByStop, x.verdict)
  }

  /** The reply after k tokens, each run and taken on its own. */
  function After<R, G>(logits: seq<Token> -> R, r: Request<R, G>, k: nat): Reply<G> {
    if k == 0 then Reply([], r.text, r.seed, ByLength, Go) else Next(logits, r, After(logits, r, k - 1))
  }

  lemma AfterNothing<R, G>(logits: seq<Token> -> R, r: Request<R, G>)
    ensures After(logits, r, 0) == Reply([], r.text, r.seed, ByLength, Go)
  {
  }

  lemma AfterNext<R, G>(logits: seq<Token> -> R, r: Request<R, G>, k: nat)
    ensures After(logits, r, k + 1) == Next(logits, r, After(logits, r, k))
  {
  }

  /** The reply alone. */
  function Alone<R, G>(logits: seq<Token> -> R, r: Request<R, G>): Reply<G> { After(logits, r, r.maxNew) }

  /** The tokens the cache holds after the reply's last row: the last token taken is never run. */
  function Held<R, G>(r: Request<R, G>, s: Reply<G>): seq<Token> {
    r.ids + (if s.st == EndNone || s.taken == [] then s.taken else s.taken[..|s.taken| - 1])
  }

  /** Every step but a last one without a token takes one, and no more than were asked for. */
  lemma {:induction false} Counts<R, G>(logits: seq<Token> -> R, r: Request<R, G>, k: nat)
    ensures var s := After(logits, r, k);
            && |s.taken| <= r.maxNew && |s.taken| <= k
            && (s.st != EndNone && !(s.st == End && |s.taken| < k) && |s.taken| < r.maxNew ==> |s.taken| == k)
            && (s.st == Go && |s.taken| < k ==> |s.taken| == r.maxNew)
            && (s.st == Go <==> s.finish == ByLength)
            && (s.st == End ==> s.taken != [])
  {
    if k > 0 { Counts(logits, r, k - 1); }
  }

  /** A reply that goes on with room for more has taken a token at every step. */
  lemma StillGoing<R, G>(logits: seq<Token> -> R, r: Request<R, G>, k: nat)
    requires !Over(r, After(logits, r, k))
    ensures k == |After(logits, r, k).taken| < r.maxNew
  {
    Counts(logits, r, k);
  }

  /** A reply that is over stays as it is. */
  lemma {:induction false} StaysOver<R, G>(logits: seq<Token> -> R, r: Request<R, G>, k: nat, n: nat)
    requires k <= n && Over(r, After(logits, r, k))
    ensures After(logits, r, n) == After(logits, r, k)
    decreases n
  {
    if k < n { StaysOver(logits, r, k, n - 1); }
  }

  /** A reply alone is over in at most as many tokens as were asked for, and however it got there is the same reply. */
  lemma AloneIsOver<R, G>(logits: seq<Token> -> R, r: Request<R, G>, k: nat)
    ensures Over(r, Alone(logits, r)) && |Alone(logits, r).taken| <= r.maxNew
    ensures Over(r, After(logits, r, k)) ==> After(logits, r, k) == Alone(logits, r)
  {
    Counts(logits, r, r.maxNew);
    if Over(r, After(logits, r, k)) {
      StaysOver(logits, r, k, Max(k, r.maxNew));
      StaysOver(logits, r, r.maxNew, Max(k, r.maxNew));
    }
  }

  /**
   * A reply, token by token: each is what was taken from the row after the prompt and the tokens
   * before it, by the text and sampler the one before left; only the last can end it, and it goes on
   * until one does or there are as many as were asked for.
   */
  ghost predicate Spoken<R, G>(logits: seq<Token> -> R, r: Request<R, G>, s: Reply<G>, left: seq<(G, int)>) {
    var n := |s.taken|;
    && |left| == n + 1 && left[0] == (r.text, r.seed) && n <= r.maxNew
    && (forall k :: 0 <= k < n ==> TakenThere(logits, r, s.taken, left, k, s.st))
    && match s.st
       case Go => s.finish == ByLength && (s.text, s.rng) == left[n]
       case End => n > 0 && s.finish == ByStop && (s.text, s.rng) == left[n]
       case EndNone =>
         var x := r.take(left[n].0, left[n].1, logits(r.ids + s.taken));
         n < r.maxNew && x.verdict == EndNone && s.finish == ByStop && (s.text, s.rng) == (x.text, x.rng)
  }

  ghost predicate TakenThere<R, G>(logits: seq<Token> -> R, r: Request<R, G>, taken: seq<Token>, left: seq<(G, int)>,
      k: nat, st: Verdict)
    requires k < |taken| && k + 1 < |left|
  {
    var x := r.take(left[k].0, left[k].1, logits(r.ids + taken[..k]));
    x == Taken(if k == |taken| - 1 && st == End then End else Go, taken[k], left[k + 1].0, left[k + 1].1)
  }

  lemma {:induction false} AfterSpoken<R, G>(logits: seq<Token> -> R, r: Request<R, G>, k: nat)
      returns (left: seq<(G, int)>)
    ensures Spoken(logits, r, After(logits, r, k), left)
  {
    if k == 0 {
      left := [(r.text, r.seed)];
    } else {
      left := AfterSpoken(logits, r, k - 1);
      AfterNext(logits, r, k - 1);
      left := NextSpoken(logits, r, After(logits, r, k - 1), left);
    }
  }

  lemma NextSpoken<R, G>(logits: seq<Token> -> R, r: Request<R, G>, s: Reply<G>, left: seq<(G, int)>)
      returns (more: seq<(G, int)>)
    requires Spoken(logits, r, s, left)
    ensures Spoken(logits, r, Next(logits, r, s), more)
  {
    more := left;
    if Over(r, s) { return; }
    var n := |s.taken|;
    var x := r.take(s.text, s.rng, logits(r.ids + s.taken));
    if x.verdict == EndNone {
      forall k | 0 <= k < n ensures TakenThere(logits, r, s.taken, left, k, EndNone) {
        assert TakenThere(logits, r, s.taken, left, k, s.st);
      }
      return;
    }
    more := left + [(x.text, x.rng)];
    var taken := s.taken + [x.token];
    forall k | 0 <= k < n ensures TakenThere(logits, r, taken, more, k, x.verdict) {
      assert TakenThere(logits, r, s.taken, left, k, s.st);
      assert taken[..k] == s.taken[..k];
    }
    assert taken[..n] == s.taken;
    assert TakenThere(logits, r, taken, more, n, x.verdict);
    hide TakenThere;
  }

  /** The reply alone is a reply, and one that goes on has all the tokens asked for. */
  lemma AloneIsSpoken<R, G>(logits: seq<Token> -> R, r: Request<R, G>) returns (left: seq<(G, int)>)
    ensures Spoken(logits, r, Alone(logits, r), left)
    ensures Alone(logits, r).st == Go ==> |Alone(logits, r).taken| == r.maxNew
  {
    left := AfterSpoken(logits, r, r.maxNew);
    AloneIsOver(logits, r, r.maxNew);
  }

  /** The reply with fewer tokens allowed is the beginning of the reply with more. */
  lemma {:induction false} GrowsFrom<R, G>(logits: seq<Token> -> R, r: Request<R, G>, k: nat, n: nat)
    requires k <= n
    ensures After(logits, r, k).taken <= After(logits, r, n).taken
    decreases n
  {
    if k < n { GrowsFrom(logits, r, k, n - 1); }
  }
}
