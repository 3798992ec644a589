/**
 * A request being served: its prompt run in pieces, its tokens taken from
 * rows, one at a time or with drafts after them, and what its reply is worth
 * at the end.
 */
module Serving {
  import opened Basics
  import opened Drafting
  import opened Lending
  import opened Solo

  const PROMPT_PIECE := 512
  const PROMPT_PIECE_STEPS := 8

  lemma AppendAssociates(a: seq<Token>, b: seq<Token>, u: Token)
    ensures (a + b) + [u] == a + (b + [u]) && (b + [u])[..|b|] == b
  {
  }

  /** How many rows ran before the first that did not. */
  function Leading(ran: seq<bool>): (n: nat)
    ensures n <= |ran| && (forall i :: 0 <= i < n ==> ran[i]) && (n < |ran| ==> !ran[n])
  {
    if ran != [] && ran[0] then 1 + Leading(ran[1..]) else 0
  }

  method CountRan(ran: seq<bool>, from: nat, end: nat) returns (fed: nat)
    requires from <= end <= |ran|
    ensures fed == Leading(ran[from..end])
  {
    ghost var mine := ran[from..end];
    fed := 0;
    while from + fed < end && ran[from + fed]
      invariant from + fed <= end && forall i :: 0 <= i < fed ==> mine[i]
    {
      fed := fed + 1;
    }
  }

  /** The row after token i of a pass that begins with held in the cache. */
  function RowAfter<R>(logits: seq<Token> -> R, held: seq<Token>, pass: seq<Token>, i: nat): R
    requires i < |pass|
  {
    logits(held + pass[..i + 1])
  }

  function Left(all: nat, done: nat): nat { if done < all then all - done else 0 }

  /** The next piece of a prompt with left tokens to run. */
  function Piece(left: nat, min: nat): nat {
    var piece := if min > 1 then PROMPT_PIECE else PROMPT_PIECE_STEPS;
    var after := Max(piece / 2, min);
    if left >= piece + after then piece else left
  }

  /**
   * A piece split off leaves at least half a piece and the least the model runs alike, and is
   * itself no less as long as that is at most a piece; and one is split off whenever it would leave
   * that much.
   */
  lemma PieceIsEnough(left: nat, min: nat)
    requires left > 0
    ensures 0 < Piece(left, min) <= left
    ensures Piece(left, min) < left ==>
          left - Piece(left, min) >= min &&
          2 * (left - Piece(left, min)) >= Piece(left, min)
    ensures Piece(left, min) < left ==> (Piece(left, min) >= min <==> min <= PROMPT_PIECE)
    ensures var piece := if min > 1 then 512 else 8;
            Piece(left, min) ==
              if piece < left && left - piece >= min && 2 * (left - piece) >= piece then piece else left
  {
  }

  /**
   * How many tokens a request may take, or nothing when it is refused: with
   * no prompt, with no room left, or asking for more than the room, but for
   * Messages, which takes what room there is.
   */
  function Allowed(count: nat, ctx: nat, messages: bool, chat: bool, asked: Option<nat>): Option<nat> {
    var room := if count < ctx then ctx - count else 0;
    var most := if asked.Some? then asked.value else if chat then room else 16;
    var max := if messages && room > 0 && most > room then room else most;
    if count == 0 || room == 0 || max > room then None else Some(max)
  }

  /**
   * Whatever is not refused can be served: every token it may take fits the context, and it may take
   * as many as it wants, or as many as fit when a Messages request wants more. A refusal is for one
   * of three reasons.
   */
  lemma AllowedIsServable<R, G>(r: Request<R, G>, ctx: nat, messages: bool, chat: bool, asked: Option<nat>)
    requires asked.Some? ==> asked.value >= 1
    ensures Allowed(|r.ids|, ctx, messages, chat, asked) == Some(r.maxNew) ==>
              Servable(r, ctx) && Grants(Asking(r, messages, chat, asked), ctx, r.maxNew)
    ensures Allowed(|r.ids|, ctx, messages, chat, asked).None? <==>
              || |r.ids| == 0
              || |r.ids| >= ctx
              || (!messages && |r.ids| + (if asked.Some? then asked.value else if chat then 0 else 16) > ctx)
  {
  }

  /** A request as it comes: in which shape, and how many tokens it asks for, if it says. */
  datatype Asking<!R, !G> = Asking(request: Request<R, G>, messages: bool, chat: bool, most: Option<nat>) {
    /** The tokens it wants: those it asks for, or all there is room for in a chat, or 16. */
    function Wants(ctx: nat): nat {
      match most
      case Some(n) => n
      case None => if !chat then 16 else if ctx <= |request.ids| then 0 else ctx - |request.ids|
    }
  }

  /** How many tokens a request is let take: what it wants, or less only to fill the context for Messages. */
  predicate Grants<R, G>(a: Asking<R, G>, ctx: nat, n: nat) {
    && 1 <= n <= a.Wants(ctx) && |a.request.ids| + n <= ctx
    && (n < a.Wants(ctx) ==> a.messages && |a.request.ids| + n == ctx)
  }

  /** Which requests are refused: with no prompt, no room, or, but for Messages, too little room. */
  predicate Refuses<R, G>(a: Asking<R, G>, ctx: nat) {
    a.request.ids == [] || |a.request.ids| >= ctx || (!a.messages && |a.request.ids| + a.Wants(ctx) > ctx)
  }

  /** The request that is queued, with the tokens it may take; none when it is refused. */
  function Admitted<R, G>(a: Asking<R, G>, ctx: nat): (r: Option<Request<R, G>>)
    requires a.most.Some? ==> a.most.value >= 1
    ensures r.Some? ==> Servable(r.value, ctx)
  {
    match Allowed(|a.request.ids|, ctx, a.messages, a.chat, a.most)
    case None => None
    case Some(n) =>
      var queued := a.request.(maxNew := n);
      AllowedIsServable(queued, ctx, a.messages, a.chat, a.most);
      Some(queued)
  }

  /** What is queued is the request as it came, granted its tokens, unless it is refused. */
  lemma AdmittedAsAsked<R, G>(a: Asking<R, G>, ctx: nat)
    requires a.most.Some? ==> a.most.value >= 1
    ensures Admitted(a, ctx).None? <==> Refuses(a, ctx)
    ensures match Admitted(a, ctx)
            case None => true
            case Some(r) => r == a.request.(maxNew := r.maxNew) && Grants(a, ctx, r.maxNew)
  {
  }

  /**
   * How many drafts go into a round: as many as are spare, may still be taken after this token, and
   * fit the context after it.
   */
  function Fitting(drafts: nat, spare: nat, left: nat, ctx: nat, past: nat): (d: nat)
    requires left > 0
    ensures d <= drafts && d <= spare && d < left && (past < ctx ==> past + d + 1 <= ctx)
    ensures d == drafts || d == spare || d == left - 1 || past + d + 1 >= ctx
  {
    var n := Min(drafts, spare);
    if n == 0 then 0 else Min(Min(n, left - 1), if past + 1 < ctx then ctx - past - 1 else 0)
  }

  /** Rows a request may ask for with n tokens still to take: at each, no more than it may still take. */
  function RowsFor(n: nat): nat { if n == 0 then 0 else n + RowsFor(n - 1) }

  lemma {:induction false} FewerRows(m: nat, n: nat)
    requires m <= n
    ensures RowsFor(m) <= RowsFor(n)
  {
    if m < n { FewerRows(m, n - 1); }
  }

  /** The steps a request may ask of the model: its prompt's, and those of its tokens and its drafts. */
  function StepsFor<R, G>(r: Request<R, G>): nat { |r.ids| + RowsFor(r.maxNew) }

  /** A pass cut after some of its tokens. */
  lemma CutPass(cached: seq<Token>, pass: seq<Token>, keep: nat)
    requires keep <= |pass|
    ensures Min(|cached| + keep, |cached + pass|) == |cached| + keep
    ensures (cached + pass)[..|cached| + keep] == cached + pass[..keep]
  {
  }

  class Job<!R, !G> {
    const request: Request<R, G>
    var drafter: Drafter
    var lent: nat
    var begun: bool
    var ended: bool
    var prompting: bool
    var promptAt: nat
    var failed: bool
    var ok: bool
    var reply: Reply<G>
    var completion: nat
    var t: Token
    var drafting: bool
    var history: seq<Token>
    var pass: seq<Token>
    var d: nat
    var row0: nat
    var start: nat
    var steps: nat
    var asked: nat

    constructor (request: Request<R, G>)
      ensures this.request == request && Waiting()
    {
      this.request := request;
      drafter := Drafter(0, 0, 1);
      lent, begun, ended, prompting, promptAt := 0, false, false, false, 0;
      failed, ok := false, false;
      reply, completion, t := Reply([], request.text, request.seed, ByLength, Go), 0, 0;
      drafting, history, pass, d, row0, start := false, [], [0], 0, 0, 0;
      steps, asked := 0, 0;
    }

    /** Queued, and nothing done for it yet. */
    ghost predicate Waiting()
      reads `begun, `ended, `prompting, `failed, `promptAt, `reply, `completion, `steps, `asked, `drafter
    {
      && !begun && !ended && !prompting && !failed && promptAt == 0 && drafter == Drafter(0, 0, 1)
      && reply == Reply([], request.text, request.seed, ByLength, Go) && completion == 0 && steps == 0
      && asked == 0
    }

    /** The model failed at a step it was asked to run for this request. */
    ghost predicate Broke() reads `asked { exists k :: 0 <= k < asked && request.fate.fails(k) }

    /** The client, reading the reply as it is written, left before it was over. */
    ghost predicate GaveUp() reads `steps { LeftBy(steps) }

    ghost predicate LeftBy(n: nat) { request.stream && exists k: nat :: k <= n && request.fate.leaves(k) }

    lemma LeavesNow(n: nat)
      ensures LeftBy(n) ==> LeftBy(n + 1)
      ensures request.stream && request.fate.leaves(n) ==> LeftBy(n)
    {
    }

    /** Nothing but the model and the client is to blame for a reply that is not whole. */
    ghost predicate Blameless() reads `ok, `failed, `asked, `steps { (!ok ==> Broke()) && (failed ==> GaveUp()) }

    /** The model is asked for no more steps than its prompt and these many tokens can need. */
    ghost predicate Paced(taken: nat) reads `asked {
      asked + RowsFor(Left(request.maxNew, taken)) <= StepsFor(request)
    }

    /** Its reply so far is what it would be alone after as many tokens. */
    ghost predicate AsAlone(logits: seq<Token> -> R)
      reads `steps, `reply, `completion
    {
      reply == After(logits, request, steps) && completion == |reply.taken| <= request.maxNew && steps <= request.maxNew
    }

    /** Prompting: the sequence holds the prompt this far, and no token is taken. */
    ghost predicate Prompting(logits: seq<Token> -> R, cached: seq<Token>) reads this {
      && AsAlone(logits) && begun && !ended && prompting && ok && Blameless() && asked <= promptAt
      && reply.taken == [] && reply.st == Go
      && promptAt < |request.ids| && cached == request.ids[..promptAt] && drafter.Valid()
      && (drafting ==> history == request.ids)
    }

    /** Decoding, with the row after held due: the one the next token is taken from. */
    ghost predicate AtRow(logits: seq<Token> -> R, held: seq<Token>)
      reads `begun, `ended, `prompting, `ok, `failed, `steps, `asked, `reply, `completion, `drafter, `drafting, `history
    {
      && AsAlone(logits) && begun && !ended && !prompting && ok && Blameless()
      && reply.st == Go && |reply.taken| < request.maxNew && drafter.Valid()
      && held == request.ids + reply.taken
      && (drafting ==> history == request.ids + reply.taken)
    }

    /** Decoding, with the last token taken yet to run. */
    ghost predicate Decoding(logits: seq<Token> -> R, cached: seq<Token>)
      reads `begun, `ended, `prompting, `ok, `failed, `steps, `asked, `reply, `completion, `drafter, `drafting,
          `history, `t
    {
      && reply.taken != [] && t == reply.taken[|reply.taken| - 1]
      && AtRow(logits, cached + [t]) && Paced(|reply.taken|)
    }

    /**
     * Ended. A reply whose steps all ran, for a client still there, is the
     * whole reply it would be alone. Otherwise the model failed or the client
     * left, and it is the beginning of that.
     */
    ghost predicate Answered(logits: seq<Token> -> R)
      reads `ended, `prompting, `ok, `failed, `steps, `asked, `reply, `completion
    {
      && AsAlone(logits) && ended && !prompting && Blameless() && Paced(request.maxNew)
      && (ok && !failed ==> Over(request, reply))
    }

    /** The reply that was promised: whole when every step ran and the client stayed, its beginning otherwise. */
    lemma AnsweredIsAlone(logits: seq<Token> -> R)
      requires Answered(logits)
      ensures ok && !failed ==> reply == Alone(logits, request) && completion == |Alone(logits, request).taken|
      ensures reply.taken <= Alone(logits, request).taken && completion <= request.maxNew
      ensures !Broke() && !GaveUp() ==> ok && !failed
      ensures asked <= StepsFor(request) && steps <= request.maxNew
    {
      AloneIsOver(logits, request, steps);
      if steps <= request.maxNew {
        GrowsFrom(logits, request, steps, request.maxNew);
      } else {
        AloneIsOver(logits, request, request.maxNew);
        StaysOver(logits, request, request.maxNew, steps);
      }
    }

    /**
     * What an ended request leaves its sequence holding: after a whole reply, exactly the tokens
     * one step at a time would have run.
     */
    ghost predicate LeftBehind(logits: seq<Token> -> R, cached: seq<Token>)
      reads `ended, `prompting, `ok, `failed, `steps, `asked, `reply, `completion
    {
      && Answered(logits)
      && (ok && !failed ==> cached == Held(request, reply))
      && (ok && failed ==> cached == Held(request, reply) || cached == request.ids + reply.taken)
    }

    ghost predicate Fits(ctx: nat, q: Sequence) reads q`cached, q`kv {
      Servable(request, ctx) && q.cached == q.kv && |q.kv| <= ctx
    }

    ghost predicate Sound(logits: seq<Token> -> R, ctx: nat, q: Sequence) reads this, q`cached, q`kv {
      && Fits(ctx, q)
      && (Prompting(logits, q.cached) || Decoding(logits, q.cached) || LeftBehind(logits, q.cached))
    }

    /** A token from a row: the sampler is loaded with the request's own state, and the state kept. */
    method TakeToken(logits: seq<Token> -> R, row: R, samplers: array<int>, w: nat, ghost held: seq<Token>)
        returns (u: Token)
      requires w < samplers.Length
      requires AtRow(logits, held) && row == logits(held)
      modifies `reply, `completion, `failed, `steps, `history, samplers
      ensures steps == old(steps) + 1 && AsAlone(logits) && Blameless()
      ensures reply.taken == if reply.st == EndNone then old(reply.taken) else old(reply.taken) + [u]
      ensures drafting ==> history == request.ids + reply.taken
      ensures old(failed) ==> failed
    {
      StillGoing(logits, request, steps);
      LeavesNow(steps);
      hide LeftBy;
      hide Broke;
      hide After;
      AfterNext(logits, request, steps);
      samplers[w] := reply.rng;
      var x := request.take(reply.text, samplers[w], row);
      samplers[w] := x.rng;
      u := if x.verdict == EndNone then 0 else x.token;
      AppendAssociates(request.ids, reply.taken, u);
      reply := Reply(if x.verdict == EndNone then reply.taken else reply.taken + [u], x.text, samplers[w],
                     if x.verdict == Go then reply.finish else ByStop, x.verdict);
      steps := steps + 1;
      if x.verdict != EndNone {
        completion := completion + 1;
        if drafting { history := history + [u]; }
      }
      Tell();
    }

    /** The client is told of the reply so far, if it is still there. */
    method Tell()
      requires ok && (failed ==> GaveUp())
      modifies `failed
      ensures Blameless() && (old(failed) ==> failed)
    {
      LeavesNow(steps);
      hide LeftBy;
      if request.stream && request.fate.leaves(steps) { failed := true; }
    }

    /** What is left to do, at most. */
    ghost function Work(): nat
      reads `begun, `ended, `prompting, `promptAt, `completion
    {
      if !begun then |request.ids| + request.maxNew + 2
      else if ended then 0
      else if prompting then Left(|request.ids|, promptAt) + request.maxNew + 1
      else Left(request.maxNew, completion) + 1
    }

    /** A request's start: what its sequence already holds of the prompt is kept, the rest forgotten. */
    method Begin(logits: seq<Token> -> R, ctx: nat, prefixCache: bool, speculate: nat, q: Sequence)
      requires Waiting() && Fits(ctx, q)
      modifies this, q`kv, q`cached
      ensures Fits(ctx, q) && Prompting(logits, q.cached) && lent == old(lent)
      ensures promptAt == Reuse(prefixCache, old(q.cached), request.ids)
      ensures Work() < old(Work())
    {
      hide LeftBy;
      hide AsAlone;
      hide Prompting;
      hide Reuse;
      var reuse := q.KeepPrefix(prefixCache, request.ids);
      drafter := Drafter(speculate, 0, 1);
      begun, promptAt, prompting, ok := true, reuse, true, true;
      drafting := speculate > 0;
      if drafting { history := request.ids; }
      Tell();
      NowPrompting(logits, q.cached);
    }

    lemma NowPrompting(logits: seq<Token> -> R, cached: seq<Token>)
      requires reply == Reply([], request.text, request.seed, ByLength, Go) && completion == 0 && steps == 0
      requires begun && !ended && prompting && ok && (failed ==> GaveUp()) && asked == 0
      requires promptAt < |request.ids| && cached == request.ids[..promptAt] && drafter.Valid()
      requires drafting ==> history == request.ids
      ensures Prompting(logits, cached)
    {
      AfterNothing(logits, request);
      hide After;
    }

    /** A piece of the prompt run; the tokens that ran join what the sequence holds. */
    method RunPiece(logits: seq<Token> -> R, ctx: nat, n: nat, q: Sequence)
      requires Fits(ctx, q) && Prompting(logits, q.cached) && 0 < n <= |request.ids| - promptAt
      modifies `promptAt, `ok, `prompting, `ended, `asked, q`kv, q`cached
      ensures Blameless() && asked == old(asked) + n <= old(promptAt) + n
      ensures Fits(ctx, q) && promptAt <= |request.ids| && q.cached == request.ids[..promptAt] && AsAlone(logits)
      ensures ended ==> !ok && !prompting && promptAt < old(promptAt) + n
      ensures !ended ==> ok && prompting && promptAt == old(promptAt) + n
    {
      hide After;
      hide AsAlone;
      var piece := request.ids[promptAt..promptAt + n];
      var ran := q.Steps(ctx, piece, request.fate.fails, asked);
      ghost var first := asked;
      asked := asked + n;
      q.cached := q.cached + piece[..ran];
      assert q.cached == request.ids[..promptAt + ran];
      promptAt := promptAt + ran;
      if ran < n {
        ok, prompting, ended := false, false, true;
        assert request.fate.fails(first + ran);
      }
    }

    /** The first token, from the row after the prompt. */
    method FirstToken(logits: seq<Token> -> R, samplers: array<int>)
      requires AtRow(logits, request.ids) && reply.taken == [] && samplers.Length > 0 && asked <= |request.ids|
      modifies `reply, `completion, `failed, `steps, `history, `t, `ended, samplers
      ensures Decoding(logits, request.ids) || LeftBehind(logits, request.ids)
    {
      hide AtRow;
      hide Paced;
      PacedFirst(completion + 1);
      PacedFirst(request.maxNew);
      StillThere(logits, request.ids);
      if request.maxNew > 0 && !failed {
        TakeNext(logits, logits(request.ids), samplers, 0, request.ids);
      } else {
        Leave(logits, request.ids);
      }
    }

    lemma PacedFirst(taken: nat)
      requires asked <= |request.ids|
      ensures Paced(taken)
    {
      FewerRows(Left(request.maxNew, taken), request.maxNew);
    }

    /** A request whose client has left takes no more tokens. */
    method Leave(logits: seq<Token> -> R, ghost held: seq<Token>)
      requires AtRow(logits, held) && failed && Paced(request.maxNew)
      modifies `ended
      ensures LeftBehind(logits, held) && ended
    {
      hide After;
      hide Paced;
      hide Blameless;
      ended := true;
    }

    /** The next piece of the prompt, and after the last the first token. */
    method Prompt(logits: seq<Token> -> R, ctx: nat, min: nat, whole: bool, q: Sequence, samplers: array<int>)
      requires Fits(ctx, q) && Prompting(logits, q.cached) && samplers.Length > 0
      modifies this, q`kv, q`cached, samplers
      ensures Sound(logits, ctx, q) && begun && lent == old(lent) && drafting == old(drafting)
      ensures Work() < old(Work())
      ensures var left := |request.ids| - old(promptAt);
              asked == old(asked) + (if whole then left else Piece(left, min))
      ensures !ended && prompting ==> promptAt == old(promptAt) + Piece(|request.ids| - old(promptAt), min)
      ensures whole ==> ended || !prompting
    {
      hide After;
      var left := |request.ids| - promptAt;
      var n := if whole then left else Piece(left, min);
      PieceIsEnough(left, min);
      hide Piece;
      RunPiece(logits, ctx, n, q);
      if ended || n < left { return; }
      prompting := false;
      assert request.ids + reply.taken == request.ids == q.cached;
      FirstToken(logits, samplers);
    }

    /** The round's rows that are this request's: the token taken last, then the tokens drafted after it. */
    ghost predicate Planned(q: Sequence, rows: nat) reads this, q`cached {
      && |pass| == d + 1 && pass[0] == t && row0 + d + 1 <= rows && start == |q.cached|
      && d + |reply.taken| < request.maxNew
    }

    /**
     * After the round's rows ran: those of this request that ran come first,
     * their tokens are in the sequence, and each row is the one after
     * everything before it.
     */
    ghost predicate Stepped(logits: seq<Token> -> R, q: Sequence, outs: seq<R>, ran: seq<bool>) reads this, q`cached,
        q`kv
    {
      && |outs| == |ran| && Planned(q, |outs|)
      && var f := Leading(ran[row0..row0 + d + 1]);
      && q.kv == q.cached + pass[..f] && (f <= d ==> request.fate.fails(asked + f))
      && forall i :: 0 <= i < f ==> outs[row0 + i] == RowAfter(logits, q.cached, pass, i)
    }

    /** What the drafter guesses will follow. */
    method AskDrafter(logits: seq<Token> -> R, ghost cached: seq<Token>) returns (drafts: seq<Token>)
      requires Decoding(logits, cached) && drafting
      modifies `drafter
      ensures Decoding(logits, cached)
    {
      hide After;
      var next;
      drafts, next := Draft(drafter, history);
      drafter := next;
    }

    /**
     * Its rows for a round, from row n on: no more drafts than are spare, may still be taken after
     * this token, or fit the context.
     */
    method Plan(logits: seq<Token> -> R, ctx: nat, q: Sequence, spare: nat, n: nat)
      requires Fits(ctx, q) && Decoding(logits, q.cached)
      modifies `pass, `d, `row0, `start, `drafter
      ensures Decoding(logits, q.cached)
      ensures Planned(q, n + d + 1) && row0 == n && d <= spare && start + d + 1 <= ctx
    {
      PlanRoom(logits, ctx, q);
      hide After;
      hide Fitting;
      hide Fits;
      hide Decoding;
      var past := |q.kv|;
      var drafts: seq<Token> := [];
      var more := 0;
      if drafting && spare > 0 {
        drafts := AskDrafter(logits, q.cached);
        more := Fitting(|drafts|, spare, request.maxNew - completion, ctx, past);
      }
      SetRows([t] + drafts[..more], more, n, past);
    }

    method SetRows(pass: seq<Token>, d: nat, row0: nat, start: nat)
      modifies `pass, `d, `row0, `start
      ensures this.pass == pass && this.d == d && this.row0 == row0 && this.start == start
    {
      this.pass, this.d, this.row0, this.start := pass, d, row0, start;
    }

    lemma PlanRoom(logits: seq<Token> -> R, ctx: nat, q: Sequence)
      requires Fits(ctx, q) && Decoding(logits, q.cached)
      ensures q.cached == q.kv && |q.kv| < ctx && completion == |reply.taken| < request.maxNew
    {
      assert |q.cached + [t]| == |request.ids + reply.taken|;
    }

    /** A round's rows are what it may ask for before its next token. */
    lemma PacedRound(logits: seq<Token> -> R, cached: seq<Token>)
      requires Decoding(logits, cached) && d + |reply.taken| < request.maxNew
      ensures asked + d + 1 + RowsFor(Left(request.maxNew, completion + 1)) <= StepsFor(request)
    {
    }

    lemma NowPaced(taken: nat)
      requires asked + RowsFor(Left(request.maxNew, taken)) <= StepsFor(request)
      ensures Paced(taken) && Paced(request.maxNew)
    {
      FewerRows(0, Left(request.maxNew, taken));
    }

    lemma NowBroke(k: nat)
      requires k < asked && request.fate.fails(k)
      ensures Broke()
    {
    }

    lemma PacedLater(taken: nat, later: nat)
      requires Paced(taken) && taken <= later
      ensures Paced(later)
    {
      FewerRows(Left(request.maxNew, later), Left(request.maxNew, taken));
    }

    /**
     * The tokens a pass over the drafts gives, for as long as they agree with the drafts; keep says
     * how many of the pass's tokens stay run.
     */
    method TakePass(logits: seq<Token> -> R, outs: seq<R>, samplers: array<int>, w: nat, ghost cached: seq<Token>)
      returns (keep: nat, st: Verdict)
      requires AtRow(logits, cached + [t]) && w < samplers.Length
      requires |pass| == d + 1 && pass[0] == t && row0 + d + 1 <= |outs| && d + |reply.taken| < request.maxNew
      requires forall i :: 0 <= i <= d ==> outs[row0 + i] == RowAfter(logits, cached, pass, i)
      modifies `reply, `completion, `failed, `steps, `history, `t, samplers
      ensures Blameless()
      ensures 0 < keep <= d + 1 && AsAlone(logits) && completion == |reply.taken| &&
          (drafting ==> history == request.ids + reply.taken)
      ensures failed || completion > old(completion) || Over(request, reply)
      ensures !failed && st == Go && completion < request.maxNew ==> completion > old(completion)
      ensures PassDone(cached + pass[..keep], st)
    {
      hide After;
      hide Blameless;
      hide Paced;
      hide PassDone;
      hide Held;
      keep, st := 0, Go;
      var i := 0;
      assert cached + pass[..1] == cached + [t];
      while true
        invariant 0 <= i <= d && t == old(t) && completion == old(completion) + i
        invariant AtRow(logits, cached + pass[..i + 1])
        decreases d - i
      {
        keep := i + 1;
        if failed {
          PassLeft(cached + pass[..keep], st);
          break;
        }
        ghost var held, before := cached + pass[..keep], reply.taken;
        assert outs[row0 + i] == RowAfter(logits, cached, pass, i);
        var u := TakeToken(logits, outs[row0 + i], samplers, w, held);
        st := reply.st;
        AppendAssociates(request.ids, before, u);
        if st == Go && completion < request.maxNew && i < d && u == pass[i + 1] {
          assert cached + pass[..i + 2] == held + [u] == request.ids + reply.taken;
          i := i + 1;
        } else {
          t := u;
          PassEnds(held, before);
          break;
        }
      }
    }

    /** A pass used as far as held: over, or the next token is still to run; or the client has left. */
    ghost predicate PassDone(held: seq<Token>, st: Verdict) reads `failed, `completion, `reply, `t {
      && (failed ==> held == Held(request, reply) || held == request.ids + reply.taken)
      && (!failed && st == Go && completion < request.maxNew ==>
            reply.st == Go && reply.taken != [] && t == reply.taken[|reply.taken| - 1]
            && held + [t] == request.ids + reply.taken)
      && (!failed && !(st == Go && completion < request.maxNew) ==>
            Over(request, reply) && held == Held(request, reply))
    }

    lemma PassLeft(held: seq<Token>, st: Verdict)
      requires failed && held == request.ids + reply.taken
      ensures PassDone(held, st)
    {
    }

    lemma PassEnds(held: seq<Token>, before: seq<Token>)
      requires held == request.ids + before && completion == |reply.taken|
      requires reply.taken == if reply.st == EndNone then before else before + [t]
      ensures PassDone(held, reply.st) && held == Held(request, reply)
    {
      AppendAssociates(request.ids, before, t);
    }

    /** A round without drafts: the token taken last ran, and one more is taken from the row after it. */
    method TakeOne(logits: seq<Token> -> R, ctx: nat, outs: seq<R>, ran: seq<bool>, q: Sequence, samplers: array<int>,
        w: nat)
      requires Servable(request, ctx) && |q.kv| <= ctx && w < samplers.Length && d == 0
      requires Decoding(logits, q.cached) && Stepped(logits, q, outs, ran)
      modifies this, q`cached, samplers
      ensures Sound(logits, ctx, q) && begun && !prompting && lent == old(lent) && asked == old(asked + d) + 1
      ensures Work() < old(Work())
    {
      hide *;
      OneRow(logits, q, outs, ran);
      ghost var before, was := Work(), completion;
      if !ran[row0] {
        RowFailed(logits, ctx, q, 0);
        LessWork(before, was);
        return;
      }
      RowsRan(logits, q.cached);
      q.cached := q.cached + [t];
      StillThere(logits, q.cached);
      SetToFit(ctx, q);
      if failed {
        Leave(logits, q.cached);
      } else {
        TakeNext(logits, outs[row0], samplers, w, q.cached);
      }
      LessWork(before, was);
      NowSound(logits, ctx, q);
    }

    /** What a round of one row leaves. */
    lemma OneRow(logits: seq<Token> -> R, q: Sequence, outs: seq<R>, ran: seq<bool>)
      requires Decoding(logits, q.cached) && Stepped(logits, q, outs, ran) && d == 0
      ensures begun && !prompting && |reply.taken| < request.maxNew && |pass| == 1 && row0 < |outs| == |ran|
      ensures Work() == Left(request.maxNew, completion) + 1 && completion < request.maxNew
      ensures if ran[row0] then q.kv == q.cached + [t] && outs[row0] == logits(q.cached + [t])
              else q.kv == q.cached + pass[..0] && request.fate.fails(asked + 0)
    {
      hide After;
      hide Paced;
      hide Blameless;
      assert ran[row0..row0 + 1] == [ran[row0]] && pass[..1] == [t];
      if ran[row0] { assert outs[row0 + 0] == RowAfter(logits, q.cached, pass, 0); }
    }

    lemma LessWork(before: nat, was: nat)
      requires begun && (ended || (!prompting && completion > was))
      requires before == Left(request.maxNew, was) + 1 && was < request.maxNew
      ensures Work() < before
    {
    }

    lemma NowSound(logits: seq<Token> -> R, ctx: nat, q: Sequence)
      requires Fits(ctx, q) && (Decoding(logits, q.cached) || LeftBehind(logits, q.cached))
      ensures Sound(logits, ctx, q)
    {
    }

    /** One token from the row after held. */
    method TakeNext(logits: seq<Token> -> R, row: R, samplers: array<int>, w: nat, ghost held: seq<Token>)
      requires AtRow(logits, held) && row == logits(held) && w < samplers.Length
      requires Paced(completion + 1) && Paced(request.maxNew)
      modifies `reply, `completion, `failed, `steps, `history, `t, `ended, samplers
      ensures Decoding(logits, held) || LeftBehind(logits, held)
      ensures completion > old(completion) || ended
    {
      hide After;
      ghost var before := reply.taken;
      var u := TakeToken(logits, row, samplers, w, held);
      assert (before + [u])[..|before|] == before && held + [u] == request.ids + (before + [u]);
      t := u;
      ended := !(ok && reply.st == Go && completion < request.maxNew);
    }

    /** The first of its rows that did not run ends a request: the tokens before it stay, it does not. */
    method RowFailed(logits: seq<Token> -> R, ctx: nat, q: Sequence, fed: nat)
      requires Servable(request, ctx) && |q.kv| <= ctx && Decoding(logits, q.cached)
      requires fed <= d && d + |reply.taken| < request.maxNew && |pass| == d + 1
      requires q.kv == q.cached + pass[..fed] && request.fate.fails(asked + fed)
      modifies `ok, `ended, `asked, q`cached
      ensures Sound(logits, ctx, q) && ended && asked == old(asked) + d + 1
    {
      PacedRound(logits, q.cached);
      hide AsAlone;
      hide Paced;
      hide Broke;
      hide GaveUp;
      hide RowsFor;
      q.cached := q.cached + pass[..fed];
      asked := asked + d + 1;
      NowPaced(completion + 1);
      NowBroke(asked - d - 1 + fed);
      ok, ended := false, true;
    }

    /** A round's rows all ran. */
    method RowsRan(logits: seq<Token> -> R, ghost cached: seq<Token>)
      requires Decoding(logits, cached) && d + |reply.taken| < request.maxNew
      modifies `asked
      ensures asked == old(asked) + d + 1 && AtRow(logits, cached + [t])
      ensures Paced(completion + 1) && Paced(request.maxNew)
    {
      PacedRound(logits, cached);
      hide AsAlone;
      hide Paced;
      hide Broke;
      hide GaveUp;
      hide RowsFor;
      asked := asked + d + 1;
      NowPaced(completion + 1);
      StillBlameless();
    }

    /**
     * A round with drafts: tokens are taken while they agree with the drafts, and the drafts that
     * did not are unrun.
     */
    method TakeSeveral(logits: seq<Token> -> R, ctx: nat, outs: seq<R>, ran: seq<bool>, q: Sequence,
        samplers: array<int>, w: nat)
      requires Servable(request, ctx) && |q.kv| <= ctx && w < samplers.Length
      requires Decoding(logits, q.cached) && Stepped(logits, q, outs, ran)
      modifies this, q`kv, q`cached, samplers
      ensures Sound(logits, ctx, q) && begun && !prompting && lent == old(lent) && asked == old(asked + d) + 1
      ensures Work() < old(Work())
    {
      assert completion < request.maxNew;
      hide AsAlone;
      hide Paced;
      hide Blameless;
      var fed := CountRan(ran, row0, row0 + d + 1);
      if fed < d + 1 {
        RowFailed(logits, ctx, q, fed);
        return;
      }
      assert pass[..fed] == pass;
      TakeDrafted(logits, ctx, outs, q, samplers, w);
    }

    /** A pass that ran whole: its tokens taken, its row of drafts kept as far as they were taken. */
    method TakeDrafted(logits: seq<Token> -> R, ctx: nat, outs: seq<R>, q: Sequence, samplers: array<int>, w: nat)
      requires Servable(request, ctx) && |q.kv| <= ctx && w < samplers.Length
      requires Decoding(logits, q.cached) && Planned(q, |outs|) && q.kv == q.cached + pass
      requires forall i :: 0 <= i <= d ==> outs[row0 + i] == RowAfter(logits, q.cached, pass, i)
      modifies this, q`kv, q`cached, samplers
      ensures Sound(logits, ctx, q) && begun && !prompting && lent == old(lent) && asked == old(asked + d) + 1
      ensures ended || completion > old(completion)
    {
      hide *;
      ghost var cached, one := q.cached, completion + 1;
      WhatIsPlanned(logits, q, |outs|);
      RowsRan(logits, q.cached);
      StillThere(logits, q.cached + [t]);
      var keep, st := TakePass(logits, outs, samplers, w, q.cached);
      drafter := Heed(drafter, keep - 1);
      CutPass(cached, pass, keep);
      q.Truncate(start + keep);
      q.cached := q.cached + pass[..keep];
      if completion >= one { PacedLater(one, completion); }
      SetToFit(ctx, q);
      Settle(logits, ctx, q, st);
    }

    lemma WhatIsPlanned(logits: seq<Token> -> R, q: Sequence, rows: nat)
      requires Decoding(logits, q.cached) && Planned(q, rows)
      ensures |pass| == d + 1 && pass[0] == t && row0 + d + 1 <= rows && start == |q.cached|
      ensures d + |reply.taken| < request.maxNew && completion == |reply.taken|
    {
    }

    lemma SetToFit(ctx: nat, q: Sequence)
      requires Servable(request, ctx) && q.cached == q.kv && |q.kv| <= ctx
      ensures Fits(ctx, q)
    {
    }

    lemma StillThere(logits: seq<Token> -> R, held: seq<Token>)
      requires AtRow(logits, held)
      ensures begun && !ended && !prompting && ok && drafter.Valid() && |reply.taken| < request.maxNew
    {
    }

    /** Steps that ran do not make a reply less than whole. */
    lemma StillBlameless()
      requires ok && (failed ==> GaveUp())
      ensures Blameless()
    {
    }

    /** After a pass: over, or decoding on. */
    method Settle(logits: seq<Token> -> R, ctx: nat, q: Sequence, st: Verdict)
      requires Fits(ctx, q) && AsAlone(logits) && begun && !ended && !prompting && ok && drafter.Valid()
      requires Blameless() && Paced(request.maxNew)
      requires drafting ==> history == request.ids + reply.taken
      requires PassDone(q.cached, st) && (!failed && st == Go && completion < request.maxNew ==> Paced(completion))
      modifies `ended
      ensures Sound(logits, ctx, q)
      ensures !ended ==> !failed && !Over(request, reply)
    {
      hide After;
      hide Held;
      if failed {
        ended := true;
        return;
      }
      ended := !(ok && st == Go && completion < request.maxNew);
    }

    /** A round's tokens, taken from the rows that ran as a token at a time would. */
    method TakeRows(logits: seq<Token> -> R, ctx: nat, outs: seq<R>, ran: seq<bool>, q: Sequence,
        samplers: array<int>, w: nat)
      requires Servable(request, ctx) && |q.kv| <= ctx && w < samplers.Length
      requires Decoding(logits, q.cached) && Stepped(logits, q, outs, ran)
      modifies this, q`kv, q`cached, samplers
      ensures Sound(logits, ctx, q) && q.cached == q.kv && |q.kv| <= ctx && begun && lent == old(lent)
      ensures asked == old(asked + d) + 1
      ensures Work() < old(Work())
    {
      if d == 0 {
        TakeOne(logits, ctx, outs, ran, q, samplers, w);
      } else {
        TakeSeveral(logits, ctx, outs, ran, q, samplers, w);
      }
    }
  }
}
