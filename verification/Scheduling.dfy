/**
 * The scheduler: it lends the model's sequences to waiting requests, runs
 * their prompts in pieces between rounds, runs rounds over all of them with
 * drafts where rows are spare, and hands back those that end. Whatever the
 * requests, the order, the splits, the reuse, the drafts and the failures,
 * every reply is the one its request would get alone, a token at a time.
 */
module Scheduling {
  import opened Basics
  import opened Drafting
  import opened Lending
  import Pool
  import opened Rounds
  import opened Serving
  import opened Solo

  /** What happens to a scheduler: a request arrives, or it takes a turn. */
  datatype Event<!R, !G> = Arrives(asking: Asking<R, G>) | Turns {
    predicate Asks() { Arrives? && asking.most.Some? ==> asking.most.value >= 1 }
  }

  class Scheduler<!R, !G> {
    const logits: seq<Token> -> R
    const ctx: nat
    const cap: nat
    const pieceMin: nat
    const prefixCache: bool
    const speculate: nat
    const rowsCap: nat
    const seqs: seq<Sequence>
    const samplers: array<int>
    var clock: nat
    var queue: seq<Job<R, G>>
    var running: seq<Job<R, G>>
    var outs: seq<R>
    var ran: seq<bool>
    ghost var mid: set<nat>
    ghost var done: set<Job<R, G>>

    // ---- What every step keeps ----

    ghost predicate Shape() {
      && cap > 0 && seqs != [] && samplers.Length > 0 && rowsCap == RowsCap(|seqs|, cap, speculate)
      && forall a, b :: 0 <= a < b < |seqs| ==> seqs[a] != seqs[b]
    }

    /** Every request is in one place. */
    static ghost predicate Distinct(open: seq<Job<R, G>>, closed: set<Job<R, G>>) {
      && (forall a, b :: 0 <= a < b < |open| ==> open[a] != open[b])
      && (forall j <- closed :: j !in open)
    }

    ghost predicate OnePlace() reads this`running, this`queue, this`done {
      Distinct(running + queue, done)
    }

    /** A sequence is lent to one running request at most. */
    ghost predicate LentApart(jobs: seq<Job<R, G>>) reads jobs`lent {
      && (forall a :: 0 <= a < |jobs| ==> jobs[a].lent < |seqs|)
      && (forall a, b :: 0 <= a < b < |jobs| ==> jobs[a].lent != jobs[b].lent)
    }

    /** The sequences lent to some requests. */
    static ghost function Lents(jobs: seq<Job<R, G>>): (r: seq<nat>)
      reads jobs`lent
      ensures |r| == |jobs| && forall a :: 0 <= a < |jobs| ==> r[a] == jobs[a].lent
    {
      if jobs == [] then [] else Lents(jobs[..|jobs| - 1]) + [jobs[|jobs| - 1].lent]
    }

    ghost predicate BusyIsLent() reads this`running, running`lent, seqs`busy {
      forall s :: 0 <= s < |seqs| ==> (seqs[s].busy <==> s in Lents(running))
    }

    /** What a sequence is believed to hold is what it holds, but for those in the middle of a round. */
    ghost predicate Level() reads this`mid, seqs`cached, seqs`kv {
      forall s :: 0 <= s < |seqs| && s !in mid ==> seqs[s].cached == seqs[s].kv && |seqs[s].kv| <= ctx
    }

    ghost predicate Served(j: Job<R, G>) reads j, seqs`cached, seqs`kv {
      && j.lent < |seqs|
      && if j.begun then j.Sound(logits, ctx, seqs[j.lent]) else j.Waiting() && Servable(j.request, ctx)
    }

    /** In the middle of a round: a request's rows ran, and its tokens are still to be taken. */
    ghost predicate Ready(j: Job<R, G>) reads this`outs, this`ran, j, seqs`cached, seqs`kv {
      && j.lent < |seqs| && j.begun && Servable(j.request, ctx) && |seqs[j.lent].kv| <= ctx
      && j.Decoding(logits, seqs[j.lent].cached) && j.Stepped(logits, seqs[j.lent], outs, ran)
    }

    ghost predicate AllServed(jobs: seq<Job<R, G>>)
      reads this`mid, this`outs, this`ran, jobs, seqs`cached, seqs`kv
    {
      && (forall a :: 0 <= a < |jobs| && jobs[a].lent in mid ==> Ready(jobs[a]))
      && (forall a :: 0 <= a < |jobs| && jobs[a].lent !in mid ==> Served(jobs[a]))
    }

    ghost predicate AllWait(jobs: seq<Job<R, G>>) reads jobs {
      forall a :: 0 <= a < |jobs| ==> jobs[a].Waiting() && Servable(jobs[a].request, ctx)
    }

    ghost predicate DoneWell() reads this`done, done {
      forall j <- done :: j.Answered(logits)
    }

    /** What is left to do for each of some requests. */
    static ghost function Todo(jobs: seq<Job<R, G>>): seq<nat> reads jobs {
      seq(|jobs|, a requires 0 <= a < |jobs| reads jobs => jobs[a].Work())
    }

    /** All there is to keep but which sequences are busy. */
    ghost predicate Apart()
      reads this`running, this`queue, this`done, this`mid, this`outs, this`ran, seqs`cached, seqs`kv, running, queue,
          done
    {
      && Shape() && OnePlace() && LentApart(running) && Level() && AllServed(running)
      && AllWait(queue) && DoneWell()
    }

    ghost predicate Mid()
      reads this, seqs, running, queue, done
    {
      Apart() && BusyIsLent()
    }

    ghost predicate Valid()
      reads this, seqs, running, queue, done
    {
      Mid() && mid == {}
    }

    constructor (logits: seq<Token> -> R, ctx: nat, cap: nat, pieceMin: nat, prefixCache: bool, speculate: nat,
        seqs: seq<Sequence>, samplers: array<int>)
      requires cap > 0 && seqs != [] && samplers.Length > 0
      requires forall a, b :: 0 <= a < b < |seqs| ==> seqs[a] != seqs[b]
      requires forall q <- seqs :: q.cached == q.kv == [] && !q.busy
      ensures Valid() && queue == running == [] && done == {} && this.logits == logits && this.ctx == ctx &&
          this.seqs == seqs
    {
      this.logits, this.ctx, this.cap, this.pieceMin, this.prefixCache, this.speculate := logits, ctx, cap, pieceMin,
          prefixCache, speculate;
      this.seqs, this.samplers := seqs, samplers;
      rowsCap := RowsCap(|seqs|, cap, speculate);
      clock, queue, running, outs, ran, mid, done := 0, [], [], [], [], {}, {};
    }

    // ---- Lending ----

    /**
     * A free sequence is better lent than another when it saves more of the prompt, or as much and
     * has been unused longer.
     */
    predicate Better(a: nat, b: nat, ids: seq<Token>)
      requires a < |seqs| && b < |seqs| && ids != []
      reads seqs
    {
      var x, y := Reuse(prefixCache, seqs[a].cached, ids), Reuse(prefixCache, seqs[b].cached, ids);
      x > y || (x == y && seqs[a].used < seqs[b].used)
    }

    /** The sequence to lend: free, and no free one is better. None only when all are lent. */
    method PickSeq(ids: seq<Token>) returns (best: Option<nat>)
      requires ids != []
      ensures best.None? <==> forall s :: 0 <= s < |seqs| ==> seqs[s].busy
      ensures best.Some? ==> best.value < |seqs| && !seqs[best.value].busy
      ensures best.Some? ==> forall s :: 0 <= s < |seqs| && !seqs[s].busy ==> !Better(s, best.value, ids)
    {
      best := None;
      var bestLen := 0;
      var s := 0;
      while s < |seqs|
        invariant 0 <= s <= |seqs|
        invariant best.None? <==> forall p :: 0 <= p < s ==> seqs[p].busy
        invariant best.Some? ==>
              best.value < s && !seqs[best.value].busy &&
              bestLen == Reuse(prefixCache, seqs[best.value].cached, ids)
        invariant best.Some? ==> forall p :: 0 <= p < s && !seqs[p].busy ==> !Better(p, best.value, ids)
      {
        if !seqs[s].busy {
          var n := MatchLength(prefixCache, seqs[s].cached, ids);
          if best.None? || n > bestLen || (n == bestLen && seqs[s].used < seqs[best.value].used) {
            best, bestLen := Some(s), n;
          }
        }
        s := s + 1;
      }
    }

    lemma WaitingIsServed(j: Job<R, G>)
      requires j.lent < |seqs| && j.Waiting() && Servable(j.request, ctx)
      ensures Served(j)
    {
    }

    method NameSequence(s: nat, j: Job<R, G>)
      requires Apart() && queue != [] && j == queue[0]
      modifies j`lent
      ensures Apart() && Lents(running) == old(Lents(running)) && j.lent == s
    {
      hide Served;
      hide Ready;
      hide Distinct;
      hide Shape;
      NextIsNew();
      j.lent := s;
    }

    /** The oldest waiting request joins the running ones. */
    method Admit()
      requires Apart() && mid == {} && queue != [] && queue[0].lent < |seqs| && queue[0].lent !in Lents(running)
      modifies this`queue, this`running
      ensures Apart() && running + queue == old(running + queue)
      ensures queue == old(queue)[1..] && running == old(running) + [old(queue[0])]
    {
      hide AllServed;
      hide AllWait;
      hide LentApart;
      hide Distinct;
      hide Shape;
      hide Level;
      hide DoneWell;
      OneLessWaits(queue);
      OneMoreRuns(running, queue[0]);
      queue, running := queue[1..], running + [queue[0]];
      assert running + queue == old(running + queue);
    }

    lemma OneMoreRuns(jobs: seq<Job<R, G>>, j: Job<R, G>)
      requires LentApart(jobs) && AllServed(jobs) && mid == {}
      requires j.Waiting() && Servable(j.request, ctx) && j.lent < |seqs| && j.lent !in Lents(jobs)
      ensures LentApart(jobs + [j]) && AllServed(jobs + [j])
    {
      hide Ready;
      hide Served;
      WaitingIsServed(j);
      forall a | 0 <= a < |jobs|
        ensures jobs[a].lent != j.lent
      {
        assert Lents(jobs)[a] == jobs[a].lent;
      }
    }

    lemma OneLessWaits(jobs: seq<Job<R, G>>)
      requires AllWait(jobs) && jobs != []
      ensures AllWait(jobs[1..]) && jobs[0].Waiting() && Servable(jobs[0].request, ctx)
    {
    }

    method AdmitTo(s: nat, j: Job<R, G>)
      requires Apart() && mid == {} && queue != [] && j == queue[0] && s < |seqs| && s !in Lents(running)
      modifies this`queue, this`running, j`lent
      ensures Apart() && running + queue == old(running + queue) && queue == old(queue)[1..] && running != []
      ensures Lents(running) == old(Lents(running)) + [s]
    {
      hide Apart;
      NextIsNew();
      NameSequence(s, j);
      Admit();
    }

    /** The oldest waiting request takes a free sequence. */
    method LendTo(s: nat, j: Job<R, G>, q: Sequence)
      requires Valid() && queue != [] && s < |seqs| && j == queue[0] && q == seqs[s] && !q.busy
      modifies this`clock, this`queue, this`running, j`lent, q`busy, q`used
      ensures Valid() && running + queue == old(running + queue) && queue == old(queue)[1..] && running != []
    {
      hide Apart;
      AdmitTo(s, j);
      NowShape();
      hide Shape;
      MarkBusy(s, q);
    }

    method MarkBusy(s: nat, q: Sequence)
      requires Shape() && s < |seqs| && q == seqs[s] && s in Lents(running)
      requires forall p :: 0 <= p < |seqs| && p != s ==> (seqs[p].busy <==> p in Lents(running))
      modifies this`clock, q`busy, q`used
      ensures BusyIsLent()
    {
      hide Shape;
      clock := clock + 1;
      q.busy, q.used := true, clock;
      forall p | 0 <= p < |seqs|
        ensures seqs[p].busy <==> p in Lents(running)
      {
        if p != s { SeqsApart(p, s); }
      }
    }

    lemma NowShape()
      requires Apart()
      ensures Shape()
    {
    }

    lemma NextIsNew()
      requires Apart() && queue != []
      ensures Shape() && forall a :: 0 <= a < |running| ==> running[a] != queue[0]
    {
      var all, n := running + queue, |running|;
      assert all[n] == queue[0];
      assert forall a :: 0 <= a < n ==> running[a] == all[a];
    }

    lemma FirstWaits()
      requires Valid() && queue != []
      ensures queue[0].request.ids != []
    {
    }

    lemma NoneFree()
      requires Valid() && forall s :: 0 <= s < |seqs| ==> seqs[s].busy
      ensures running != []
    {
      assert seqs[0].busy && 0 in Lents(running);
    }

    method Lend()
      requires Valid()
      modifies this`clock, this`queue, this`running, queue`lent, seqs`busy, seqs`used
      ensures Valid() && running + queue == old(running + queue)
      ensures running == [] ==> queue == []
    {
      hide Valid;
      hide Better;
      while queue != []
        invariant Valid() && running + queue == old(running + queue) && forall k <- queue :: k in old(queue)
      {
        FirstWaits();
        var best := PickSeq(queue[0].request.ids);
        if best.None? {
          NoneFree();
          break;
        }
        assert queue[0] in queue;
        LendTo(best.value, queue[0], seqs[best.value]);
      }
    }

    // ---- One running request's step ----

    lemma SeqsApart(a: nat, b: nat)
      requires Shape() && a < |seqs| && b < |seqs| && a != b
      ensures seqs[a] != seqs[b]
    {
      if a < b { assert seqs[a] != seqs[b]; } else { assert seqs[b] != seqs[a]; }
    }

    /**
     * A step touches one request, its drafter and what its sequence holds, and no more; its part of
     * a round is done.
     */
    twostate predicate OnlyStep(i: nat)
      reads this, seqs, running, queue, done
    {
      && unchanged(`running, `queue, `done, `outs, `ran)
      && i < |running| && running[i].lent < |seqs| && running[i].lent == old(running[i].lent)
      && mid == old(mid) - {running[i].lent} && unchanged(seqs`busy)
      && (forall k <- running + queue :: k != running[i] ==> unchanged(k))
      && (forall k <- done :: k != running[i] ==> unchanged(k))
      && (forall k <- seqs :: k != seqs[running[i].lent] ==> unchanged(k))
    }

    /** The other running requests are served as before. */
    twostate lemma OthersKeep(i: nat)
      requires OnlyStep(i) && old(Mid())
      ensures forall a :: 0 <= a < |running| && a != i ==>
                && running[a].lent != running[i].lent && running[a].lent == old(running[a].lent)
                && if running[a].lent in mid then Ready(running[a]) else Served(running[a])
    {
      forall a | 0 <= a < |running| && a != i
        ensures running[a].lent != running[i].lent && running[a].lent == old(running[a].lent)
        ensures if running[a].lent in mid then Ready(running[a]) else Served(running[a])
      {
        hide Job.Sound;
        hide Job.Decoding;
        hide Job.Stepped;
        var k := running[a];
        assert (running + queue)[a] == k && (running + queue)[i] == running[i];
        assert k in running + queue;
        SeqsApart(k.lent, running[i].lent);
        var p := seqs[k.lent];
        assert p in seqs;
        assert k.Sound(logits, ctx, p) == old(k.Sound(logits, ctx, p));
        assert k.Decoding(logits, p.cached) == old(k.Decoding(logits, p.cached));
      }
    }

    /** A step of one running request keeps everything. */
    twostate lemma StepKeeps(i: nat)
      requires OnlyStep(i) && old(Mid())
      requires Served(running[i])
      requires seqs[running[i].lent].cached == seqs[running[i].lent].kv && |seqs[running[i].lent].kv| <= ctx
      ensures Mid()
    {
      hide Served;
      hide Ready;
      OthersKeep(i);
      assert running[i] == (running + queue)[i];
      forall a | 0 <= a < |queue|
        ensures queue[a] != running[i] && queue[a].Waiting() && Servable(queue[a].request, ctx)
      {
        assert queue[a] == (running + queue)[|running| + a] && queue[a] in running + queue;
      }
      assert Lents(running) == old(Lents(running));
      forall p | 0 <= p < |seqs| && p !in mid
        ensures seqs[p].cached == seqs[p].kv && |seqs[p].kv| <= ctx
      {
        assert seqs[p] in seqs;
      }
    }

    lemma RunningLent()
      requires Valid()
      ensures forall a :: 0 <= a < |running| ==> running[a].lent < |seqs|
    {
    }

    /** Every request that just got a sequence begins. */
    method BeginAll()
      requires Valid() && forall k <- running :: !k.ended
      modifies running, seqs`cached, seqs`kv
      ensures Valid() && forall k <- running :: k.begun && !k.ended && k.Work() <= old(k.Work())
    {
      hide Valid;
      var i := 0;
      while i < |running|
        invariant i <= |running| && Valid()
        invariant forall a :: 0 <= a < i ==> running[a].begun
        invariant forall k <- running :: !k.ended && k.Work() <= old(k.Work())
      {
        RunningLent();
        if !running[i].begun { BeginAt(i, running[i], seqs[running[i].lent]); }
        i := i + 1;
      }
    }

    method BeginAt(i: nat, j: Job<R, G>, q: Sequence)
      requires Valid() && i < |running| && j == running[i] && j.lent < |seqs| && q == seqs[j.lent] && !j.begun
      modifies j, q`cached, q`kv
      ensures Valid() && j.begun && !j.ended && j.Work() < old(j.Work())
      ensures j.promptAt == Reuse(prefixCache, old(q.cached), j.request.ids)
    {
      j.Begin(logits, ctx, prefixCache, speculate, q);
      StepKeeps(i);
    }

    /** The next piece of one request's prompt. */
    method PromptAt(i: nat, j: Job<R, G>, q: Sequence, whole: bool)
      requires Valid() && i < |running| && j == running[i] && j.lent < |seqs| && q == seqs[j.lent]
      requires j.begun && j.prompting && !j.ended
      modifies j, q`cached, q`kv, samplers
      ensures Valid() && j.begun && j.Work() < old(j.Work()) && (whole ==> j.ended || !j.prompting)
    {
      j.Prompt(logits, ctx, pieceMin, whole, q, samplers);
      StepKeeps(i);
    }

    predicate Live(j: Job<R, G>) reads j`ended, j`prompting { !j.ended && !j.prompting }

    method AnyLive() returns (decoding: bool, ghost one: nat)
      ensures decoding ==> one < |running| && Live(running[one])
      ensures !decoding ==> forall a :: 0 <= a < |running| ==> !Live(running[a])
    {
      decoding, one := false, 0;
      var i := 0;
      while i < |running|
        invariant i <= |running| && (decoding ==> one < i && Live(running[one]))
        invariant !decoding ==> forall a :: 0 <= a < i ==> !Live(running[a])
      {
        if Live(running[i]) { one := i; }
        decoding := decoding || Live(running[i]);
        i := i + 1;
      }
    }

    /** A request's turn to run its prompt, or some of it: one that has no prompt left stays as it is. */
    method PromptTurn(i: nat, whole: bool) returns (ran: bool)
      requires Valid() && i < |running| && running[i].begun
      modifies running, seqs`cached, seqs`kv, samplers
      ensures Valid() && running[i].begun && ran == old(!running[i].ended && !Live(running[i]))
      ensures ran ==> running[i].Work() < old(running[i].Work())
      ensures !ran ==> unchanged(running[i])
      ensures forall a :: 0 <= a < |running| && a != i ==> unchanged(running[a])
    {
      hide Valid;
      hide Job.Work;
      ran := !running[i].ended && running[i].prompting;
      if ran {
        RunningLent();
        OthersDiffer(i);
        PromptAt(i, running[i], seqs[running[i].lent], whole);
      }
    }

    /** Prompts in turn: whole, or with one request decoding a piece of the first. */
    method PromptTurns(decoding: bool, ghost one: nat)
      requires forall a :: 0 <= a < |running| ==> running[a].begun && !running[a].ended
      requires if decoding then one < |running| && Live(running[one])
               else forall a :: 0 <= a < |running| ==> !Live(running[a])
      requires Valid()
      modifies running, seqs`cached, seqs`kv, samplers
      ensures forall a :: 0 <= a < |running| ==> running[a].begun && running[a].Work() <= old(running[a].Work())
      ensures if decoding then Live(running[one])
              else forall a :: 0 <= a < |running| ==> running[a].Work() < old(running[a].Work())
      ensures Valid()
    {
      hide *;
      var i := 0;
      while i < |running|
        invariant i <= |running| && Valid()
        invariant forall a :: 0 <= a < i ==> running[a].begun && running[a].Work() <= old(running[a].Work())
        invariant forall a :: i <= a < |running| ==> unchanged(running[a])
        invariant decoding ==> Live(running[one])
        invariant !decoding ==> forall a :: 0 <= a < i ==> running[a].Work() < old(running[a].Work())
      {
        var ran := PromptTurn(i, !decoding);
        i := i + 1;
        if ran && decoding { break; }
      }
    }

    /** Prompts run whole while no request decodes; otherwise a piece of the oldest. */
    method PromptSome()
      requires Valid() && forall k <- running :: k.begun && !k.ended
      modifies running, seqs`cached, seqs`kv, samplers
      ensures forall k <- running :: k.begun && k.Work() <= old(k.Work())
      ensures running != [] ==>
          exists a ::
            0 <= a < |running| &&
            (Live(running[a]) || running[a].Work() < old(running[a].Work()))
      ensures Valid()
    {
      hide *;
      var decoding, one := AnyLive();
      assert forall a :: 0 <= a < |running| ==> running[a] in running;
      PromptTurns(decoding, one);
      ghost var w := if decoding then one else 0;
      assert running != [] ==> Live(running[w]) || running[w].Work() < old(running[w].Work());
    }

    lemma OthersDiffer(i: nat)
      requires Valid() && i < |running|
      ensures forall a :: 0 <= a < |running| && a != i ==> running[a] != running[i]
    {
      var all := running + queue;
      forall a | 0 <= a < |running| && a != i
        ensures running[a] != running[i]
      {
        assert all[a] == running[a] && all[i] == running[i];
        if a < i { assert all[a] != all[i]; } else { assert all[i] != all[a]; }
      }
    }

    // ---- A round ----

    /** Which of some requests decode. */
    static ghost function Lives(jobs: seq<Job<R, G>>): (r: seq<bool>)
      reads jobs`ended, jobs`prompting
      ensures |r| == |jobs| && forall a :: 0 <= a < |jobs| ==> r[a] == (!jobs[a].ended && !jobs[a].prompting)
    {
      if jobs == [] then [] else Lives(jobs[..|jobs| - 1]) + [!jobs[|jobs| - 1].ended && !jobs[|jobs| - 1].prompting]
    }

    method CountLive() returns (live: nat)
      requires Valid()
      ensures live == Count(Lives(running)) && live <= |seqs|
      ensures live == 0 <==> forall a :: 0 <= a < |running| ==> !Live(running[a])
    {
      hide Apart;
      ghost var flags := Lives(running);
      live := 0;
      var i := 0;
      while i < |running|
        invariant i <= |running| && live == Count(flags[..i])
        invariant live == 0 <==> forall a :: 0 <= a < i ==> !Live(running[a])
      {
        assert flags[..i + 1][..i] == flags[..i];
        if Live(running[i]) { live := live + 1; }
        i := i + 1;
      }
      assert flags[..i] == flags;
      RunningApart();
      Pigeons(Lents(running), |seqs|);
    }

    lemma RunningApart()
      requires Valid()
      ensures LentApart(running)
    {
    }

    /** A request's part of a round, with what befalls its next steps. */
    static function PartOf(j: Job<R, G>): Part reads j`pass, j`asked {
      Part(j.pass, j.request.fate.fails, j.asked)
    }

    /** A live request's rows are in the round's, in one block. */
    ghost predicate Placed(j: Job<R, G>, rows: seq<Row>) reads j, seqs`cached {
      && j.lent < |seqs| && j.Planned(seqs[j.lent], |rows|) && Block(rows, j.lent, j.row0, PartOf(j))
    }

    /** One request's rows for the round. */
    method PlanAt(i: nat, j: Job<R, G>, spare: nat, n: nat)
      requires Valid() && i < |running| && j == running[i] && j.begun && Live(j) && j.lent < |seqs|
      modifies j`pass, j`d, j`row0, j`start, j`drafter
      ensures Valid() && j.Planned(seqs[j.lent], n + j.d + 1) && j.row0 == n && j.d <= spare && j.start + j.d + 1 <= ctx
    {
      RunningServed(i);
      var q := seqs[j.lent];
      j.Plan(logits, ctx, q, spare, n);
      StepKeeps(i);
    }

    lemma RunningServed(i: nat)
      requires Valid() && i < |running|
      ensures Served(running[i])
    {
    }

    /** What planning a round has done for the first i running requests. */
    ghost predicate PlannedTo(i: nat, rows: seq<Row>)
      reads this`running, running, seqs`cached
    {
      && i <= |running|
      && (forall a :: 0 <= a < i && Live(running[a]) ==> Placed(running[a], rows))
      && (forall r <- rows :: exists a :: 0 <= a < i && Live(running[a]) && running[a].lent == r.lent < |seqs|)
    }

    /** The rows of one more request, after those of the requests before it. */
    method PlanNext(i: nat, j: Job<R, G>, rows: seq<Row>, spare: nat) returns (more: seq<Row>)
      requires Valid() && i < |running| && j == running[i] && j.begun && Live(j) && j.lent < |seqs| &&
          PlannedTo(i, rows)
      modifies j`pass, j`d, j`row0, j`start, j`drafter
      ensures Valid() && PlannedTo(i + 1, more) && |more| == |rows| + j.d + 1 && j.d <= spare
    {
      hide Valid;
      RunningApart();
      OthersDiffer(i);
      PlanAt(i, j, spare, |rows|);
      more := PushRows(rows, j.lent, PartOf(j));
      forall r <- rows
        ensures r.lent != j.lent
      {
        var a :| 0 <= a < i && Live(running[a]) && running[a].lent == r.lent < |seqs|;
      }
      BlockNew(rows, j.lent, PartOf(j));
      forall a | 0 <= a < i && Live(running[a])
        ensures Placed(running[a], more)
      {
        BlockStays(rows, RowsOf(j.lent, PartOf(j)), running[a].lent, running[a].row0, PartOf(running[a]));
      }
      forall r <- more
        ensures exists a :: 0 <= a < i + 1 && Live(running[a]) && running[a].lent == r.lent < |seqs|
      {
        if r !in rows { assert Live(running[i]) && running[i].lent == r.lent; }
      }
    }

    lemma PlannedSkip(i: nat, rows: seq<Row>)
      requires PlannedTo(i, rows) && i < |running| && !Live(running[i])
      ensures PlannedTo(i + 1, rows)
    {
    }

    lemma CountNext(flags: seq<bool>, i: nat)
      requires i < |flags|
      ensures Count(flags[..i + 1]) == Count(flags[..i]) + (if flags[i] then 1 else 0)
    {
      assert flags[..i + 1][..i] == flags[..i];
    }

    /** A round's rows: one for every request that decodes, and its drafts where rows are spare. */
    method PlanRound() returns (rows: seq<Row>)
      requires Valid() && forall k <- running :: k.begun
      modifies running
      ensures forall k <- running :: k.begun
      ensures forall a :: 0 <= a < |running| ==>
            running[a].Work() == old(running[a].Work()) &&
            Live(running[a]) == old(Live(running[a]))
      ensures Valid() && PlannedTo(|running|, rows) && |rows| <= rowsCap
    {
      hide *;
      var live := CountLive();
      var spare := SpareRows(live);
      rows := PlanAll(spare);
    }

    /** The rows beyond one a request. */
    method SpareRows(live: nat) returns (spare: nat)
      requires Valid() && live <= |seqs|
      ensures spare == Spare(live, cap, speculate) && live + spare <= rowsCap
    {
      RoundFits(live, |seqs|, cap, speculate);
      spare := Spare(live, cap, speculate);
    }

    method PlanAll(spare: nat) returns (rows: seq<Row>)
      requires Valid() && forall k <- running :: k.begun
      modifies running
      ensures forall k <- running :: k.begun
      ensures forall a :: 0 <= a < |running| ==>
            running[a].Work() == old(running[a].Work()) &&
            Live(running[a]) == old(Live(running[a]))
      ensures Valid() && PlannedTo(|running|, rows) && |rows| <= old(Count(Lives(running))) + spare
    {
      hide *;
      ghost var flags := Lives(running);
      var left: nat := spare;
      rows := [];
      var i := 0;
      PlannedNone();
      while i < |running|
        invariant i <= |running| && Valid() && PlannedTo(i, rows) && Lives(running) == flags
        invariant forall k <- running :: k.begun
        invariant forall a :: 0 <= a < |running| ==>
              running[a].Work() == old(running[a].Work()) &&
              Live(running[a]) == old(Live(running[a]))
        invariant |rows| + left <= Count(flags[..i]) + spare
      {
        CountNext(flags, i);
        LiveIs(i);
        if Live(running[i]) {
          RunningApart();
          rows := PlanNext(i, running[i], rows, left);
          left := left - running[i].d;
        } else {
          PlannedSkip(i, rows);
        }
        i := i + 1;
      }
      assert flags[..i] == flags;
    }

    lemma LiveIs(i: nat)
      requires i < |running|
      ensures Live(running[i]) <==> Lives(running)[i]
    {
    }

    lemma PlannedNone()
      ensures PlannedTo(0, []) && Count([]) == 0
    {
    }

    /** One row run, at its sequence's next position, unless it fails or its sequence has stopped. */
    method StepRow(row: Row, stopped: set<nat>) returns (ok: bool)
      requires Shape() && row.lent < |seqs|
      modifies seqs`kv
      ensures ok <==> row.lent !in stopped && |old(seqs[row.lent].kv)| < ctx && !row.fails
      ensures forall s :: 0 <= s < |seqs| ==>
                && seqs[s].kv == old(seqs[s].kv) + (if ok && s == row.lent then [row.token] else [])
                && |seqs[s].kv| <= Max(ctx, |old(seqs[s].kv)|)
    {
      hide Shape;
      var q := seqs[row.lent];
      forall s | 0 <= s < |seqs| && s != row.lent
        ensures seqs[s] != q
      {
        SeqsApart(s, row.lent);
      }
      ok := false;
      if row.lent !in stopped && |q.kv| < ctx && !row.fails {
        ok := true;
        q.kv := q.kv + [row.token];
      }
    }

    /** What the sequences hold while rows run, and what each row that ran gave. */
    ghost predicate Ran(held: seq<seq<Token>>, rows: seq<Row>)
      requires |held| == |seqs|
      reads this`outs, this`ran, seqs`kv
    {
      && |outs| == |rows| && StopsAtFirst(rows, ran) && Explained(held, rows, ran, ctx)
      && (forall r <- rows :: r.lent < |seqs|)
      && (forall s :: 0 <= s < |seqs| ==>
            seqs[s].kv == held[s] + Fed(rows, ran, s, |rows|) &&
            |seqs[s].kv| <= Max(ctx, |held[s]|))
      && Gave(logits, held, rows, ran, outs)
    }

    lemma NoneRan(held: seq<seq<Token>>)
      requires |held| == |seqs| && outs == [] && ran == [] && forall s :: 0 <= s < |seqs| ==> held[s] == seqs[s].kv
      ensures Ran(held, [])
    {
    }

    method RunNext(ghost rows: seq<Row>, row: Row, stopped: set<nat>, ghost held: seq<seq<Token>>)
        returns (now: set<nat>)
      requires Shape() && |held| == |seqs| && Ran(held, rows) && row.lent < |seqs| && |ran| == |rows|
      requires Stopping(rows, ran, stopped)
      modifies this`outs, this`ran, seqs`kv
      ensures Ran(held, rows + [row]) && |ran| == |rows| + 1
      ensures Stopping(rows + [row], ran, now)
    {
      hide *;
      RanSplits(held, rows);
      ghost var before := ran;
      var ok := StepRow(row, stopped);
      now := if ok then stopped else stopped + {row.lent};
      StoppingPush(rows, before, stopped, row, ok);
      ExplainedPush(held, rows, before, ctx, row, ok);
      GavePush(logits, held, rows, before, outs, row, ok);
      ran := ran + [ok];
      outs := outs + [logits(seqs[row.lent].kv)];
      forall s | 0 <= s < |seqs|
        ensures seqs[s].kv == held[s] + Fed(rows + [row], ran, s, |rows| + 1)
        ensures |seqs[s].kv| <= Max(ctx, |held[s]|)
      {
        FedPush(held[s], rows, before, row, ok, s);
        MaxTwice(ctx, |held[s]|);
      }
      RanJoins(held, rows + [row]);
    }

    lemma MaxTwice(a: nat, b: nat)
      ensures forall c: nat :: c <= Max(a, b) ==> Max(a, c) <= Max(a, b)
    {
    }

    lemma RanSplits(held: seq<seq<Token>>, rows: seq<Row>)
      requires |held| == |seqs| && Ran(held, rows)
      ensures |outs| == |rows| == |ran| && StopsAtFirst(rows, ran) && Explained(held, rows, ran, ctx)
      ensures Gave(logits, held, rows, ran, outs) && forall r <- rows :: r.lent < |seqs|
      ensures forall s :: 0 <= s < |seqs| ==>
            seqs[s].kv == held[s] + Fed(rows, ran, s, |rows|) &&
            |seqs[s].kv| <= Max(ctx, |held[s]|)
    {
    }

    lemma RanJoins(held: seq<seq<Token>>, rows: seq<Row>)
      requires |held| == |seqs| && |outs| == |rows| == |ran| && StopsAtFirst(rows, ran)
      requires Explained(held, rows, ran, ctx) && Gave(logits, held, rows, ran, outs)
      requires forall r <- rows :: r.lent < |seqs|
      requires forall s :: 0 <= s < |seqs| ==>
            seqs[s].kv == held[s] + Fed(rows, ran, s, |rows|) &&
            |seqs[s].kv| <= Max(ctx, |held[s]|)
      ensures Ran(held, rows)
    {
    }

    /**
     * The model runs rows: those of a sequence one after another, each at
     * the sequence's next position, stopping at its first that fails.
     */
    method StepRows(rows: seq<Row>, ghost held: seq<seq<Token>>)
      requires Shape() && forall r <- rows :: r.lent < |seqs|
      requires |held| == |seqs| && forall s :: 0 <= s < |seqs| ==> held[s] == seqs[s].kv
      modifies this`outs, this`ran, seqs`kv
      ensures Ran(held, rows)
    {
      hide Shape;
      hide Ran;
      outs, ran := [], [];
      var stopped: set<nat> := {};
      var i := 0;
      NoneRan(held);
      while i < |rows|
        invariant i == |ran| <= |rows| && Ran(held, rows[..i])
        invariant Stopping(rows[..i], ran, stopped)
      {
        stopped := RunNext(rows[..i], rows[i], stopped, held);
        assert rows[..i] + [rows[i]] == rows[..i + 1];
        i := i + 1;
      }
      assert rows[..i] == rows;
    }

    /** A row of a request that ran is the one after everything before it. */
    lemma RowGives(j: Job<R, G>, held: seq<seq<Token>>, rows: seq<Row>, i: nat)
      requires |held| == |seqs| && Ran(held, rows) && Placed(j, rows) && held[j.lent] == seqs[j.lent].cached
      requires i < Leading(ran[j.row0..j.row0 + |j.pass|])
      ensures outs[j.row0 + i] == RowAfter(logits, seqs[j.lent].cached, j.pass, i)
    {
      hide Fed;
      hide Leading;
      hide Explained;
      hide StopsAtFirst;
      hide Block;
      hide Gave;
      var s, a := j.lent, j.row0;
      BlockFits(rows, ran, s, a, PartOf(j));
      var mine := ran[a..a + |j.pass|];
      assert i < Leading(mine) <= |mine|;
      BlockFed(rows, ran, s, a, PartOf(j), a + i + 1);
      RanInBlock(rows, ran, s, a, PartOf(j), i);
      RowInBlock(rows, s, a, PartOf(j), a + i);
      GaveAt(logits, held, rows, ran, outs, a + i);
    }

    /** A request's pass fits the context. */
    lemma RoomForPass(j: Job<R, G>, q: Sequence)
      requires j.Decoding(logits, q.cached) && Servable(j.request, ctx) && j.d + |j.reply.taken| < j.request.maxNew
      ensures |q.cached| + j.d + 1 <= ctx
    {
      assert |q.cached + [j.t]| == |j.request.ids + j.reply.taken|;
    }

    /** Where a request's pass stops, the model failed. */
    lemma FailsThere(j: Job<R, G>, q: Sequence, held: seq<seq<Token>>, rows: seq<Row>)
      requires Explained(held, rows, ran, ctx) && StopsAtFirst(rows, ran)
      requires Block(rows, j.lent, j.row0, PartOf(j)) && |j.pass| == j.d + 1 && j.d + |j.reply.taken| < j.request.maxNew
      requires j.lent < |held| && held[j.lent] == q.cached && Servable(j.request, ctx) && j.Decoding(logits, q.cached)
      ensures j.row0 + |j.pass| <= |ran|
      ensures var f := Leading(ran[j.row0..j.row0 + |j.pass|]); f <= j.d ==> j.request.fate.fails(j.asked + f)
    {
      assert |ran| == |rows|;
      hide Job.Decoding;
      hide Explained;
      hide StopsAtFirst;
      hide Leading;
      RoomForPass(j, q);
      InBlock(rows, j.lent, j.row0, PartOf(j));
      hide Block;
      StopsWhereItFails(held, rows, ran, ctx, j.lent, j.row0, PartOf(j));
    }

    /** A request whose rows ran has what it takes its tokens from. */
    lemma ReadyNow(j: Job<R, G>, held: seq<seq<Token>>, rows: seq<Row>)
      requires |held| == |seqs| && Ran(held, rows) && Placed(j, rows) && j.begun && Servable(j.request, ctx)
      requires held[j.lent] == seqs[j.lent].cached && |held[j.lent]| <= ctx && j.Decoding(logits, held[j.lent])
      ensures Ready(j)
    {
      hide Job.Decoding;
      hide Ran;
      hide Placed;
      hide Leading;
      hide RowAfter;
      FedNow(j, held, rows);
      FailsNow(j, held, rows);
      forall i | 0 <= i < Leading(ran[j.row0..j.row0 + j.d + 1])
        ensures outs[j.row0 + i] == RowAfter(logits, seqs[j.lent].cached, j.pass, i)
      {
        RowGives(j, held, rows, i);
      }
    }

    lemma FailsNow(j: Job<R, G>, held: seq<seq<Token>>, rows: seq<Row>)
      requires |held| == |seqs| && Ran(held, rows) && Placed(j, rows) && Servable(j.request, ctx)
      requires held[j.lent] == seqs[j.lent].cached && j.Decoding(logits, held[j.lent])
      ensures j.row0 + j.d + 1 <= |ran|
      ensures var f := Leading(ran[j.row0..j.row0 + j.d + 1]); f <= j.d ==> j.request.fate.fails(j.asked + f)
    {
      hide Job.Decoding;
      hide Explained;
      hide StopsAtFirst;
      hide Leading;
      hide Block;
      hide Gave;
      hide Fed;
      FailsThere(j, seqs[j.lent], held, rows);
    }

    /** What a request's rows that ran have put into its sequence. */
    lemma FedNow(j: Job<R, G>, held: seq<seq<Token>>, rows: seq<Row>)
      requires |held| == |seqs| && Ran(held, rows) && Placed(j, rows)
      requires held[j.lent] == seqs[j.lent].cached && |held[j.lent]| <= ctx
      ensures j.lent < |seqs| && |outs| == |ran| == |rows|
      ensures j.Planned(seqs[j.lent], |outs|) && |seqs[j.lent].kv| <= ctx
      ensures seqs[j.lent].kv == seqs[j.lent].cached + j.pass[..Leading(ran[j.row0..j.row0 + j.d + 1])]
    {
      hide Fed;
      hide Leading;
      hide Explained;
      hide Gave;
      BlockFed(rows, ran, j.lent, j.row0, PartOf(j), |rows|);
    }

    /** What is known of a request before its round's rows run. */
    ghost predicate BeforeRows(j: Job<R, G>, held: seq<seq<Token>>) reads j, seqs`cached {
      && |held| == |seqs| && j.lent < |seqs| && j.begun && Servable(j.request, ctx)
      && held[j.lent] == seqs[j.lent].cached && |held[j.lent]| <= ctx
      && (Live(j) ==> j.Decoding(logits, held[j.lent]))
      && (!Live(j) ==> j.Prompting(logits, held[j.lent]) || j.LeftBehind(logits, held[j.lent]))
    }

    /** The sequences of the requests that decode. */
    ghost function LiveLents(): set<nat> reads this`running, running {
      set a | 0 <= a < |running| && Live(running[a]) :: running[a].lent
    }

    /** Everything running rows leaves as it was. */
    ghost predicate AroundRows(rows: seq<Row>, held: seq<seq<Token>>)
      reads this`running, this`queue, this`done, running, queue, done, seqs`cached, seqs`busy
    {
      && |held| == |seqs| && Shape() && OnePlace() && LentApart(running) && AllWait(queue) && DoneWell() && BusyIsLent()
      && (forall s :: 0 <= s < |seqs| ==> seqs[s].cached == held[s] && |held[s]| <= ctx)
      && PlannedTo(|running|, rows) && (forall a :: 0 <= a < |running| ==> BeforeRows(running[a], held))
    }

    /** A sequence no row was for holds what it held. */
    lemma NotRun(rows: seq<Row>, held: seq<seq<Token>>, s: nat)
      requires AroundRows(rows, held) && Ran(held, rows) && s < |seqs| && s !in LiveLents()
      ensures seqs[s].kv == seqs[s].cached == held[s]
    {
      forall r <- rows
        ensures r.lent != s
      {
        var a :| 0 <= a < |running| && Live(running[a]) && running[a].lent == r.lent < |seqs|;
        assert running[a].lent in LiveLents();
      }
      FedNone(rows, ran, s, |rows|);
    }

    lemma ServedNow(rows: seq<Row>, held: seq<seq<Token>>, a: nat)
      requires AroundRows(rows, held) && Ran(held, rows) && a < |running|
      ensures running[a].lent in LiveLents() ==> Ready(running[a])
      ensures running[a].lent !in LiveLents() ==> Served(running[a])
    {
      hide Ran;
      var j := running[a];
      assert BeforeRows(j, held);
      if j.lent in LiveLents() {
        var b :| 0 <= b < |running| && Live(running[b]) && running[b].lent == j.lent;
        assert a == b;
        ReadyNow(j, held, rows);
      } else {
        assert !Live(j);
        NotRun(rows, held, j.lent);
      }
    }

    lemma MidNow(rows: seq<Row>, held: seq<seq<Token>>)
      requires AroundRows(rows, held) && Ran(held, rows) && mid == LiveLents()
      ensures Mid()
    {
      hide Ready;
      hide Served;
      hide LiveLents;
      hide Ran;
      forall s | 0 <= s < |seqs| && s !in mid
        ensures seqs[s].kv == seqs[s].cached && |seqs[s].kv| <= ctx
      {
        NotRun(rows, held, s);
      }
      forall a | 0 <= a < |running|
        ensures running[a].lent in mid ==> Ready(running[a])
        ensures running[a].lent !in mid ==> Served(running[a])
      {
        ServedNow(rows, held, a);
      }
    }

    lemma Around(rows: seq<Row>, held: seq<seq<Token>>)
      requires Valid() && PlannedTo(|running|, rows) && forall k <- running :: k.begun
      requires |held| == |seqs| && forall s :: 0 <= s < |seqs| ==> held[s] == seqs[s].kv
      ensures AroundRows(rows, held)
    {
      hide PlannedTo;
      forall a | 0 <= a < |running|
        ensures BeforeRows(running[a], held)
      {
        RunningServed(a);
      }
    }

    /** Running rows puts the requests they are for in the middle of a round, and touches no other. */
    method RunRows(rows: seq<Row>)
      requires Valid() && PlannedTo(|running|, rows) && forall k <- running :: k.begun
      modifies this`outs, this`ran, this`mid, seqs`kv
      ensures Mid() && mid == LiveLents()
    {
      hide *;
      ghost var held := seq(|seqs|, s requires 0 <= s < |seqs| reads seqs => seqs[s].kv);
      Around(rows, held);
      RowsNamed(rows);
      StepRows(rows, held);
      mid := LiveLents();
      MidNow(rows, held);
    }

    lemma RowsNamed(rows: seq<Row>)
      requires Valid() && PlannedTo(|running|, rows)
      ensures Shape() && forall r <- rows :: r.lent < |seqs|
    {
    }

    /** One request takes its round's tokens, on any thread: sampler w is any of them. */
    method TakeAt(i: nat, j: Job<R, G>, q: Sequence, w: nat)
      requires Mid() && i < |running| && j == running[i] && j.lent in mid && j.lent < |seqs| && q == seqs[j.lent] &&
          w < samplers.Length
      modifies j, q`cached, q`kv, samplers, this`mid
      ensures Mid() && mid == old(mid) - {j.lent} && j.lent == old(j.lent) && j.begun && j.Work() < old(j.Work())
      ensures j.asked == old(j.asked + j.d) + 1
    {
      hide Mid;
      hide Job.Decoding;
      hide Job.Stepped;
      hide Job.Sound;
      hide Job.Work;
      ReadyMid(i);
      j.TakeRows(logits, ctx, outs, ran, q, samplers, w);
      mid := mid - {j.lent};
      StepKeeps(i);
    }

    lemma ReadyMid(i: nat)
      requires Mid() && i < |running| && running[i].lent in mid
      ensures Ready(running[i]) && forall k <- done :: k != running[i]
    {
      assert running[i] == (running + queue)[i];
    }

    lemma MidApart()
      requires Mid()
      ensures samplers.Length > 0
      ensures forall a, b :: 0 <= a < |running| && 0 <= b < |running| && a != b ==> running[a] != running[b]
    {
    }

    static predicate Ascending(jobs: seq<nat>) { forall a, b :: 0 <= a < b < |jobs| ==> jobs[a] < jobs[b] }

    /** The running requests whose turns are still to come. */
    static ghost function Coming(jobs: seq<nat>, order: seq<(nat, nat)>, k: nat): set<nat> {
      set a: nat | k <= a < |order| && order[a].0 < |jobs| :: jobs[order[a].0]
    }

    /**
     * The round's requests take their tokens, each once: in turn on this
     * thread, or shared out over the pool's, in whatever order its threads
     * come to them. A request touches only itself and its sequence, so a
     * taking is one step whatever else runs beside it. The rows that were
     * run for each are counted once, and those that do not decode are left
     * as they were.
     */
    method TakeAll()
      requires Mid() && mid == LiveLents() && forall k <- running :: k.begun
      modifies running, seqs`cached, seqs`kv, samplers, this`mid
      ensures forall a :: 0 <= a < |running| ==>
                if old(Live(running[a])) then
                  && running[a].begun && running[a].Work() < old(running[a].Work())
                  && running[a].asked == old(running[a].asked + running[a].d) + 1
                else unchanged(running[a])
      ensures Valid()
    {
      hide *;
      MidApart();
      var jobs := Decoders();
      var order := ShareTurns(|jobs|);
      ghost var which := set a: nat | a in jobs;
      ForMid(which);
      TakeTurns(jobs, order, which);
    }

    /** The turns, in their order. */
    method TakeTurns(jobs: seq<nat>, order: seq<(nat, nat)>, ghost which: set<nat>)
      requires MidFor(which) && Ascending(jobs) && Pool.EachOnce(order, |jobs|, samplers.Length)
      requires forall a: nat :: a in which <==> a in jobs
      requires forall k <- running :: k.begun
      modifies running, seqs`cached, seqs`kv, samplers, this`mid
      ensures forall a :: 0 <= a < |running| ==>
                if a in which then
                  && running[a].begun && running[a].Work() < old(running[a].Work())
                  && running[a].asked == old(running[a].asked + running[a].d) + 1
                else unchanged(running[a])
      ensures Valid()
    {
      hide *;
      ghost var pending := Coming(jobs, order, 0);
      AllComing(jobs, order);
      assert pending == which;
      for k := 0 to |order|
        invariant pending == Coming(jobs, order, k) && MidFor(pending)
        invariant pending <= which
        invariant forall a :: 0 <= a < |running| ==>
                    if a in which && a !in pending then
                      && running[a].begun && running[a].Work() < old(running[a].Work())
                      && running[a].asked == old(running[a].asked + running[a].d) + 1
                    else unchanged(running[a])
      {
        var i := NextTurn(jobs, order, k);
        ForMid(pending);
        MidApart();
        TakeThe(i, running[i], order[k].1, pending);
        pending := pending - {i};
      }
      NoneComing(jobs, order);
      ForMid(pending);
      MidEnds();
    }

    /** Whose turn it is. */
    method NextTurn(jobs: seq<nat>, order: seq<(nat, nat)>, k: nat) returns (i: nat)
      requires k < |order| && Pool.EachOnce(order, |jobs|, samplers.Length) && Ascending(jobs)
      ensures i in Coming(jobs, order, k) && Coming(jobs, order, k + 1) == Coming(jobs, order, k) - {i}
      ensures order[k].1 < samplers.Length
    {
      i := jobs[order[k].0];
      assert forall a :: k < a < |order| ==> jobs[order[a].0] != i;
    }

    /**
     * The turns of n requests: one after another with the first sampler when few cost much, or as
     * the pool's threads come to them.
     */
    method ShareTurns(n: nat) returns (order: seq<(nat, nat)>)
      requires samplers.Length > 0
      ensures Pool.EachOnce(order, n, samplers.Length)
    {
      if * {
        order := seq(n, a requires 0 <= a < n => (a, 0));
        forall i: nat | i < n ensures Pool.HasTurn(order, i) { assert order[i].0 == i; }
      } else {
        order := Pool.ShareOut(samplers.Length, n);
      }
    }

    lemma AllComing(jobs: seq<nat>, order: seq<(nat, nat)>)
      requires Pool.EachOnce(order, |jobs|, samplers.Length)
      ensures forall a: nat :: a in Coming(jobs, order, 0) <==> a in jobs
    {
      forall a: nat | a in jobs ensures a in Coming(jobs, order, 0) {
        var i :| 0 <= i < |jobs| && jobs[i] == a;
        assert Pool.HasTurn(order, i);
      }
    }

    lemma NoneComing(jobs: seq<nat>, order: seq<(nat, nat)>)
      ensures Coming(jobs, order, |order|) == {}
    {
    }

    /** A request takes its tokens, with the sampler of the thread that came to it. */
    method TakeThe(i: nat, j: Job<R, G>, w: nat, ghost pending: set<nat>)
      requires i < |running| && j == running[i] && w < samplers.Length && i in pending && MidFor(pending)
      modifies j, seqs`cached, seqs`kv, samplers, this`mid
      ensures j.begun && j.Work() < old(j.Work()) && j.asked == old(j.asked + j.d) + 1
      ensures MidFor(pending - {i})
    {
      hide *;
      ForMid(pending);
      InMid(i, pending);
      TakeAt(i, j, seqs[j.lent], w);
      LentsInLess(i, pending);
      ForMid(pending - {i});
    }

    /** In the middle of a round, with these requests' turns still to come. */
    ghost predicate MidFor(pending: set<nat>)
      reads this, seqs, running, queue, done
    {
      Mid() && (forall a <- pending :: a < |running|) && mid == LentsIn(pending)
    }

    lemma ForMid(pending: set<nat>)
      ensures MidFor(pending) <==> Mid() && (forall a <- pending :: a < |running|) && mid == LentsIn(pending)
    {
      hide Mid;
    }

    /** The sequences of some running requests. */
    ghost function LentsIn(which: set<nat>): set<nat> reads this`running, running`lent {
      set a: nat | a in which && a < |running| :: running[a].lent
    }

    lemma InMid(i: nat, which: set<nat>)
      requires i in which && i < |running| && Mid()
      ensures running[i].lent in LentsIn(which) && running[i].lent < |seqs| && samplers.Length > 0
    {
    }

    lemma LentsInLess(i: nat, which: set<nat>)
      requires Mid() && i in which && i < |running|
      ensures LentsIn(which - {i}) == LentsIn(which) - {running[i].lent}
    {
      forall a | 0 <= a < |running| && a != i
        ensures running[a].lent != running[i].lent
      {
        if a < i { assert running[a].lent != running[i].lent; } else { assert running[i].lent != running[a].lent; }
      }
    }

    lemma MidEnds()
      requires Mid() && mid == LentsIn({})
      ensures Valid()
    {
    }

    /** The running requests that decode, in the order they run. */
    method Decoders() returns (jobs: seq<nat>)
      ensures Ascending(jobs) && (forall a: nat :: a in jobs <==> a < |running| && Live(running[a]))
      ensures forall which: set<nat> :: (forall a: nat :: a in which <==> a in jobs) ==> LiveLents() == LentsIn(which)
    {
      jobs := [];
      for i := 0 to |running|
        invariant Ascending(jobs) && (forall k :: 0 <= k < |jobs| ==> jobs[k] < i)
        invariant forall a: nat :: a in jobs <==> a < i && Live(running[a])
      {
        if Live(running[i]) { jobs := jobs + [i]; }
      }
    }

    /** One round over every request that decodes. */
    method Round()
      requires Valid() && forall k <- running :: k.begun
      modifies running, seqs`cached, seqs`kv, samplers, this`mid, this`outs, this`ran
      ensures Valid() && forall a :: 0 <= a < |running| ==>
                && running[a].begun && running[a].Work() <= old(running[a].Work())
                && (old(Live(running[a])) ==> running[a].Work() < old(running[a].Work()))
    {
      hide *;
      var decoding, one := AnyLive();
      if !decoding { return; }
      var rows := PlanRound();
      RunPlanned(rows);
    }

    /** The round's rows run, and its requests' tokens taken. */
    method RunPlanned(rows: seq<Row>)
      requires Valid() && PlannedTo(|running|, rows) && forall k <- running :: k.begun
      modifies running, seqs`cached, seqs`kv, samplers, this`mid, this`outs, this`ran
      ensures forall a :: 0 <= a < |running| ==>
                && running[a].begun && running[a].Work() <= old(running[a].Work())
                && (old(Live(running[a])) ==> running[a].Work() < old(running[a].Work()))
      ensures Valid()
    {
      hide *;
      RunRows(rows);
      TakeAll();
    }

    // ---- Handing back ----

    /** A request that ended leaves the running ones. */
    method Remove(i: nat, j: Job<R, G>)
      requires Apart() && mid == {} && i < |running| && j == running[i] && j.ended && j.begun
      modifies this`running, this`done
      ensures Apart() && running == old(running)[..i] + old(running)[i + 1..] && done == old(done) + {j}
      ensures Lents(running) == old(Lents(running))[..i] + old(Lents(running))[i + 1..]
    {
      hide Served;
      hide Ready;
      hide Level;
      hide Shape;
      hide Distinct;
      hide LentApart;
      hide AllServed;
      EndedIsAnswered(i);
      GoneFrom(running, queue, done, i);
      LeavesLents(running, i);
      LeavesServed(running, i);
      running, done := running[..i] + running[i + 1..], done + {j};
    }

    /** A running request that leaves for the done ones is in one place still. */
    static lemma GoneFrom(running: seq<Job<R, G>>, queue: seq<Job<R, G>>, done: set<Job<R, G>>, i: nat)
      requires Distinct(running + queue, done) && i < |running|
      ensures Distinct((running[..i] + running[i + 1..]) + queue, done + {running[i]})
    {
      var all := running + queue;
      var left := (running[..i] + running[i + 1..]) + queue;
      assert left == all[..i] + all[i + 1..];
      forall a | 0 <= a < |left| ensures left[a] == all[if a < i then a else a + 1] {}
      assert running[i] == all[i];
    }

    lemma LeavesServed(jobs: seq<Job<R, G>>, i: nat)
      requires AllServed(jobs) && i < |jobs|
      ensures AllServed(jobs[..i] + jobs[i + 1..])
    {
      hide Served;
      hide Ready;
      var left := jobs[..i] + jobs[i + 1..];
      forall a | 0 <= a < |left|
        ensures if left[a].lent in mid then Ready(left[a]) else Served(left[a])
      {
        assert left[a] == if a < i then jobs[a] else jobs[a + 1];
      }
    }

    lemma LeavesLents(jobs: seq<Job<R, G>>, i: nat)
      requires LentApart(jobs) && i < |jobs|
      ensures LentApart(jobs[..i] + jobs[i + 1..])
      ensures Lents(jobs[..i] + jobs[i + 1..]) == Lents(jobs)[..i] + Lents(jobs)[i + 1..]
    {
      hide Lents;
      hide LentApart;
      LentsWithout(jobs, i);
      ApartByLents(jobs, Lents(jobs));
      StaysApart(Lents(jobs), i);
      ApartByLents(jobs[..i] + jobs[i + 1..], Lents(jobs)[..i] + Lents(jobs)[i + 1..]);
    }

    static lemma LentsWithout(jobs: seq<Job<R, G>>, i: nat)
      requires i < |jobs|
      ensures Lents(jobs[..i] + jobs[i + 1..]) == Lents(jobs)[..i] + Lents(jobs)[i + 1..]
    {
      hide Lents;
      var rest := jobs[..i] + jobs[i + 1..];
      SkipsOne(jobs, i);
      LentsSkip(jobs, rest, i);
    }

    static lemma LentsSkip(jobs: seq<Job<R, G>>, rest: seq<Job<R, G>>, i: nat)
      requires i < |jobs| && |rest| == |jobs| - 1
      requires forall a {:trigger rest[a]} :: 0 <= a < |rest| ==> rest[a] == if a < i then jobs[a] else jobs[a + 1]
      ensures Lents(rest) == Lents(jobs)[..i] + Lents(jobs)[i + 1..]
    {
      hide Lents;
      var l, m := Lents(jobs), Lents(rest);
      forall k | 0 <= k < |m|
        ensures m[k] == if k < i then l[k] else l[k + 1]
      {
        assert m[k] == rest[k].lent;
      }
      SkipsOne(l, i);
    }

    lemma ApartByLents(jobs: seq<Job<R, G>>, lents: seq<nat>)
      requires lents == Lents(jobs)
      ensures LentApart(jobs) <==>
          (forall s <- lents :: s < |seqs|) && (forall a, b :: 0 <= a < b < |lents| ==> lents[a] != lents[b])
    {
      hide Lents;
      assert forall a :: 0 <= a < |jobs| ==> lents[a] in lents && lents[a] == jobs[a].lent;
    }

    /** What a sequence without one of its elements holds. */
    static lemma SkipsOne<T>(s: seq<T>, i: nat)
      requires i < |s|
      ensures var r := s[..i] + s[i + 1..];
              |r| == |s| - 1 && forall a {:trigger r[a]} :: 0 <= a < |r| ==> r[a] == if a < i then s[a] else s[a + 1]
    {
    }

    static lemma StaysApart(s: seq<nat>, i: nat)
      requires i < |s| && forall a, b :: 0 <= a < b < |s| ==> s[a] != s[b]
      ensures var r := s[..i] + s[i + 1..];
              && (forall a, b :: 0 <= a < b < |r| ==> r[a] != r[b]) && s[i] !in r
              && (forall x :: x != s[i] ==> (x in s <==> x in r)) && (forall x <- r :: x in s)
    {
      var r := s[..i] + s[i + 1..];
      SkipsOne(s, i);
      SameBut(s, i);
    }

    /** What is left holds all that was there but the one left out, where nothing is twice. */
    static lemma SameBut(s: seq<nat>, i: nat)
      requires i < |s| && forall a, b :: 0 <= a < b < |s| ==> s[a] != s[b]
      ensures var r := s[..i] + s[i + 1..];
              s[i] !in r && (forall x :: x != s[i] ==> (x in s <==> x in r)) && (forall x <- r :: x in s)
    {
      var before, after := s[..i], s[i + 1..];
      assert s == before + ([s[i]] + after);
      forall a | 0 <= a < |after| ensures after[a] != s[i] { assert after[a] == s[i + 1 + a]; }
    }

    lemma EndedIsAnswered(i: nat)
      requires Apart() && mid == {} && i < |running| && running[i].ended && running[i].begun
      ensures running[i].Answered(logits)
    {
      assert Served(running[i]);
    }

    /** A request that ended is handed back, and its sequence is free. */
    method HandBackAt(i: nat, j: Job<R, G>, q: Sequence)
      requires Valid() && i < |running| && j == running[i] && j.ended && j.begun && j.lent < |seqs| && q == seqs[j.lent]
      modifies this`running, this`done, q`busy
      ensures Valid() && running == old(running)[..i] + old(running)[i + 1..] && done == old(done) + {j}
    {
      hide Apart;
      hide Lents;
      LentsDiffer(i);
      ghost var lents := Lents(running);
      Remove(i, j);
      NowShape();
      hide Shape;
      MarkFree(j.lent, q, lents[..i] + lents[i + 1..]);
    }

    lemma LentsDiffer(i: nat)
      requires Valid() && i < |running|
      ensures var l := Lents(running);
              && running[i].lent !in l[..i] + l[i + 1..]
              && forall s :: s != running[i].lent ==> (s in l <==> s in l[..i] + l[i + 1..])
    {
      hide Valid;
      hide Lents;
      RunningApart();
      StaysApart(Lents(running), i);
    }

    method MarkFree(s: nat, q: Sequence, ghost lents: seq<nat>)
      requires Shape() && s < |seqs| && q == seqs[s] && s !in Lents(running)
      requires forall p :: 0 <= p < |seqs| && p != s ==> (seqs[p].busy <==> p in Lents(running))
      modifies q`busy
      ensures BusyIsLent()
    {
      hide Shape;
      q.busy := false;
      forall p | 0 <= p < |seqs|
        ensures seqs[p].busy <==> p in Lents(running)
      {
        if p != s { SeqsApart(p, s); }
      }
    }

    /** Every request that ended is handed back. */
    method HandBack()
      requires Valid() && forall k <- running :: k.begun
      modifies this`running, this`done, seqs`busy
      ensures Valid() && (forall k <- running :: k.begun && !k.ended) && old(done) <= done
      ensures Sum(Todo(running + queue)) == old(Sum(Todo(running + queue)))
      ensures forall k <- old(running + queue) :: k in running + queue || k in done
      ensures forall k <- running + queue :: k in old(running + queue)
    {
      hide *;
      var i := 0;
      while i < |running|
        invariant i <= |running| && Valid() && old(done) <= done
        invariant forall k <- running :: k.begun
        invariant forall a :: 0 <= a < i ==> !running[a].ended
        invariant Sum(Todo(running + queue)) == old(Sum(Todo(running + queue)))
        invariant forall k <- old(running + queue) :: k in running + queue || k in done
        invariant forall k <- running + queue :: k in old(running + queue)
        decreases |running| - i
      {
        if running[i].ended {
          RunningLent();
          TodoWithout(i);
          HandBackAt(i, running[i], seqs[running[i].lent]);
        } else {
          i := i + 1;
        }
      }
    }

    /** A request that ended has nothing left to do. */
    lemma TodoWithout(i: nat)
      requires i < |running| && running[i].begun && running[i].ended
      ensures Sum(Todo(running[..i] + running[i + 1..] + queue)) == Sum(Todo(running + queue))
    {
      var all, rest := Todo(running + queue), Todo(running[..i] + running[i + 1..] + queue);
      assert rest == all[..i] + all[i + 1..];
      SumWithout(all, i);
    }

    // ---- Turns ----

    /** Between turns: every running request has begun and goes on. */
    ghost predicate Idle() reads this, seqs, running, queue, done {
      Valid() && forall k <- running :: k.begun && !k.ended
    }

    /** What is left to do for every open request. */
    ghost function ToDo(): nat reads this`running, this`queue, running, queue {
      Sum(Todo(running + queue))
    }

    /** Begin, prompt, run a round: nobody has more left to do, and somebody has less. */
    method Advance()
      requires Valid() && forall k <- running :: !k.ended
      modifies this`mid, this`outs, this`ran, running, seqs`cached, seqs`kv, samplers
      ensures Valid() && forall k <- running :: k.begun
      ensures forall a :: 0 <= a < |running| ==> running[a].Work() <= old(running[a].Work())
      ensures running != [] ==> exists a :: 0 <= a < |running| && running[a].Work() < old(running[a].Work())
    {
      hide *;
      BeginAll();
      PromptSome();
      Round();
    }

    lemma NoneEnded()
      requires Idle()
      ensures Valid() && forall k <- running + queue :: !k.ended
    {
    }

    lemma OpenApart(open: seq<Job<R, G>>)
      requires Valid() && open == running + queue
      ensures forall k <- running :: k in open
      ensures forall k <- queue :: k in open && k !in running
    {
      forall k | k in queue
        ensures k in open && k !in running
      {
        var b :| 0 <= b < |queue| && queue[b] == k;
        assert open[|running| + b] == k;
        assert forall a :: 0 <= a < |running| ==> open[a] == running[a];
      }
    }

    /** A turn up to handing back. */
    method Opening(ghost open: seq<Job<R, G>>)
      requires Idle() && open == running + queue
      modifies this`clock, this`queue, this`running, this`mid, this`outs, this`ran, running, queue, seqs, samplers
      ensures Valid() && running + queue == open && forall k <- running :: k.begun
      ensures forall a :: 0 <= a < |open| ==> open[a].Work() <= old(open[a].Work())
      ensures open != [] ==> exists a :: 0 <= a < |open| && open[a].Work() < old(open[a].Work())
    {
      hide *;
      NoneEnded();
      ghost var firstRunning, firstQueue := running, queue;
      Lend();
      OpenApart(open);
      forall a | 0 <= a < |running|
        ensures running[a] in firstRunning || running[a] in firstQueue
      {
        assert open[a] == running[a] && open[a] in open;
      }
      Advance();
      assert forall a :: 0 <= a < |running| ==> open[a] == running[a];
      assert forall a :: |running| <= a < |open| ==> open[a] in queue;
    }

    /**
     * One turn of the scheduler: lend, begin, prompt, run a round, hand back. While any request is
     * open, a turn leaves less to do.
     */
    method Turn()
      requires Idle()
      modifies this, running, queue, seqs, samplers
      ensures Idle() && old(done) <= done
      ensures old(running + queue) != [] ==> ToDo() < old(ToDo())
      ensures forall k <- old(running + queue) :: k in running + queue || k in done
      ensures forall k <- running + queue :: k in old(running + queue)
    {
      hide Valid;
      hide Job.Work;
      hide Sum;
      ghost var open := running + queue;
      ghost var before := Todo(open);
      Opening(open);
      ghost var middle := Todo(open);
      if open != [] {
        ghost var a :| 0 <= a < |open| && open[a].Work() < old(open[a].Work());
        assert middle[a] < before[a];
      }
      SumLess(middle, before);
      HandBack();
    }

    /** A connection queues a request. */
    method Enqueue(request: Request<R, G>) returns (j: Job<R, G>)
      requires Idle() && Servable(request, ctx)
      modifies this`queue
      ensures Idle() && fresh(j) && j.request == request && running + queue == old(running + queue) + [j]
    {
      j := new Job(request);
      Append(j);
    }

    method Append(j: Job<R, G>)
      requires Idle() && j.Waiting() && Servable(j.request, ctx) && j !in running + queue && j !in done
      modifies this`queue
      ensures Idle() && running + queue == old(running + queue) + [j]
    {
      hide AllServed;
      hide Level;
      hide BusyIsLent;
      hide Shape;
      queue := queue + [j];
      assert running + queue == old(running + queue) + [j];
    }

    /** What one event queues: a request that arrives and is not refused. */
    function Queues(e: Event<R, G>): (r: seq<Request<R, G>>)
      requires e.Asks()
      ensures |r| <= 1 && forall q <- r :: Servable(q, ctx)
    {
      if !e.Arrives? then []
      else
        match Admitted(e.asking, ctx)
        case None => []
        case Some(q) => [q]
    }

    /** Every request of a run that is not refused, whenever it comes. */
    function Arrived(events: seq<Event<R, G>>): seq<Request<R, G>>
      requires forall e <- events :: e.Asks()
    {
      if events == [] then [] else Arrived(events[..|events| - 1]) + Queues(events[|events| - 1])
    }

    /** The reply is the one its request would get alone, and counted so. */
    ghost predicate IsAlone(j: Job<R, G>) reads j {
      j.reply == Alone(logits, j.request) && j.completion == |Alone(logits, j.request).taken|
    }

    /**
     * A whole run: requests arrive whenever they do, and are refused or
     * queued; turns are taken between them, and then until none is left.
     * Every request queued is answered with the reply it would get alone, a
     * token at a time, unless the model failed at one of the steps it was
     * asked for the request, or the client left before the end; and then
     * with a beginning of it. It is asked for no more steps than the prompt,
     * the tokens and their drafts can need. The requests queued are those
     * that come and are not refused, in their order, and each may take as
     * many tokens as it wants, or as fill the context.
     */
    method Serve(events: seq<Event<R, G>>) returns (jobs: seq<Job<R, G>>, ghost from: seq<nat>)
      requires Idle() && running + queue == []
      requires forall e <- events :: e.Asks()
      modifies this, seqs, samplers
      ensures Idle() && running + queue == [] && |jobs| == |Arrived(events)|
      ensures |from| == |jobs| && InOrder(events, from)
      ensures forall n :: 0 <= n < |jobs| ==> AsAsked(events[from[n]], jobs[n].request)
      ensures forall n :: 0 <= n < |jobs| ==>
                && jobs[n].request == Arrived(events)[n] && jobs[n].ended
                && (jobs[n].ok && !jobs[n].failed ==> IsAlone(jobs[n]))
                && (!jobs[n].Broke() && !jobs[n].GaveUp() ==> jobs[n].ok && !jobs[n].failed)
                && jobs[n].asked <= StepsFor(jobs[n].request) && jobs[n].steps <= jobs[n].request.maxNew
                && jobs[n].reply.taken <= Alone(logits, jobs[n].request).taken
    {
      hide Idle;
      hide Arrived;
      hide ToDo;
      ArrivedNone();
      jobs := [];
      var i := 0;
      while i < |events|
        invariant i <= |events| && Idle() && Open(jobs, Arrived(events[..i]))
        invariant forall k <- running + queue :: fresh(k)
      {
        assert events[i] in events;
        ArrivedNext(events, i);
        if events[i].Arrives? {
          var q := Admitted(events[i].asking, ctx);
          if q.Some? {
            var j := Enqueue(q.value);
            jobs := jobs + [j];
          }
        } else {
          InOpen();
          Turn();
        }
        i := i + 1;
      }
      assert events[..i] == events;
      while running + queue != []
        invariant Idle() && Open(jobs, Arrived(events))
        invariant forall k <- running + queue :: fresh(k)
        decreases ToDo()
      {
        InOpen();
        Turn();
      }
      AllAnswered(jobs, Arrived(events));
      from := ArrivedFrom(events);
    }

    /** The events that queue a request: each that one comes with, but for those refused. */
    ghost predicate InOrder(events: seq<Event<R, G>>, from: seq<nat>) {
      && (forall n :: 0 <= n < |from| ==> from[n] < |events|)
      && (forall n, m :: 0 <= n < m < |from| ==> from[n] < from[m])
      && (forall i :: 0 <= i < |events| ==> (i in from <==> Comes(events[i])))
    }

    /** The request queued is the one that came, and may take what it is granted. */
    ghost predicate AsAsked(e: Event<R, G>, r: Request<R, G>) {
      e.Arrives? && r == e.asking.request.(maxNew := r.maxNew) && Grants(e.asking, ctx, r.maxNew)
    }

    predicate Comes(e: Event<R, G>) { e.Arrives? && !Refuses(e.asking, ctx) }

    lemma {:induction false} ArrivedFrom(events: seq<Event<R, G>>) returns (from: seq<nat>)
      requires forall e <- events :: e.Asks()
      ensures |from| == |Arrived(events)| && InOrder(events, from)
      ensures forall n :: 0 <= n < |from| ==> AsAsked(events[from[n]], Arrived(events)[n])
    {
      hide *;
      from := [];
      if events == [] {
        ArrivedNone();
        NoneInOrder();
      } else {
        var last := |events| - 1;
        var front, e := events[..last], events[last];
        var before := ArrivedFrom(front);
        assert events == front + [e] && events[..last + 1] == events;
        ArrivedNext(events, last);
        QueuesAsAsked(e);
        OneMoreInOrder(front, e, before);
        InOrderWithin(front, before);
        from := before + (if Comes(e) then [last] else []);
      }
    }

    lemma NoneInOrder()
      ensures InOrder([], [])
    {
    }

    lemma InOrderWithin(events: seq<Event<R, G>>, from: seq<nat>)
      requires InOrder(events, from)
      ensures forall n :: 0 <= n < |from| ==> from[n] < |events|
    {
    }

    lemma QueuesAsAsked(e: Event<R, G>)
      requires e.Asks()
      ensures |Queues(e)| == (if Comes(e) then 1 else 0) && (Comes(e) ==> AsAsked(e, Queues(e)[0]))
    {
      if e.Arrives? { AdmittedAsAsked(e.asking, ctx); }
    }

    lemma OneMoreInOrder(front: seq<Event<R, G>>, e: Event<R, G>, from: seq<nat>)
      requires InOrder(front, from)
      ensures InOrder(front + [e], from + (if Comes(e) then [|front|] else []))
    {
      hide Refuses;
      var all, now := front + [e], from + (if Comes(e) then [|front|] else []);
      forall i | 0 <= i < |all|
        ensures i in now <==> Comes(all[i])
      {
        assert i < |front| ==> all[i] == front[i];
      }
    }

    /** Each job serves its request, and is open or done. */
    ghost predicate Open(jobs: seq<Job<R, G>>, requests: seq<Request<R, G>>) reads this`running, this`queue, this`done {
      && |jobs| == |requests|
      && forall n :: 0 <= n < |jobs| ==>
            jobs[n].request == requests[n] &&
            (jobs[n] in running + queue || jobs[n] in done)
    }

    lemma InOpen()
      ensures forall a :: 0 <= a < |running| ==> running[a] in running + queue
      ensures forall a :: 0 <= a < |queue| ==> queue[a] in running + queue
    {
      assert forall a :: 0 <= a < |running| ==> (running + queue)[a] == running[a];
      assert forall a :: 0 <= a < |queue| ==> (running + queue)[|running| + a] == queue[a];
    }

    lemma ArrivedNone()
      ensures Arrived([]) == []
    {
    }

    lemma ArrivedNext(events: seq<Event<R, G>>, i: nat)
      requires i < |events| && forall e <- events :: e.Asks()
      ensures Arrived(events[..i + 1]) == Arrived(events[..i]) + Queues(events[i])
    {
      assert events[..i + 1][..i] == events[..i];
    }

    lemma AllAnswered(jobs: seq<Job<R, G>>, requests: seq<Request<R, G>>)
      requires Idle() && Open(jobs, requests) && running + queue == []
      ensures forall n :: 0 <= n < |jobs| ==>
                && jobs[n].request == requests[n] && jobs[n].ended
                && (jobs[n].ok && !jobs[n].failed ==> IsAlone(jobs[n]))
                && (!jobs[n].Broke() && !jobs[n].GaveUp() ==> jobs[n].ok && !jobs[n].failed)
                && jobs[n].asked <= StepsFor(jobs[n].request) && jobs[n].steps <= jobs[n].request.maxNew
                && jobs[n].reply.taken <= Alone(logits, jobs[n].request).taken
    {
      forall n | 0 <= n < |jobs|
        ensures jobs[n].ended && (jobs[n].ok && !jobs[n].failed ==> IsAlone(jobs[n]))
        ensures !jobs[n].Broke() && !jobs[n].GaveUp() ==> jobs[n].ok && !jobs[n].failed
        ensures jobs[n].asked <= StepsFor(jobs[n].request) && jobs[n].steps <= jobs[n].request.maxNew
        ensures jobs[n].reply.taken <= Alone(logits, jobs[n].request).taken
      {
        assert jobs[n] in done && jobs[n].Answered(logits);
        jobs[n].AnsweredIsAlone(logits);
      }
    }
  }
}
