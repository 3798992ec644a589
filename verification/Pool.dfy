/**
 * A pool of threads that share out a job's tasks, the caller's thread among
 * them. A method is what one thread does while it holds the lock, or one read
 * of a shared field outside it, so every interleaving is some order of them.
 * A thread asleep does nothing until a broadcast wakes it.
 */
module Pool {
  import opened Basics

  /**
   * Where a thread is: out of a job, with a task's number taken, with the function read too,
   * running it, or waiting for the others.
   */
  datatype Phase<+T, +A> = Out | Took(i: nat) | Half(i: nat, task: T) | Runs(i: nat, task: T, arg: A) | Waits {
    predicate Active() { Took? || Half? || Runs? }
  }

  /** A job: its function, its argument and how many tasks it has. */
  datatype Spec<+T, +A> = Spec(n: nat, task: T, arg: A)

  /** A task that was called: in which job, which one, by which worker, and with what. */
  datatype Call<+T, +A> = Call(job: nat, i: nat, worker: nat, task: T, arg: A)

  ghost function Busy<T, A>(at: seq<Phase<T, A>>): (b: nat)
    ensures b <= |at|
  {
    if at == [] then 0 else Busy(at[..|at| - 1]) + (if at[|at| - 1].Active() then 1 else 0)
  }

  lemma {:induction false} BusyChanges<T, A>(at: seq<Phase<T, A>>, w: nat, now: Phase<T, A>)
    requires w < |at|
    ensures Busy(at[w := now]) + (if at[w].Active() then 1 else 0) == Busy(at) + (if now.Active() then 1 else 0)
  {
    var n := |at| - 1;
    if w == n {
      assert at[w := now][..n] == at[..n];
    } else {
      assert at[w := now][..n] == at[..n][w := now];
      BusyChanges(at[..n], w, now);
    }
  }

  lemma {:induction false} SomeBusy<T, A>(at: seq<Phase<T, A>>)
    ensures Busy(at) > 0 <==> exists w :: 0 <= w < |at| && at[w].Active()
  {
    if at != [] {
      SomeBusy(at[..|at| - 1]);
      assert forall w :: 0 <= w < |at| - 1 ==> at[..|at| - 1][w] == at[w];
    }
  }

  /** How often a job's task was called. */
  ghost function Times<T, A>(calls: seq<Call<T, A>>, job: nat, i: nat): nat {
    if calls == [] then 0
    else
      var c := calls[|calls| - 1];
      Times(calls[..|calls| - 1], job, i) + (if c.job == job && c.i == i then 1 else 0)
  }

  lemma OneMoreCall<T, A>(calls: seq<Call<T, A>>, c: Call<T, A>)
    ensures forall job, i ::
          Times(calls + [c], job, i) ==
          Times(calls, job, i) + (if c.job == job && c.i == i then 1 else 0)
  {
    assert (calls + [c])[..|calls|] == calls;
  }

  /** The numbers taken are each with one thread or finished; the rest are to come. */
  ghost predicate Shared<T, A>(at: seq<Phase<T, A>>, done: set<nat>, called: set<nat>, next: nat, finished: nat, n: nat)
  {
    && finished + Busy(at) == next <= n && |done| == finished && done <= called && (forall i <- called :: i < next)
    && (forall w :: 0 <= w < |at| && at[w].Active() ==>
          at[w].i < next && at[w].i !in done && (at[w].i in called <==> at[w].Runs?))
    && (forall v, w :: 0 <= v < w < |at| && at[v].Active() && at[w].Active() ==> at[v].i != at[w].i)
  }

  /** What a thread read outside the lock is of the job whose number it took. */
  ghost predicate Honest<T, A>(at: seq<Phase<T, A>>, task: T, arg: A) {
    && (forall w :: 0 <= w < |at| && at[w].Half? ==> at[w].task == task)
    && (forall w :: 0 <= w < |at| && at[w].Runs? ==> at[w].task == task && at[w].arg == arg)
  }

  /** The caller is out only when every task has finished, and waits only when none is left to take. */
  ghost predicate CallerInside<T, A>(at: seq<Phase<T, A>>, next: nat, finished: nat, n: nat) {
    && |at| >= 1 && (forall w :: 0 < w < |at| ==> !at[w].Waits?)
    && (at[0].Out? ==> finished == n) && (at[0].Waits? ==> next == n)
  }

  /**
   * Every task of every earlier job was called once, those called of this one once, and each with
   * its job's function and argument.
   */
  ghost predicate Logged<T, A>(calls: seq<Call<T, A>>, history: seq<Spec<T, A>>, called: set<nat>, threads: nat) {
    && history != []
    && (forall k: nat, i: nat :: k < |history| - 1 ==> Times(calls, k, i) == if i < history[k].n then 1 else 0)
    && (forall i: nat :: Times(calls, |history| - 1, i) == if i in called then 1 else 0)
    && (forall c <- calls ::
          c.job < |history| && c.task == history[c.job].task && c.arg == history[c.job].arg &&
          c.worker < threads)
  }

  /** A thread takes the next number. */
  lemma Takes<T, A>(at: seq<Phase<T, A>>, done: set<nat>, called: set<nat>, next: nat, finished: nat, n: nat, w: nat)
    requires Shared(at, done, called, next, finished, n) && w < |at| && !at[w].Active() && next < n
    ensures Shared(at[w := Took(next)], done, called, next + 1, finished, n)
  {
    BusyChanges(at, w, Took(next));
  }

  /** A thread reads on: the same number, and it is called when it begins to run. */
  lemma ReadsOn<T, A>(at: seq<Phase<T, A>>, done: set<nat>, called: set<nat>, next: nat, finished: nat, n: nat,
      w: nat, now: Phase<T, A>)
    requires Shared(at, done, called, next, finished, n) && w < |at| && at[w].Active() && now.Active() &&
        now.i == at[w].i
    requires !at[w].Runs?
    ensures Shared(at[w := now], done, if now.Runs? then called + {now.i} else called, next, finished, n)
  {
    BusyChanges(at, w, now);
  }

  /** A thread's task is finished. */
  lemma Finishes<T, A>(at: seq<Phase<T, A>>, done: set<nat>, called: set<nat>, next: nat, finished: nat, n: nat,
      w: nat, now: Phase<T, A>)
    requires Shared(at, done, called, next, finished, n) && w < |at| && at[w].Runs? && !now.Active()
    ensures Shared(at[w := now], done + {at[w].i}, called, next, finished + 1, n)
  {
    BusyChanges(at, w, now);
  }

  /** When every task has finished, every one was called. */
  lemma AllCalled<T, A>(at: seq<Phase<T, A>>, done: set<nat>, called: set<nat>, next: nat, finished: nat, n: nat)
    requires Shared(at, done, called, next, finished, n) && finished == n
    ensures forall i: nat :: i in called <==> i < n
    ensures forall w :: 0 <= w < |at| ==> !at[w].Active()
  {
    SomeBusy(at);
    Full(done, n);
  }

  /** n different numbers below n are all of them. */
  lemma {:induction false} Full(s: set<nat>, n: nat)
    requires |s| == n && forall i <- s :: i < n
    ensures forall i: nat :: i < n ==> i in s
  {
    if n > 0 {
      if n - 1 in s {
        Full(s - {n - 1}, n - 1);
      } else {
        Below(s, n - 1);
      }
    }
  }

  /** The log with one more call, of a task not called before. */
  lemma LogsCall<T, A>(calls: seq<Call<T, A>>, history: seq<Spec<T, A>>, called: set<nat>, threads: nat, c: Call<T, A>)
    requires Logged(calls, history, called, threads) && c.job == |history| - 1 && c.i !in called && c.worker < threads
    requires c.task == history[c.job].task && c.arg == history[c.job].arg
    ensures Logged(calls + [c], history, called + {c.i}, threads)
  {
    OneMoreCall(calls, c);
  }

  /** The log when a job's tasks have all been called and the next job begins. */
  lemma LogsJob<T, A>(calls: seq<Call<T, A>>, history: seq<Spec<T, A>>, called: set<nat>, threads: nat,
      spec: Spec<T, A>)
    requires Logged(calls, history, called, threads) && forall i: nat :: i in called <==> i < history[|history| - 1].n
    ensures Logged(calls, history + [spec], {}, threads)
  {
    NotYet(calls, |history|);
    var more := history + [spec];
    forall k: nat, i: nat | k < |more| - 1
      ensures Times(calls, k, i) == if i < more[k].n then 1 else 0
    {
      if k == |history| - 1 { assert i in called <==> i < history[k].n; }
    }
  }

  lemma {:induction false} NotYet<T, A>(calls: seq<Call<T, A>>, job: nat)
    requires forall c <- calls :: c.job < job
    ensures forall i :: Times(calls, job, i) == 0
  {
    if calls != [] {
      assert calls[|calls| - 1] in calls;
      NotYet(calls[..|calls| - 1], job);
    }
  }

  /** How far a thread is from having nothing to do. */
  function PhaseRank<T, A>(phase: Phase<T, A>): nat {
    match phase
    case Out => 0
    case Waits => 1
    case Runs(_, _, _) => 2
    case Half(_, _) => 3
    case Took(_) => 4
  }

  ghost function PhaseRanks<T, A>(at: seq<Phase<T, A>>): nat {
    if at == [] then 0 else PhaseRanks(at[..|at| - 1]) + PhaseRank(at[|at| - 1])
  }

  lemma {:induction false} RanksChange<T, A>(at: seq<Phase<T, A>>, w: nat, now: Phase<T, A>)
    requires w < |at|
    ensures PhaseRanks(at[w := now]) + PhaseRank(at[w]) == PhaseRanks(at) + PhaseRank(now)
  {
    var n := |at| - 1;
    if w == n {
      assert at[w := now][..n] == at[..n];
    } else {
      assert at[w := now][..n] == at[..n][w := now];
      RanksChange(at[..n], w, now);
    }
  }

  /** Threads that have not seen a job. */
  ghost function Unseen(seen: seq<nat>, job: nat): nat {
    if seen == [] then 0 else Unseen(seen[..|seen| - 1], job) + (if seen[|seen| - 1] != job then 1 else 0)
  }

  lemma {:induction false} SeenNow(seen: seq<nat>, job: nat, w: nat)
    requires w < |seen| && seen[w] != job
    ensures Unseen(seen[w := job], job) + 1 == Unseen(seen, job)
  {
    var n := |seen| - 1;
    if w == n {
      assert seen[w := job][..n] == seen[..n];
    } else {
      assert seen[w := job][..n] == seen[..n][w := job];
      SeenNow(seen[..n], job, w);
    }
  }

  /** A thread sleeps only where its loop would: a worker that has seen the job, a caller with tasks unfinished. */
  ghost predicate SoundlyAsleep<T, A>(asleep: seq<bool>, at: seq<Phase<T, A>>, seen: seq<nat>, job: nat, finished: nat,
      n: nat)
  {
    && |asleep| == |at| == |seen|
    && (forall w :: 0 < w < |at| && asleep[w] ==> at[w].Out? && seen[w] == job)
    && (at != [] && asleep[0] ==> at[0].Waits? && finished < n)
  }

  lemma NobodySleeps<T, A>(at: seq<Phase<T, A>>, seen: seq<nat>, job: nat, finished: nat, n: nat)
    requires |at| == |seen|
    ensures SoundlyAsleep(seq(|at|, _ => false), at, seen, job, finished, n)
  {
  }

  /** A task that finishes, and the caller woken if it was the last: who sleeps does so soundly. */
  lemma WakesCaller<T, A>(asleep: seq<bool>, at: seq<Phase<T, A>>, seen: seq<nat>, job: nat, finished: nat, n: nat,
      w: nat, now: Phase<T, A>)
    requires SoundlyAsleep(asleep, at, seen, job, finished, n) && w < |at| && at[w].Runs? && finished < n
    ensures |asleep| > 0
    ensures SoundlyAsleep(if finished + 1 == n then asleep[0 := false] else asleep, at[w := now], seen, job,
                          finished + 1, n)
  {
  }

  class Pool<T, A> {
    var job: nat
    var task: T
    var arg: A
    var n: nat
    var next: nat
    var finished: nat
    var at: seq<Phase<T, A>>
    var seen: seq<nat>
    var asleep: seq<bool>
    ghost var done: set<nat>
    ghost var called: set<nat>
    ghost var history: seq<Spec<T, A>>
    var calls: seq<Call<T, A>>

    ghost predicate Valid() reads this {
      && |at| == |seen| >= 1 && Shared(at, done, called, next, finished, n) && Honest(at, task, arg)
      && CallerInside(at, next, finished, n) && Logged(calls, history, called, |at|)
      && |history| == job + 1 && history[job] == Spec(n, task, arg)
      && SoundlyAsleep(asleep, at, seen, job, finished, n)
    }

    constructor (threads: nat, task: T, arg: A)
      requires threads >= 1
      ensures Valid() && at == seq(threads, _ => Out) && job == 0 && calls == []
    {
      this.task, this.arg, n, next, finished, job := task, arg, 0, 0, 0, 0;
      at, seen, asleep := seq(threads, _ => Out), seq(threads, _ => 0), seq(threads, _ => false);
      done, called, history, calls := {}, {}, [Spec(0, task, arg)], [];
      new;
      SomeBusy(at);
    }

    /** Thread w takes the next number; the lock is held. */
    method TakeNext(w: nat)
      requires Valid() && w < |at| && !at[w].Active() && next < n && !asleep[w]
      modifies `at, `next
      ensures Valid() && next == old(next) + 1 && at == old(at)[w := Took(old(next))]
    {
      hide Shared;
      hide Logged;
      Takes(at, done, called, next, finished, n, w);
      at, next := at[w := Took(next)], next + 1;
    }

    /** The function is read, after the lock was let go of. */
    method ReadTask(w: nat)
      requires Valid() && w < |at| && at[w].Took?
      modifies `at
      ensures Valid() && at == old(at)[w := Half(old(at)[w].i, task)]
    {
      hide Shared;
      hide Logged;
      ReadsOn(at, done, called, next, finished, n, w, Half(at[w].i, task));
      at := at[w := Half(at[w].i, task)];
    }

    /** The argument is read, and the task called. */
    method ReadArg(w: nat)
      requires Valid() && w < |at| && at[w].Half?
      modifies `at, `calls, `called
      ensures Valid() && at == old(at)[w := Runs(old(at)[w].i, old(at)[w].task, arg)]
      ensures calls == old(calls) + [Call(job, old(at)[w].i, w, task, arg)]
    {
      var now := Runs(at[w].i, at[w].task, arg);
      assert at[w].i !in called && at[w].task == task;
      hide Shared;
      ReadsOn(at, done, called, next, finished, n, w, now);
      LogsCall(calls, history, called, |at|, Call(job, at[w].i, w, at[w].task, arg));
      hide Logged;
      calls, called := calls + [Call(job, at[w].i, w, at[w].task, arg)], called + {at[w].i};
      at := at[w := now];
    }

    /**
     * A task has finished: the thread takes the next number, or is out of the job; the caller
     * waits, or returns when it was the last. The last to finish wakes the caller.
     */
    method Finish(w: nat)
      requires Valid() && w < |at| && at[w].Runs?
      modifies `at, `next, `finished, `done, `asleep
      ensures Valid() && finished == old(finished) + 1 && next >= old(next)
      ensures asleep == if finished == n then old(asleep)[0 := false] else old(asleep)
      ensures next == old(next) ==> at == old(at)[w := if w > 0 || finished == n then Out else Waits]
      ensures next > old(next) ==> next == old(next) + 1 && at == old(at)[w := Took(old(next))]
    {
      hide Shared;
      hide Logged;
      hide SoundlyAsleep;
      InsideWhileBusy(w);
      InBounds();
      WakesCaller(asleep, at, seen, job, finished, n, w, Out);
      WakesCaller(asleep, at, seen, job, finished, n, w, Waits);
      WakesCaller(asleep, at, seen, job, finished, n, w, Took(next));
      ghost var i := at[w].i;
      Finishes(at, done, called, next, finished, n, w, Out);
      Finishes(at, done, called, next, finished, n, w, Waits);
      finished := finished + 1;
      done := done + {i};
      if finished == n { asleep := asleep[0 := false]; }
      if next < n {
        Takes(at[w := Waits], done, called, next, finished, n, w);
        assert at[w := Waits][w := Took(next)] == at[w := Took(next)];
        at, next := at[w := Took(next)], next + 1;
      } else if w > 0 || finished == n {
        at := at[w := Out];
      } else {
        at := at[w := Waits];
      }
    }

    /** While any thread has a task, the caller is inside. */
    lemma InsideWhileBusy(w: nat)
      requires Valid() && w < |at| && at[w].Active()
      ensures !at[0].Out? && finished < n
    {
      SomeBusy(at);
    }

    /** A worker woken by a new job: it takes a task if one is left. */
    method Wake(w: nat)
      requires Valid() && 0 < w < |at| && at[w].Out? && seen[w] != job
      modifies `at, `next, `seen
      ensures Valid() && seen == old(seen)[w := job] && next >= old(next)
      ensures if old(next) < n then next == old(next) + 1 && at == old(at)[w := Took(old(next))]
          else next == old(next) && at == old(at)
    {
      hide Shared;
      hide Logged;
      assert !asleep[w];
      seen := seen[w := job];
      if next < n { TakeNext(w); }
    }

    /** A thread with nothing to do sleeps: its guard is tried under the lock, which sleeping lets go of. */
    method Doze(w: nat)
      requires Valid() && w < |at| && !asleep[w]
      requires if w == 0 then at[0].Waits? && finished < n else at[w].Out? && seen[w] == job
      modifies `asleep
      ensures Valid() && asleep == old(asleep)[w := true]
    {
      hide Shared;
      hide Logged;
      asleep := asleep[w := true];
    }

    /** The caller, woken when every task has finished, returns. */
    method Return()
      requires Valid() && at[0].Waits? && finished == n
      modifies `at
      ensures Valid() && at == old(at)[0 := Out]
    {
      hide Shared;
      hide Logged;
      StillShared(at, done, called, next, finished, n, Out);
      at := at[0 := Out];
    }

    lemma StillShared(at: seq<Phase<T, A>>, done: set<nat>, called: set<nat>, next: nat, finished: nat, n: nat,
        now: Phase<T, A>)
      requires Shared(at, done, called, next, finished, n) && at != [] && !at[0].Active() && !now.Active()
      ensures Shared(at[0 := now], done, called, next, finished, n)
    {
      BusyChanges(at, 0, now);
    }

    /** The caller hands out a job, wakes every worker and takes the first task. */
    method Start(n: nat, task: T, arg: A)
      requires Valid() && at[0].Out? && n > 0
      modifies this
      ensures Valid() && job == old(job) + 1 && this.n == n && this.task == task && this.arg == arg &&
          calls == old(calls)
      ensures next == 1 && finished == 0 && at == old(at)[0 := Took(0)] && seen == old(seen)
      ensures history == old(history) + [Spec(n, task, arg)]
      ensures |asleep| == |at| && forall w :: 0 <= w < |at| ==> !asleep[w]
    {
      hide Logged;
      hide Shared;
      hide Honest;
      hide SoundlyAsleep;
      AsMany();
      AllCalled(at, done, called, next, finished, this.n);
      LogsJob(calls, history, called, |at|, Spec(n, task, arg));
      Begins(at, n, task, arg);
      NobodySleeps(at[0 := Took(0)], seen, job + 1, 0, n);
      this.task, this.arg, this.n := task, arg, n;
      next, finished, job := 0, 0, job + 1;
      done, called, history := {}, {}, history + [Spec(n, task, arg)];
      asleep := seq(|at|, _ => false);
      at, next := at[0 := Took(0)], 1;
    }

    lemma AsMany()
      requires Valid()
      ensures |asleep| == |at| == |seen| >= 1
    {
    }

    /** With nothing under way, the caller takes the first of n tasks. */
    static lemma Begins(at: seq<Phase<T, A>>, n: nat, task: T, arg: A)
      requires at != [] && n > 0 && forall w :: 0 <= w < |at| ==> !at[w].Active()
      ensures Shared(at[0 := Took(0)], {}, {}, 1, 0, n) && Honest(at[0 := Took(0)], task, arg)
    {
      SomeBusy(at);
      BusyChanges(at, 0, Took(0));
    }

    /** Whether thread w is awake and inside its loop: it goes on, or falls asleep. */
    predicate CanStep(w: nat) reads this {
      w < |at| == |asleep| && !asleep[w] && (at[w].Active() || (w > 0 && at[w].Out?) || (w == 0 && at[w].Waits?))
    }

    /** While a job is under way somebody awake can go on: no wake-up is lost. */
    lemma SomebodyCan() returns (w: nat)
      requires Valid() && !at[0].Out?
      ensures CanStep(w)
    {
      SomeBusy(at);
      if exists v :: 0 <= v < |at| && at[v].Active() {
        w :| 0 <= w < |at| && at[w].Active();
      } else {
        w := 0;
      }
    }

    /** Steps left in a job, at most. */
    ghost function Rank(): nat
      reads this
    {
      2 * (5 * (if next < n then n - next else 0) + PhaseRanks(at) + Unseen(seen, job)) + Awake(asleep)
    }

    /** Whatever thread w does next. */
    method Step(w: nat)
      requires Valid() && CanStep(w)
      modifies `at, `next, `finished, `seen, `asleep, `done, `calls, `called
      ensures Valid() && |at| == |old(at)| && Rank() < old(Rank()) && old(calls) <= calls
    {
      hide Valid;
      hide PhaseRanks;
      hide Unseen;
      hide Awake;
      InBounds();
      AwakeChanges(asleep, w, true);
      if at[w].Took? {
        RanksChange(at, w, Half(at[w].i, task));
        ReadTask(w);
      } else if at[w].Half? {
        RanksChange(at, w, Runs(at[w].i, at[w].task, arg));
        ReadArg(w);
      } else if at[w].Runs? {
        RanksChange(at, w, Out);
        RanksChange(at, w, Waits);
        RanksChange(at, w, Took(next));
        AwakeChanges(asleep, 0, false);
        Finish(w);
        InBounds();
      } else if w > 0 {
        if seen[w] == job {
          Doze(w);
        } else {
          SeenNow(seen, job, w);
          RanksChange(at, w, Took(next));
          Wake(w);
        }
      } else if finished == n {
        RanksChange(at, 0, Out);
        Return();
      } else {
        Doze(0);
      }
    }

    lemma InBounds()
      requires Valid()
      ensures finished <= next <= n && |at| == |seen| == |asleep| >= 1
    {
    }

    /**
     * A run: the caller hands out a job, and threads step in any order until
     * it is out again. By then every task was called exactly once, with the
     * job's own function and argument, and every call has finished.
     */
    method Run(n: nat, task: T, arg: A) returns (number: nat)
      requires Valid() && at[0].Out?
      modifies this
      ensures Valid() && at[0].Out? && old(calls) <= calls && |at| == |old(at)|
      ensures n == 0 ==> calls == old(calls)
      ensures n > 0 ==> number > old(job) && forall i: nat :: Times(calls, number, i) == if i < n then 1 else 0
      ensures n > 0 ==> forall c <- calls :: c.job == number ==> c.task == task && c.arg == arg
      ensures forall w :: 0 <= w < |at| ==> !at[w].Active()
    {
      hide Valid;
      number := job;
      if n == 0 {
        WhenOut();
        return;
      }
      WhenOut();
      Start(n, task, arg);
      number := job;
      while !at[0].Out?
        invariant Valid() && |at| == |old(at)| && old(calls) <= calls && job == number
        invariant this.n == n && this.task == task && this.arg == arg
        decreases Rank()
      {
        ghost var can := SomebodyCan();
        var w: nat :| CanStep(w);
        Step(w);
      }
      WhenOut();
    }

    /**
     * The caller is out: every task of the last job was called once with its own function and
     * argument, and is over.
     */
    lemma WhenOut()
      requires Valid() && at[0].Out?
      ensures |at| >= 1 && forall w :: 0 <= w < |at| ==> !at[w].Active()
      ensures forall i: nat :: Times(calls, job, i) == if i < n then 1 else 0
      ensures forall c <- calls :: c.job == job ==> c.task == task && c.arg == arg
    {
      AllCalled(at, done, called, next, finished, n);
      var last := |history| - 1;
      assert last == job && forall i: nat :: Times(calls, last, i) == if i in called then 1 else 0;
    }
  }

  // ---- A job's tasks as they were shared out ----

  /** A job's calls, in the order they were made. */
  function CallsOf<T, A>(calls: seq<Call<T, A>>, job: nat): seq<Call<T, A>> {
    if calls == [] then []
    else
      var c := calls[|calls| - 1];
      CallsOf(calls[..|calls| - 1], job) + (if c.job == job then [c] else [])
  }

  lemma {:induction false} CallsOfSame<T, A>(calls: seq<Call<T, A>>, job: nat, i: nat)
    ensures Times(CallsOf(calls, job), job, i) == Times(calls, job, i)
    ensures forall c <- CallsOf(calls, job) :: c in calls && c.job == job
    decreases calls
  {
    if calls != [] {
      var most, c := calls[..|calls| - 1], calls[|calls| - 1];
      CallsOfSame(most, job, i);
      if c.job == job {
        OneMoreCall(CallsOf(most, job), c);
      } else {
        assert CallsOf(most, job) + [] == CallsOf(most, job);
      }
    }
  }

  lemma {:induction false} TimesAtLeast<T, A>(calls: seq<Call<T, A>>, job: nat, i: nat)
    ensures (exists a :: 0 <= a < |calls| && calls[a].job == job && calls[a].i == i) <==> Times(calls, job, i) > 0
    ensures (exists a, b ::
          0 <= a < b < |calls| && calls[a].job == calls[b].job == job &&
          calls[a].i == calls[b].i == i) ==> Times(calls, job, i) > 1
  {
    if calls != [] {
      var n := |calls| - 1;
      var most := calls[..n];
      TimesAtLeast(most, job, i);
      assert forall a :: 0 <= a < n ==> most[a] == calls[a];
    }
  }

  /** Whether a task has a turn. */
  ghost predicate HasTurn(order: seq<(nat, nat)>, i: nat) { exists a :: 0 <= a < |order| && order[a].0 == i }

  /** Which task each turn is, and which worker's: every task has one turn. */
  ghost predicate EachOnce(order: seq<(nat, nat)>, n: nat, threads: nat) {
    && (forall a :: 0 <= a < |order| ==> order[a].0 < n && order[a].1 < threads)
    && (forall a, b :: 0 <= a < b < |order| ==> order[a].0 != order[b].0)
    && (forall i: nat :: i < n ==> HasTurn(order, i))
  }

  /** Tasks shared out over a pool's threads: whatever the interleaving, each is called once. */
  method ShareOut(threads: nat, n: nat) returns (order: seq<(nat, nat)>)
    requires threads >= 1
    ensures EachOnce(order, n, threads)
  {
    hide EachOnce;
    var p := new Pool<int, int>(threads, 0, 0);
    var number := p.Run(n, 0, 0);
    if n == 0 {
      order := [];
      NoTurns(threads);
      return;
    }
    var calls := CallsOf(p.calls, number);
    order := seq(|calls|, a requires 0 <= a < |calls| => (calls[a].i, calls[a].worker));
    Workers(p, threads);
    CallsOfSame(p.calls, number, 0);
    forall i: nat ensures Times(calls, number, i) == if i < n then 1 else 0 {
      CallsOfSame(p.calls, number, i);
    }
    TurnsOnce(calls, number, n, order, threads);
  }

  lemma NoTurns(threads: nat)
    ensures EachOnce([], 0, threads)
  {
  }

  lemma Workers<T, A>(p: Pool<T, A>, threads: nat)
    requires p.Valid() && |p.at| == threads
    ensures forall c <- p.calls :: c.worker < threads
  {
  }

  lemma TurnsOnce<T, A>(calls: seq<Call<T, A>>, job: nat, n: nat, order: seq<(nat, nat)>, threads: nat)
    requires (forall c <- calls :: c.job == job && c.worker < threads) &&
        forall i: nat :: Times(calls, job, i) == if i < n then 1 else 0
    requires |order| == |calls| && forall a :: 0 <= a < |calls| ==> order[a] == (calls[a].i, calls[a].worker)
    ensures EachOnce(order, n, threads)
  {
    forall a | 0 <= a < |calls| ensures order[a].0 < n && order[a].1 < threads {
      assert calls[a] in calls;
      TimesAtLeast(calls, job, calls[a].i);
    }
    forall a, b | 0 <= a < b < |order| ensures order[a].0 != order[b].0 {
      assert calls[a] in calls && calls[b] in calls;
      TimesAtLeast(calls, job, calls[a].i);
    }
    forall i: nat | i < n ensures HasTurn(order, i) {
      TimesAtLeast(calls, job, i);
      var a :| 0 <= a < |calls| && calls[a].job == job && calls[a].i == i;
      assert order[a].0 == i;
    }
  }
}
