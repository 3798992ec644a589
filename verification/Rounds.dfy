/**
 * A round: one row for every request that is decoding and as many more for
 * drafts as the model's passes have room for, run together, and each
 * request's tokens taken from its own rows.
 */
module Rounds {
  import opened Basics
  import opened Drafting
  import opened Lending
  import opened Serving
  import opened Solo

  /** A token to run in a sequence, and whether the model will fail at it. */
  datatype Row = Row(lent: nat, token: Token, fails: bool)

  /** n rounded up to whole passes of cap rows. */
  function RoundUp(n: nat, cap: nat): (r: nat)
    requires cap > 0
    ensures n <= r < n + cap
  {
    Euclid(n + cap - 1, cap);
    (n + cap - 1) / cap * cap
  }

  lemma RoundUpLeast(n: nat, cap: nat, passes: nat)
    requires cap > 0 && n <= passes * cap
    ensures RoundUp(n, cap) <= passes * cap
  {
    var q := (n + cap - 1) / cap;
    Euclid(n + cap - 1, cap);
    Factor(q, passes, cap);
    assert q * cap <= passes * cap by { assert (passes - q) * cap >= 0; }
  }

  /** Room for a round's rows: as many as the passes one row a sequence fills, or one request and its drafts. */
  function RowsCap(seqs: nat, cap: nat, speculate: nat): nat
    requires cap > 0
  {
    Max(RoundUp(seqs, cap), speculate + 1)
  }

  /** Rows beyond one a request: what the passes have room for, or all a request alone may draft. */
  function Spare(live: nat, cap: nat, speculate: nat): nat
    requires cap > 0
  {
    if live == 1 then speculate else RoundUp(live, cap) - live
  }

  /** However many requests decode, one row each and the spare ones fit. */
  lemma RoundFits(live: nat, seqs: nat, cap: nat, speculate: nat)
    requires cap > 0 && live <= seqs
    ensures live + Spare(live, cap, speculate) <= RowsCap(seqs, cap, speculate)
  {
    RoundUpLeast(live, cap, (seqs + cap - 1) / cap);
  }

  /** Drafts beside other requests add no pass. */
  lemma DraftsAddNoPass(live: nat, drafts: nat, cap: nat, speculate: nat)
    requires cap > 0 && live != 1 && drafts <= Spare(live, cap, speculate)
    ensures RoundUp(live + drafts, cap) == RoundUp(live, cap)
  {
    RoundUpLeast(live + drafts, cap, (live + cap - 1) / cap);
    RoundUpLeast(live, cap, (live + drafts + cap - 1) / cap);
  }

  /** And one draft more would add a pass, or be more than a request alone may draft. */
  lemma SpareIsAll(live: nat, cap: nat, speculate: nat)
    requires cap > 0 && live > 0
    ensures live == 1 ==> Spare(live, cap, speculate) == speculate
    ensures live > 1 ==> RoundUp(live + Spare(live, cap, speculate) + 1, cap) > RoundUp(live, cap)
  {
    Euclid(live + Spare(live, cap, speculate) + cap, cap);
  }

  /** The tokens of sequence s among the first n rows that ran. */
  function Fed(rows: seq<Row>, ran: seq<bool>, s: nat, n: nat): seq<Token>
    requires n <= |rows| == |ran|
  {
    if n == 0 then []
    else Fed(rows, ran, s, n - 1) + (if rows[n - 1].lent == s && ran[n - 1] then [rows[n - 1].token] else [])
  }

  lemma {:induction false} FedPrefix(rows: seq<Row>, ran: seq<bool>, more: seq<Row>, moreRan: seq<bool>, s: nat, n: nat)
    requires n <= |rows| == |ran| && |more| == |moreRan| && rows <= more && ran <= moreRan
    ensures Fed(rows, ran, s, n) == Fed(more, moreRan, s, n)
  {
    if n > 0 { FedPrefix(rows, ran, more, moreRan, s, n - 1); }
  }

  /** One more row: what a sequence held and was fed grows by its token if it is that sequence's and ran. */
  lemma FedPush(held: seq<Token>, rows: seq<Row>, ran: seq<bool>, row: Row, ok: bool, s: nat)
    requires |rows| == |ran|
    ensures held + Fed(rows + [row], ran + [ok], s, |rows| + 1)
              == held + Fed(rows, ran, s, |rows|) + (if ok && s == row.lent then [row.token] else [])
    ensures forall n :: 0 <= n <= |rows| ==> Fed(rows + [row], ran + [ok], s, n) == Fed(rows, ran, s, n)
  {
    forall n | 0 <= n <= |rows|
      ensures Fed(rows + [row], ran + [ok], s, n) == Fed(rows, ran, s, n)
    {
      FedPrefix(rows, ran, rows + [row], ran + [ok], s, n);
    }
  }

  /** A request's part of a round: its tokens, and the number of the first of its steps. */
  datatype Part = Part(pass: seq<Token>, fails: nat -> bool, from: nat) {
    function RowAt(s: nat, i: nat): Row
      requires i < |pass|
    {
      Row(s, pass[i], fails(from + i))
    }
  }

  /** The rows of sequence s are the ones from a on, a request's part. */
  ghost predicate Block(rows: seq<Row>, s: nat, a: nat, part: Part) {
    && a + |part.pass| <= |rows|
    && (forall i :: 0 <= i < |part.pass| ==> rows[a..a + |part.pass|][i] == part.RowAt(s, i))
    && (forall i :: 0 <= i < |rows| && rows[i].lent == s ==> a <= i < a + |part.pass|)
  }

  /** A sequence stops at its first row that fails. */
  ghost predicate StopsAtFirst(rows: seq<Row>, ran: seq<bool>) {
    |rows| == |ran| && forall i, j :: 0 <= i < j < |rows| && rows[i].lent == rows[j].lent && ran[j] ==> ran[i]
  }

  /** A row that did not run is one the model failed at, or had no room for, or came after one that did not run. */
  ghost predicate Explained(held: seq<seq<Token>>, rows: seq<Row>, ran: seq<bool>, ctx: nat) {
    && |rows| == |ran|
    && forall i :: 0 <= i < |rows| && !ran[i] && rows[i].lent < |held| ==>
         || rows[i].fails || |held[rows[i].lent] + Fed(rows, ran, rows[i].lent, i)| >= ctx
         || StoppedBefore(rows, ran, rows[i].lent, i)
  }

  ghost predicate StoppedBefore(rows: seq<Row>, ran: seq<bool>, s: nat, n: nat)
    requires n <= |rows| == |ran|
  {
    exists k :: 0 <= k < n && rows[k].lent == s && !ran[k]
  }

  lemma ExplainedAt(held: seq<seq<Token>>, rows: seq<Row>, ran: seq<bool>, ctx: nat, i: nat)
    requires Explained(held, rows, ran, ctx) && i < |rows| && !ran[i] && rows[i].lent < |held|
    ensures || rows[i].fails || |held[rows[i].lent] + Fed(rows, ran, rows[i].lent, i)| >= ctx
            || StoppedBefore(rows, ran, rows[i].lent, i)
  {
  }

  /** The sequences that have stopped are those with a row that did not run. */
  ghost predicate Stopping(rows: seq<Row>, ran: seq<bool>, stopped: set<nat>) {
    && |ran| == |rows|
    && (forall i :: 0 <= i < |rows| && !ran[i] ==> rows[i].lent in stopped)
    && (forall s <- stopped :: exists i :: 0 <= i < |rows| && rows[i].lent == s && !ran[i])
  }

  lemma StoppingPush(rows: seq<Row>, ran: seq<bool>, stopped: set<nat>, row: Row, ok: bool)
    requires Stopping(rows, ran, stopped)
    ensures Stopping(rows + [row], ran + [ok], if ok then stopped else stopped + {row.lent})
    ensures StopsAtFirst(rows, ran) && (ok ==> row.lent !in stopped) ==> StopsAtFirst(rows + [row], ran + [ok])
    ensures row.lent in stopped ==> StoppedBefore(rows, ran, row.lent, |rows|)
  {
    var more, moreRan := rows + [row], ran + [ok];
    forall s | s in stopped
      ensures exists i :: 0 <= i < |more| && more[i].lent == s && !moreRan[i]
    {
      var i :| 0 <= i < |rows| && rows[i].lent == s && !ran[i];
      assert more[i] == rows[i] && !moreRan[i];
    }
    if !ok { assert more[|rows|] == row && !moreRan[|rows|]; }
  }

  /** Each row that ran gave what the model gives after everything its sequence held. */
  ghost predicate Gave<R>(logits: seq<Token> -> R, held: seq<seq<Token>>, rows: seq<Row>, ran: seq<bool>,
      outs: seq<R>)
  {
    && |outs| == |rows| == |ran|
    && forall i :: 0 <= i < |rows| && ran[i] && rows[i].lent < |held| ==>
         outs[i] == logits(held[rows[i].lent] + Fed(rows, ran, rows[i].lent, i + 1))
  }

  lemma GaveAt<R>(logits: seq<Token> -> R, held: seq<seq<Token>>, rows: seq<Row>, ran: seq<bool>, outs: seq<R>, i: nat)
    requires Gave(logits, held, rows, ran, outs) && i < |rows| && ran[i] && rows[i].lent < |held|
    ensures outs[i] == logits(held[rows[i].lent] + Fed(rows, ran, rows[i].lent, i + 1))
  {
  }

  lemma GavePush<R>(logits: seq<Token> -> R, held: seq<seq<Token>>, rows: seq<Row>, ran: seq<bool>, outs: seq<R>,
      row: Row, ok: bool)
    requires Gave(logits, held, rows, ran, outs) && row.lent < |held|
    ensures Gave(logits, held, rows + [row], ran + [ok],
                 outs + [logits(held[row.lent] + Fed(rows + [row], ran + [ok], row.lent, |rows| + 1))])
  {
    hide Fed;
    var more, moreRan := rows + [row], ran + [ok];
    forall i | 0 <= i < |rows| && ran[i] && rows[i].lent < |held|
      ensures outs[i] == logits(held[more[i].lent] + Fed(more, moreRan, more[i].lent, i + 1))
    {
      FedPrefix(rows, ran, more, moreRan, rows[i].lent, i + 1);
    }
  }

  lemma ExplainedPush(held: seq<seq<Token>>, rows: seq<Row>, ran: seq<bool>, ctx: nat, row: Row, ok: bool)
    requires Explained(held, rows, ran, ctx) && row.lent < |held|
    requires ok || row.fails || |held[row.lent] + Fed(rows, ran, row.lent, |rows|)| >= ctx
        || StoppedBefore(rows, ran, row.lent, |rows|)
    ensures Explained(held, rows + [row], ran + [ok], ctx)
  {
    hide Fed;
    var more, moreRan := rows + [row], ran + [ok];
    forall i | 0 <= i < |more| && !moreRan[i] && more[i].lent < |held|
      ensures || more[i].fails || |held[more[i].lent] + Fed(more, moreRan, more[i].lent, i)| >= ctx
              || StoppedBefore(more, moreRan, more[i].lent, i)
    {
      FedPrefix(rows, ran, more, moreRan, more[i].lent, i);
      if k :| 0 <= k < i && rows[k].lent == more[i].lent && !ran[k] { assert more[k] == rows[k] && !moreRan[k]; }
    }
  }

  /** Where a request's part that fits the context stops, the model failed. */
  lemma StopsWhereItFails(held: seq<seq<Token>>, rows: seq<Row>, ran: seq<bool>, ctx: nat, s: nat, a: nat, part: Part)
    requires Explained(held, rows, ran, ctx) && Block(rows, s, a, part) && StopsAtFirst(rows, ran)
    requires s < |held| && part.pass != [] && |held[s]| + |part.pass| <= ctx
    ensures var f := Leading(ran[a..a + |part.pass|]); f < |part.pass| ==> part.fails(part.from + f)
  {
    hide Explained;
    hide StopsAtFirst;
    hide Block;
    hide Leading;
    hide Fed;
    hide StoppedBefore;
    BlockRuns(rows, ran, s, a, part);
    var mine := ran[a..a + |part.pass|];
    var f := Leading(mine);
    if f < |part.pass| {
      BlockFed(rows, ran, s, a, part, a + f);
      ExplainedAt(held, rows, ran, ctx, a + f);
      NotStopped(rows, ran, s, a, part);
    }
  }

  /** The row a block stops at is the request's next step; before it none stopped. */
  lemma BlockRuns(rows: seq<Row>, ran: seq<bool>, s: nat, a: nat, part: Part)
    requires Block(rows, s, a, part) && StopsAtFirst(rows, ran)
    ensures |ran| == |rows| && a + |part.pass| <= |rows|
    ensures var f := Leading(ran[a..a + |part.pass|]);
            f < |part.pass| ==>
              && !ran[a + f] && rows[a + f].lent == s && rows[a + f].fails == part.fails(part.from + f)
  {
    var mine := ran[a..a + |part.pass|];
    var f := Leading(mine);
    hide Leading;
    if f < |part.pass| {
      assert mine[f] == ran[a + f] && rows[a + f] == rows[a..a + |part.pass|][f] == part.RowAt(s, f);
    }
  }

  lemma NotStopped(rows: seq<Row>, ran: seq<bool>, s: nat, a: nat, part: Part)
    requires Block(rows, s, a, part) && StopsAtFirst(rows, ran) && a + |part.pass| <= |ran|
    requires Leading(ran[a..a + |part.pass|]) < |part.pass|
    ensures !StoppedBefore(rows, ran, s, a + Leading(ran[a..a + |part.pass|]))
  {
    hide StopsAtFirst;
    hide Leading;
    var f := Leading(ran[a..a + |part.pass|]);
    InBlock(rows, s, a, part);
    hide Block;
    if k :| 0 <= k < a + f && rows[k].lent == s && !ran[k] {
      RanInBlock(rows, ran, s, a, part, k - a);
      assert false;
    }
  }

  lemma FedStep(rows: seq<Row>, ran: seq<bool>, s: nat, n: nat)
    requires n <= |rows| == |ran|
    ensures Fed(rows, ran, s, n) ==
            if n == 0 then []
            else Fed(rows, ran, s, n - 1) + (if rows[n - 1].lent == s && ran[n - 1] then [rows[n - 1].token] else [])
  {
  }

  /** What a block's sequence is fed: its part's tokens up to its first row that did not run. */
  lemma BlockFed(rows: seq<Row>, ran: seq<bool>, s: nat, a: nat, part: Part, n: nat)
    requires Block(rows, s, a, part) && StopsAtFirst(rows, ran) && part.pass != [] && n <= |rows|
    ensures var f := Leading(ran[a..a + |part.pass|]);
            Fed(rows, ran, s, n) == if n <= a then [] else part.pass[..Min(n - a, f)]
  {
    BlockFits(rows, ran, s, a, part);
    var f := Leading(ran[a..a + |part.pass|]);
    forall k: nat | a <= k < a + |part.pass|
      ensures ran[k] <==> k < a + f
    {
      RanInBlock(rows, ran, s, a, part, k - a);
    }
    FedTo(rows, ran, s, a, part, f, n);
  }

  lemma {:induction false} FedTo(rows: seq<Row>, ran: seq<bool>, s: nat, a: nat, part: Part, f: nat, n: nat)
    requires Block(rows, s, a, part) && f <= |part.pass| && a + |part.pass| <= |rows| == |ran| && n <= |rows|
    requires forall k: nat :: a <= k < a + |part.pass| ==> (ran[k] <==> k < a + f)
    ensures Fed(rows, ran, s, n) == if n <= a then [] else part.pass[..Min(n - a, f)]
  {
    FedStep(rows, ran, s, n);
    hide Block;
    hide Fed;
    if n > 0 {
      FedTo(rows, ran, s, a, part, f, n - 1);
      RowInBlock(rows, s, a, part, n - 1);
      if a < n <= a + f {
        assert part.pass[..n - 1 - a] + [part.pass[n - 1 - a]] == part.pass[..n - a];
      }
    }
  }

  lemma BlockFits(rows: seq<Row>, ran: seq<bool>, s: nat, a: nat, part: Part)
    requires Block(rows, s, a, part) && StopsAtFirst(rows, ran)
    ensures a + |part.pass| <= |rows| == |ran|
  {
  }

  lemma RowInBlock(rows: seq<Row>, s: nat, a: nat, part: Part, k: nat)
    requires Block(rows, s, a, part) && k < |rows|
    ensures rows[k].lent == s <==> a <= k < a + |part.pass|
    ensures rows[k].lent == s ==> rows[k].token == part.pass[k - a]
  {
    if a <= k < a + |part.pass| { assert rows[k] == rows[a..a + |part.pass|][k - a] == part.RowAt(s, k - a); }
  }

  lemma InBlock(rows: seq<Row>, s: nat, a: nat, part: Part)
    requires Block(rows, s, a, part)
    ensures a + |part.pass| <= |rows|
    ensures forall i :: 0 <= i < |part.pass| ==> (rows[a + i].lent, rows[a + i].token) == (s, part.pass[i])
    ensures forall i :: 0 <= i < |rows| && !(a <= i < a + |part.pass|) ==> rows[i].lent != s
  {
    forall i | 0 <= i < |part.pass| ensures (rows[a + i].lent, rows[a + i].token) == (s, part.pass[i]) {
      assert rows[a..a + |part.pass|][i] == part.RowAt(s, i);
    }
  }

  /** Of a block's rows, those before its first failure ran, and no other. */
  lemma RanInBlock(rows: seq<Row>, ran: seq<bool>, s: nat, a: nat, part: Part, i: nat)
    requires Block(rows, s, a, part) && StopsAtFirst(rows, ran) && i < |part.pass|
    ensures a + |part.pass| <= |rows| && (ran[a + i] <==> i < Leading(ran[a..a + |part.pass|]))
  {
    hide Block;
    InBlock(rows, s, a, part);
    var mine := ran[a..a + |part.pass|];
    var f := Leading(mine);
    assert mine[i] == ran[a + i];
    if f <= i {
      assert !mine[f] && mine[f] == ran[a + f];
      assert (rows[a + f].lent, rows[a + f].token) == (s, part.pass[f]);
      assert (rows[a + i].lent, rows[a + i].token) == (s, part.pass[i]);
    }
  }

  /** Rows of other sequences added leave a block as it is. */
  lemma BlockStays(rows: seq<Row>, more: seq<Row>, s: nat, a: nat, part: Part)
    requires Block(rows, s, a, part) && forall r <- more :: r.lent != s
    ensures Block(rows + more, s, a, part)
  {
    assert (rows + more)[a..a + |part.pass|] == rows[a..a + |part.pass|];
  }

  lemma BlockNew(rows: seq<Row>, s: nat, part: Part)
    requires forall r <- rows :: r.lent != s
    ensures Block(rows + RowsOf(s, part), s, |rows|, part)
  {
    assert (rows + RowsOf(s, part))[|rows|..|rows| + |part.pass|] == RowsOf(s, part);
  }

  function RowsOf(s: nat, part: Part): seq<Row> {
    seq(|part.pass|, i requires 0 <= i < |part.pass| => part.RowAt(s, i))
  }

  method PushRows(rows: seq<Row>, s: nat, part: Part) returns (all: seq<Row>)
    ensures all == rows + RowsOf(s, part)
  {
    all := rows;
    var i := 0;
    while i < |part.pass|
      invariant i <= |part.pass| && all == rows + RowsOf(s, part)[..i]
    {
      all := all + [part.RowAt(s, i)];
      i := i + 1;
    }
  }

  lemma {:induction false} FedNone(rows: seq<Row>, ran: seq<bool>, s: nat, n: nat)
    requires n <= |rows| == |ran| && forall r <- rows :: r.lent != s
    ensures Fed(rows, ran, s, n) == []
  {
    if n > 0 {
      assert rows[n - 1] in rows;
      FedNone(rows, ran, s, n - 1);
    }
  }

  function Count(flags: seq<bool>): (n: nat)
    ensures n <= |flags|
  {
    if flags == [] then 0 else Count(flags[..|flags| - 1]) + (if flags[|flags| - 1] then 1 else 0)
  }

  function Sum(s: seq<nat>): nat {
    if s == [] then 0 else Sum(s[..|s| - 1]) + s[|s| - 1]
  }

  /** A sum with a part taken out, and sums of parts no larger. */
  lemma {:induction false} SumWithout(s: seq<nat>, i: nat)
    requires i < |s|
    ensures Sum(s[..i] + s[i + 1..]) == Sum(s) - s[i]
  {
    var n := |s| - 1;
    if i == n {
      assert s[..i] + s[i + 1..] == s[..n];
    } else {
      var rest := s[..i] + s[i + 1..];
      assert rest[..|rest| - 1] == s[..n][..i] + s[..n][i + 1..] && rest[|rest| - 1] == s[n];
      SumWithout(s[..n], i);
    }
  }

  lemma {:induction false} SumLess(a: seq<nat>, b: seq<nat>)
    requires |a| == |b| && forall i :: 0 <= i < |a| ==> a[i] <= b[i]
    ensures Sum(a) <= Sum(b)
    ensures (exists i :: 0 <= i < |a| && a[i] < b[i]) ==> Sum(a) < Sum(b)
  {
    if a != [] {
      var n := |a| - 1;
      SumLess(a[..n], b[..n]);
      assert forall i :: 0 <= i < n && a[i] < b[i] ==> a[..n][i] < b[..n][i];
    }
  }

  /** Different numbers below n are at most n. */
  lemma {:induction false} Pigeons(s: seq<nat>, n: nat)
    requires forall i :: 0 <= i < |s| ==> s[i] < n
    requires forall i, j :: 0 <= i < j < |s| ==> s[i] != s[j]
    ensures |s| <= n
  {
    if s != [] {
      assert s[0] < n;
      if exists i :: 0 <= i < |s| && s[i] == n - 1 {
        var i :| 0 <= i < |s| && s[i] == n - 1;
        Pigeons(s[..i] + s[i + 1..], n - 1);
      } else {
        Pigeons(s, n - 1);
      }
    }
  }
}
