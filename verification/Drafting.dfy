/**
 * Guessing a reply's next tokens from what it already says: what followed the
 * last place where its last three tokens, or its last two, stood before.
 */
module Drafting {
  import opened Basics
  import opened Solo

  /** The last n tokens of text also stand at i. */
  predicate Echo(text: seq<Token>, n: nat, i: nat) {
    i + n < |text| && text[i..i + n] == text[|text| - n..]
  }

  /** The latest place before the last n tokens where they stand, if any. */
  function LastEcho(text: seq<Token>, n: nat, limit: nat): (r: Option<nat>)
    ensures r.Some? ==> r.value < limit && Echo(text, n, r.value) && forall i :: r.value < i < limit ==>
        !Echo(text, n, i)
    ensures r.None? ==> forall i :: 0 <= i < limit ==> !Echo(text, n, i)
  {
    if limit == 0 then None
    else if Echo(text, n, limit - 1) then Some(limit - 1)
    else LastEcho(text, n, limit - 1)
  }

  /** What followed at i, up to k tokens. */
  function Following(text: seq<Token>, i: nat, k: nat): seq<Token>
    requires i <= |text|
  {
    text[i..Min(i + k, |text|)]
  }

  function Guess(text: seq<Token>, k: nat): seq<Token> {
    var three, two := LastEcho(text, 3, |text|), LastEcho(text, 2, |text|);
    if three.Some? then Following(text, three.value + 3, k)
    else if two.Some? then Following(text, two.value + 2, k)
    else []
  }

  /** The last place before the last n tokens where they stand, and what the text said next, up to k tokens. */
  ghost predicate SaidNext(text: seq<Token>, n: nat, k: nat, i: nat, next: seq<Token>) {
    && Echo(text, n, i) && (forall j: nat :: i < j < |text| ==> !Echo(text, n, j))
    && next == text[i + n..if i + n + k <= |text| then i + n + k else |text|]
  }

  /**
   * A guess is what the text said next the last time it said what it says
   * now: never longer than k, never empty when the last two tokens stood
   * anywhere before, and three tokens of context win over two.
   */
  lemma GuessIsAnEcho(text: seq<Token>, k: nat)
    requires k > 0
    ensures |Guess(text, k)| <= k
    ensures Guess(text, k) != [] <==> exists i :: 0 <= i < |text| && Echo(text, 2, i)
    ensures Guess(text, k) != [] ==> exists i: nat, n: nat ::
              2 <= n <= 3 && SaidNext(text, n, k, i, Guess(text, k))
              && (n == 2 ==> forall j :: 0 <= j < |text| ==> !Echo(text, 3, j))
  {
    var three, two := LastEcho(text, 3, |text|), LastEcho(text, 2, |text|);
    if three.Some? {
      ThreeAreTwo(text, three.value);
      assert SaidNext(text, 3, k, three.value, Guess(text, k));
    } else if two.Some? {
      assert SaidNext(text, 2, k, two.value, Guess(text, k));
    }
  }

  lemma ThreeAreTwo(text: seq<Token>, i: nat)
    requires Echo(text, 3, i)
    ensures Echo(text, 2, i + 1)
  {
    assert text[i + 1..i + 3] == text[i..i + 3][1..] == text[|text| - 3..][1..] == text[|text| - 2..];
  }

  lemma EchoAt(text: seq<Token>, n: nat, i: nat)
    requires i + n < |text|
    ensures Echo(text, n, i) <==> text[i..i + n] == text[|text| - n..]
  {
  }

  lemma NoneAfter(text: seq<Token>, n: nat)
    ensures forall i: nat :: i + n >= |text| ==> !Echo(text, n, i)
  {
  }

  /** The search for the last echo of n tokens, backwards, and a copy of what followed it. */
  method FollowLast(text: seq<Token>, n: nat, k: nat) returns (out: seq<Token>)
    requires k > 0 && n > 0
    ensures var echo := LastEcho(text, n, |text|);
            if echo.None? then out == [] else out != [] && out == Following(text, echo.value + n, k)
  {
    hide LastEcho;
    hide Echo;
    NoneAfter(text, n);
    if |text| <= n { return []; }
    var i := |text| - n;
    while i > 0
      invariant 0 <= i <= |text| - n
      invariant forall p: nat :: i <= p < |text| ==> !Echo(text, n, p)
    {
      i := i - 1;
      assert Echo(text, n, i) <==> text[i..i + n] == text[|text| - n..] by { EchoAt(text, n, i); }
      if text[i..i + n] == text[|text| - n..] {
        var got := 0;
        out := [];
        while got < k && i + n + got < |text|
          invariant 0 <= got <= k && i + n + got <= |text|
          invariant out == text[i + n..i + n + got]
        {
          out := out + [text[i + n + got]];
          got := got + 1;
        }
        return;
      }
    }
    return [];
  }

  /** A drafter: it guesses at most k tokens, and after guesses that were not taken it sits out a while. */
  datatype Drafter = Drafter(k: nat, skip: nat, backoff: nat) {
    predicate Valid() { backoff in {1, 2, 4, 8, 16} && skip <= 16 }
  }

  /** The tokens drafted after text, and the drafter after drafting them. */
  method Draft(d: Drafter, text: seq<Token>) returns (out: seq<Token>, next: Drafter)
    requires d.Valid()
    ensures next.Valid() && next == d.(skip := if d.k == 0 || d.skip == 0 then d.skip else d.skip - 1)
    ensures out == if d.k == 0 || d.skip > 0 then [] else Guess(text, d.k)
    ensures |out| <= d.k
  {
    next := d;
    if d.k == 0 { return [], d; }
    if d.skip > 0 { return [], d.(skip := d.skip - 1); }
    var n := 3;
    while n >= 2
      invariant 1 <= n <= 3
      invariant n < 3 ==> LastEcho(text, 3, |text|).None?
      invariant n < 2 ==> LastEcho(text, 2, |text|).None?
    {
      out := FollowLast(text, n, d.k);
      if out != [] { return; }
      n := n - 1;
    }
    return [], d;
  }

  /** Guesses of which none was taken double the wait, up to 16; any taken resets it. */
  function Heed(d: Drafter, taken: nat): (next: Drafter)
    requires d.Valid()
    ensures next.Valid() && next.k == d.k
    ensures taken == 0 ==> next.skip == d.backoff && d.backoff <= next.backoff <= 2 * d.backoff
    ensures taken > 0 ==> next.skip == d.skip && next.backoff == 1
  {
    if taken == 0 then d.(skip := d.backoff, backoff := if d.backoff < 16 then 2 * d.backoff else 16)
    else d.(backoff := 1)
  }

  /** The drafter after guesses that all failed, times over. */
  ghost function Waited(d: Drafter, times: nat): (w: Drafter)
    requires d.Valid()
    ensures w.Valid()
  {
    if times == 0 then d else Heed(Waited(d, times - 1), 0)
  }

  /** The waits after failures in a row: 1, 2, 4, 8, and 16 from then on, so drafting never stops for good. */
  lemma {:induction false} WaitsDouble(d: Drafter, times: nat)
    requires d.Valid() && d.backoff == 1
    ensures Waited(d, times).backoff == [1, 2, 4, 8, 16][Min(times, 4)]
    ensures times > 0 ==> Waited(d, times).skip == [1, 2, 4, 8, 16][Min(times - 1, 4)]
  {
    if times > 0 { WaitsDouble(d, times - 1); }
  }
}
