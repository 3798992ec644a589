/**
 * JSON mode's mask: the tokens that cannot continue the object lose their
 * logits. Masks are kept by the automaton's state, and a kept mask masks what
 * one found afresh would.
 */
module JsonMask {
  import opened Basics
  import opened JsonGrammar
  import opened JsonPrefix
  import opened JsonAccepts
  import opened JsonAgrees
  import opened JsonPrefixStruct

  const MASK_CACHE: nat := 32

  /** The vocabulary: each token's bytes, or none, and whether it is special. */
  datatype Vocab = Vocab(bytes: seq<Option<Bytes>>, special: seq<bool>)

  predicate WfVocab(v: Vocab) { |v.bytes| == |v.special| }

  /** Whether token id may follow in state p: ordinary text that does not fail the automaton. */
  predicate Allowed(v: Vocab, p: Pda, id: nat)
    requires WfVocab(v) && id < |v.bytes|
  {
    !v.special[id] && v.bytes[id].Some? && v.bytes[id].value != [] && Feed(p, v.bytes[id].value) != Failed
  }

  predicate IsMaskOf(v: Vocab, p: Pda, allowed: seq<bool>)
    requires WfVocab(v)
  {
    |allowed| == |v.bytes| && forall id :: 0 <= id < |allowed| ==> (allowed[id] <==> Allowed(v, p, id))
  }

  function Count(bits: seq<bool>): nat {
    if bits == [] then 0 else Count(bits[..|bits| - 1]) + if bits[|bits| - 1] then 1 else 0
  }

  lemma {:induction false} CountIsPositive(bits: seq<bool>)
    ensures Count(bits) > 0 <==> true in bits
    decreases |bits|
  {
    if bits != [] {
      var most := bits[..|bits| - 1];
      assert bits == most + [bits[|bits| - 1]];
      CountIsPositive(most);
    }
  }

  datatype Mask = Mask(key: Fields, allowed: seq<bool>, left: nat, used: nat)

  class MaskCache<F> {
    const vocab: Vocab
    const negInf: F
    var keep: bool                     // whether new masks are kept
    var masks: seq<Option<Mask>>
    var clock: nat

    constructor (vocab: Vocab, negInf: F, keep: bool)
      requires WfVocab(vocab)
      ensures Ok() && this.vocab == vocab && this.negInf == negInf
    {
      this.vocab := vocab;
      this.negInf := negInf;
      this.keep := keep;
      masks := seq(MASK_CACHE, _ => None);
      clock := 0;
    }

    /** Each kept mask is the mask of its own state. */
    ghost predicate Ok()
      reads this
    {
      && WfVocab(vocab)
      && |masks| == MASK_CACHE
      && forall i :: 0 <= i < MASK_CACHE && masks[i].Some? ==>
           var m := masks[i].value;
           Valid(m.key) && ClearedKey(m.key) == m.key && IsMaskOf(vocab, Abstract(m.key), m.allowed) &&
               m.left == Count(m.allowed)
    }

    /** The row with every token that may not follow in state p at minus infinity. */
    function Masked(row: seq<F>, p: Pda): (r: seq<F>)
      requires WfVocab(vocab) && |row| == |vocab.bytes|
      ensures |r| == |row|
    {
      seq(|row|, id requires 0 <= id < |row| => if Allowed(vocab, p, id) then row[id] else negInf)
    }

    /** The kept mask of a state, or the slot to fill: an empty one, else the one unused longest. */
    method Find(key: Fields) returns (hit: bool, at: nat)
      requires Ok()
      ensures at < MASK_CACHE
      ensures hit ==> masks[at].Some? && masks[at].value.key == key
      ensures !hit ==> forall i :: 0 <= i < MASK_CACHE && masks[i].Some? ==> masks[i].value.key != key
      ensures !hit && masks[at].Some? ==>
                forall i :: 0 <= i < MASK_CACHE ==> masks[i].Some? && masks[at].value.used <= masks[i].value.used
    {
      at := 0;
      for i := 0 to MASK_CACHE
        invariant at < MASK_CACHE && (i == 0 ==> at == 0) && (i > 0 ==> at < i)
        invariant forall k :: 0 <= k < i && masks[k].Some? ==> masks[k].value.key != key
        invariant i > 0 && masks[at].Some? ==>
                    forall k :: 0 <= k < i ==> masks[k].Some? && masks[at].value.used <= masks[k].value.used
      {
        var c := masks[i];
        if c.Some? && c.value.key == key { return true, i; }
        if masks[at].Some? && (c.None? || c.value.used < masks[at].value.used) { at := i; }
      }
      hit := false;
    }

    /** Whether one token may follow: its first byte looked up before the rest are tried. */
    method Try(state: Jsonpfx, first: seq<bool>, id: nat) returns (ok: bool)
      requires Ok() && state.Ok() && id < |vocab.bytes|
      requires |first| == 256 && forall b: Byte :: first[b] <==> Step(state.Abs(), b) != Failed
      ensures ok <==> Allowed(vocab, state.Abs(), id)
    {
      var b := vocab.bytes[id];
      if b.None? || b.value == [] || vocab.special[id] { return false; }
      if !first[b.value[0]] {
        FeedFailed(b.value[1..]);
        return false;
      }
      ok := state.Accepts(b.value);
    }

    /** The mask of a state, found afresh. */
    method FindMask(state: Jsonpfx) returns (allowed: seq<bool>, left: nat)
      requires Ok() && state.Ok()
      ensures IsMaskOf(vocab, state.Abs(), allowed) && left == Count(allowed)
    {
      var first := state.NextBytes();
      allowed, left := [], 0;
      for id := 0 to |vocab.bytes|
        invariant |allowed| == id && left == Count(allowed)
        invariant forall k :: 0 <= k < id ==> (allowed[k] <==> Allowed(vocab, state.Abs(), k))
      {
        var ok := Try(state, first, id);
        assert (allowed + [ok])[..id] == allowed;
        allowed := allowed + [ok];
        if ok { left := left + 1; }
      }
    }

    /** Mask a row with no mask kept. */
    method MaskDirectly(row: array<F>, state: Jsonpfx) returns (any: bool)
      requires Ok() && state.Ok() && row.Length == |vocab.bytes|
      modifies row
      ensures Ok() && row[..] == Masked(old(row[..]), state.Abs())
      ensures any <==> exists id :: 0 <= id < |vocab.bytes| && Allowed(vocab, state.Abs(), id)
    {
      var first := state.NextBytes();
      any := false;
      for id := 0 to row.Length
        invariant row[id..] == old(row[id..])
        invariant forall k :: 0 <= k < id ==> row[k] == if Allowed(vocab, state.Abs(), k) then old(row[k]) else negInf
        invariant any <==> exists k :: 0 <= k < id && Allowed(vocab, state.Abs(), k)
      {
        assert row[id..][0] == old(row[id..])[0];
        var ok := Try(state, first, id);
        if ok { any := true; } else { row[id] := negInf; }
        assert row[id + 1..] == old(row[id..])[1..];
      }
    }

    /** Keep a state's mask in slot at, found afresh. */
    method Fill(state: Jsonpfx, at: nat)
      requires Ok() && state.Ok() && at < MASK_CACHE
      modifies `masks
      ensures Ok() && masks[at].Some? && masks[at].value.key == ClearedKey(state.Now())
    {
      var allowed, left := FindMask(state);
      ClearedKeyMeansTheSame(state.Now());
      masks := masks[at := Some(Mask(ClearedKey(state.Now()), allowed, left, 0))];
    }

    /** Note that the mask in slot at served. */
    method Serve(at: nat) returns (m: Mask)
      requires Ok() && at < MASK_CACHE && masks[at].Some?
      modifies `masks, `clock
      ensures Ok() && m == old(masks[at].value).(used := clock) && masks[at] == Some(m)
    {
      clock := clock + 1;
      m := masks[at].value.(used := clock);
      masks := masks[at := Some(m)];
    }

    /** Mask a row by a mask. */
    method Apply(row: array<F>, allowed: seq<bool>, ghost p: Pda)
      requires WfVocab(vocab) && IsMaskOf(vocab, p, allowed) && row.Length == |vocab.bytes|
      modifies row
      ensures row[..] == Masked(old(row[..]), p)
    {
      for id := 0 to row.Length
        invariant row[id..] == old(row[id..])
        invariant forall k :: 0 <= k < id ==> row[k] == if Allowed(vocab, p, k) then old(row[k]) else negInf
      {
        assert row[id..][0] == old(row[id..])[0];
        if !allowed[id] { row[id] := negInf; }
        assert row[id + 1..] == old(row[id..])[1..];
      }
    }

    /**
     * Mask a row for a state. Whatever the history of states, hits and
     * replacements left in the cache, the row is the one masked directly.
     */
    method MaskJson(row: array<F>, state: Jsonpfx) returns (any: bool)
      requires Ok() && state.Ok() && row.Length == |vocab.bytes|
      modifies this, row
      ensures Ok() && row[..] == Masked(old(row[..]), old(state.Abs()))
      ensures any <==> exists id :: 0 <= id < |vocab.bytes| && Allowed(vocab, old(state.Abs()), id)
    {
      ghost var p := state.Abs();
      var key := ClearedKey(state.Now());
      ClearedKeyMeansTheSame(state.Now());
      var hit, at := Find(key);
      if !hit {
        if !keep {
          any := MaskDirectly(row, state);
          return;
        }
        Fill(state, at);
      }
      var m := Serve(at);
      Apply(row, m.allowed, p);
      any := m.left > 0;
      CountIsPositive(m.allowed);
      if any {
        var id :| 0 <= id < |m.allowed| && m.allowed[id];
        assert Allowed(vocab, p, id);
      }
    }
  }

  // ---- No state without a token ----

  /** The bytes the shortest way on from a state can begin with. */
  predicate Finishing(b: Byte) {
    b in [QUOTE, ZERO, OPEN_BRACE, CLOSE_BRACE, CLOSE_BRACKET, COLON] || 0x80 <= b <= 0xBF
    || b in [0x72, 0x75, 0x65, 0x61, 0x6C, 0x73]
  }

  /** Whether some ordinary token is this byte alone. */
  predicate HasByte(v: Vocab, b: Byte)
    requires WfVocab(v)
  {
    exists id :: 0 <= id < |v.bytes| && !v.special[id] && v.bytes[id] == Some([b])
  }

  /** A vocabulary with a token for each of those bytes. */
  ghost predicate CanFinish(v: Vocab)
    requires WfVocab(v)
  {
    forall b: Byte :: Finishing(b) ==> HasByte(v, b)
  }

  lemma TokenFinishes(p: Pda)
    requires PdaOk(p) && p.Pda? && !p.mode.Gap?
    ensures FinishToken(p.mode) != [] ==> Finishing(FinishToken(p.mode)[0])
    ensures FinishToken(p.mode) == [] ==> p.stack.Cons? && p.mode.InNumber?
  {
  }

  /** A state short of a whole object has a way on, and its first byte is one of those. */
  lemma FirstOfFinish(p: Pda)
    requires PdaOk(p) && p.Pda? && !Complete(p)
    ensures Finish(p) != [] && Finishing(Finish(p)[0]) && Step(p, Finish(p)[0]) != Failed
  {
    NoDeadEnd(p);
    hide PdaOk;
    hide Step;
    hide FinishToken;
    if p.mode.Gap? {
      GapFinishes(p);
    } else {
      TokenFinishes(p);
    }
    FirstDoesNotFail(p, Finish(p));
  }

  lemma GapFinishes(p: Pda)
    requires PdaOk(p) && p.Pda? && p.mode.Gap? && !Complete(p)
    ensures Finish(p) != [] && Finishing(Finish(p)[0])
  {
  }

  lemma FirstDoesNotFail(p: Pda, t: Bytes)
    requires t != [] && Ends(p, t)
    ensures Step(p, t[0]) != Failed
  {
    FeedFailed(t[1..]);
  }

  /** A vocabulary that has the first byte of the way on as a token is never left without one. */
  lemma SomeTokenLeft(v: Vocab, p: Pda) returns (id: nat)
    requires WfVocab(v) && PdaOk(p) && p.Pda? && !Complete(p)
    requires Finish(p) != [] ==> HasByte(v, Finish(p)[0])
    ensures id < |v.bytes| && Allowed(v, p, id)
  {
    hide PdaOk;
    hide Finish;
    FirstOfFinish(p);
    var b := Finish(p)[0];
    id :| 0 <= id < |v.bytes| && !v.special[id] && v.bytes[id] == Some([b]);
    assert [b][1..] == [];
    assert Feed(p, [b]) == Feed(Step(p, b), []);
  }

  // ---- A masked reply ----

  function BytesOf(v: Vocab, id: nat): Bytes {
    if id < |v.bytes| && v.bytes[id].Some? then v.bytes[id].value else []
  }

  /** What tokens say. */
  function Said(v: Vocab, ids: seq<nat>): Bytes {
    if ids == [] then [] else Said(v, ids[..|ids| - 1]) + BytesOf(v, ids[|ids| - 1])
  }

  /** A reply each of whose tokens was allowed where it was taken. */
  ghost predicate MaskedReply(v: Vocab, ids: seq<nat>)
    requires WfVocab(v)
  {
    forall i :: 0 <= i < |ids| ==> ids[i] < |v.bytes| && Allowed(v, Feed(INITIAL, Said(v, ids[..i])), ids[i])
  }

  lemma OneMoreToken(v: Vocab, ids: seq<nat>, id: nat)
    requires WfVocab(v) && MaskedReply(v, ids)
    requires id < |v.bytes| && Allowed(v, Feed(INITIAL, Said(v, ids)), id)
    ensures MaskedReply(v, ids + [id]) && Said(v, ids + [id]) == Said(v, ids) + BytesOf(v, id)
    ensures Feed(INITIAL, Said(v, ids + [id])) == Feed(Feed(INITIAL, Said(v, ids)), BytesOf(v, id))
  {
    hide Allowed;
    hide Feed;
    var more := ids + [id];
    assert more[..|ids|] == ids;
    assert Said(v, more) == Said(v, ids) + BytesOf(v, id);
    forall i | 0 <= i < |more|
      ensures more[i] < |v.bytes| && Allowed(v, Feed(INITIAL, Said(v, more[..i])), more[i])
    {
      if i < |ids| { assert more[..i] == ids[..i]; }
    }
    FeedConcat(INITIAL, Said(v, ids), BytesOf(v, id));
  }

  lemma {:induction false} MaskedReplyNeverFails(v: Vocab, ids: seq<nat>)
    requires WfVocab(v) && MaskedReply(v, ids)
    ensures Feed(INITIAL, Said(v, ids)) != Failed
  {
    if ids != [] {
      var n := |ids| - 1;
      assert Allowed(v, Feed(INITIAL, Said(v, ids[..n])), ids[n]);
      FeedConcat(INITIAL, Said(v, ids[..n]), BytesOf(v, ids[n]));
    }
  }

  /**
   * A masked reply, even cut short at any byte, is the start of an object, and one the automaton
   * calls complete is an object.
   */
  lemma MaskedReplyIsViable(v: Vocab, ids: seq<nat>, cut: nat)
    requires WfVocab(v) && MaskedReply(v, ids) && cut <= |Said(v, ids)|
    ensures exists e: Bytes, d: Doc :: Derives(d) && PutDoc(d) == Said(v, ids)[..cut] + e
    ensures Complete(Feed(INITIAL, Said(v, ids))) ==> exists d: Doc :: Derives(d) && PutDoc(d) == Said(v, ids)
  {
    var t := Said(v, ids);
    MaskedReplyNeverFails(v, ids);
    CutIsViable(t, cut);
    CompleteIffDerived(t);
  }

  lemma CutIsViable(t: Bytes, cut: nat)
    requires Feed(INITIAL, t) != Failed && cut <= |t|
    ensures exists e: Bytes, d: Doc :: Derives(d) && PutDoc(d) == t[..cut] + e
  {
    hide Feed;
    assert t == t[..cut] + t[cut..];
    FeedConcat(INITIAL, t[..cut], t[cut..]);
    FeedFailed(t[cut..]);
    AcceptedIffViable(t[..cut]);
  }

  // ---- A reply taken in JSON mode ----

  /** A way to choose that never chooses an entry at minus infinity while there is another. */
  ghost predicate Chooses<F(!new)>(pick: seq<F> -> nat, negInf: F) {
    forall row: seq<F> ::
      (exists id :: 0 <= id < |row| && row[id] != negInf) ==> pick(row) < |row| && row[pick(row)] != negInf
  }

  /** What is chosen from a row: a token; or none, the mask having left none, or only the one never to be taken. */
  datatype Choice = Chosen(id: nat) | NoneLeft | Stray

  /** One token from a row, masked for a state. */
  method TakeMasked<F(==, !new)>(c: MaskCache<F>, scores: seq<F>, ban: Option<nat>, pick: seq<F> -> nat, state: Jsonpfx)
    returns (choice: Choice)
    requires c.Ok() && state.Ok() && Chooses(pick, c.negInf) && (ban.Some? ==> ban.value < |c.vocab.bytes|)
    requires |scores| == |c.vocab.bytes| && c.negInf !in scores && PdaOk(state.Abs()) && state.Abs().Pda?
    modifies c
    ensures c.Ok() && IsChoice(c.vocab, state.Abs(), ban, choice)
  {
    hide Allowed;
    hide PdaOk;
    ghost var p := state.Abs();
    var row := new F[|scores|](i requires 0 <= i < |scores| => scores[i]);
    assert row[..] == scores;
    var any := c.MaskJson(row, state);
    if !any { return NoneLeft; }
    if ban.Some? { row[ban.value] := c.negInf; }
    LeftWasAllowed(c, scores, p, ban, row[..]);
    var id := pick(row[..]);
    choice := if id < row.Length && row[id] != c.negInf then Chosen(id) else Stray;
  }

  /** What each choice says of the tokens allowed. */
  ghost predicate IsChoice(v: Vocab, p: Pda, ban: Option<nat>, choice: Choice)
    requires WfVocab(v)
  {
    match choice
    case Chosen(id) => id < |v.bytes| && Allowed(v, p, id) && Some(id) != ban
    case NoneLeft => forall id :: 0 <= id < |v.bytes| ==> !Allowed(v, p, id)
    case Stray => ban.Some? && forall id :: 0 <= id < |v.bytes| && id != ban.value ==> !Allowed(v, p, id)
  }

  /** A vocabulary that can finish every state has a token left in each short of a whole object. */
  lemma ChoiceLeft(v: Vocab, p: Pda, ban: Option<nat>)
    requires WfVocab(v) && CanFinish(v) && PdaOk(p) && p.Pda? && !Complete(p)
    ensures !IsChoice(v, p, ban, NoneLeft)
  {
    FirstOfFinish(p);
    var id := SomeTokenLeft(v, p);
  }

  /**
   * Tokens taken from masked rows until the object closes or the rows run
   * out, one token never to be taken (ban) among them. Each was allowed where
   * it was taken; a row with nothing to choose is one the mask left no token
   * in, or none but the banned one; and a vocabulary that can finish every
   * state never ends a reply early.
   */
  method TakeReply<F(==, !new)>(c: MaskCache<F>, rows: seq<seq<F>>, ban: Option<nat>, pick: seq<F> -> nat)
    returns (ids: seq<nat>, whole: bool, stray: bool)
    requires c.Ok() && Chooses(pick, c.negInf) && (ban.Some? ==> ban.value < |c.vocab.bytes|)
    requires forall k :: 0 <= k < |rows| ==> |rows[k]| == |c.vocab.bytes| && c.negInf !in rows[k]
    modifies c
    ensures c.Ok() && MaskedReply(c.vocab, ids) && |ids| <= |rows|
    ensures whole <==> Complete(Feed(INITIAL, Said(c.vocab, ids)))
    ensures stray ==> ban.Some? && forall id :: 0 <= id < |c.vocab.bytes| && id != ban.value ==>
                                                  !Allowed(c.vocab, Feed(INITIAL, Said(c.vocab, ids)), id)
    ensures !whole && !stray && |ids| < |rows| ==>
              forall id :: 0 <= id < |c.vocab.bytes| ==> !Allowed(c.vocab, Feed(INITIAL, Said(c.vocab, ids)), id)
    ensures CanFinish(c.vocab) && !stray ==> whole || |ids| == |rows|
  {
    hide Allowed;
    hide MaskedReply;
    hide CanFinish;
    hide PdaOk;
    hide Feed;
    hide Said;
    var state := new Jsonpfx.Init();
    ids, whole, stray := [], false, false;
    NothingSaid(c.vocab);
    for k := 0 to |rows|
      invariant c.Ok() && state.Ok() && !whole && !stray && |ids| == k && fresh(state)
      invariant MaskedReply(c.vocab, ids) && state.Abs() == Feed(INITIAL, Said(c.vocab, ids))
      invariant !Complete(state.Abs())
    {
      MaskedStateOk(c.vocab, ids);
      var choice := TakeMasked(c, rows[k], ban, pick, state);
      if !choice.Chosen? {
        stray := choice.Stray?;
        if CanFinish(c.vocab) { ChoiceLeft(c.vocab, state.Abs(), ban); }
        return;
      }
      OneMoreToken(c.vocab, ids, choice.id);
      ids := ids + [choice.id];
      var fed := state.FeedBytes(BytesOf(c.vocab, choice.id));
      whole := state.IsComplete();
      if whole { return; }
    }
  }

  lemma MaskedStateOk(v: Vocab, ids: seq<nat>)
    requires WfVocab(v) && MaskedReply(v, ids)
    ensures var p := Feed(INITIAL, Said(v, ids)); PdaOk(p) && p.Pda?
  {
    hide PdaOk;
    hide Feed;
    MaskedReplyNeverFails(v, ids);
    InitialOk();
    FeedKeepsOk(INITIAL, Said(v, ids));
  }

  lemma InitialOk()
    ensures PdaOk(INITIAL)
  {
  }

  lemma NothingSaid(v: Vocab)
    requires WfVocab(v)
    ensures MaskedReply(v, []) && Said(v, []) == [] && Feed(INITIAL, []) == INITIAL && !Complete(INITIAL)
  {
  }

  /** What a mask and a ban left of a row: every entry is an allowed token's. */
  lemma LeftWasAllowed<F(!new)>(c: MaskCache<F>, scores: seq<F>, p: Pda, ban: Option<nat>, row: seq<F>)
    requires WfVocab(c.vocab) && |scores| == |c.vocab.bytes| && c.negInf !in scores
    requires ban.Some? ==> ban.value < |scores|
    requires row == if ban.Some? then c.Masked(scores, p)[ban.value := c.negInf] else c.Masked(scores, p)
    ensures forall id :: 0 <= id < |row| ==>
        (row[id] != c.negInf <==> Allowed(c.vocab, p, id) && Some(id) != ban)
  {
    hide Allowed;
    forall id | 0 <= id < |row| ensures row[id] != c.negInf <==> Allowed(c.vocab, p, id) && Some(id) != ban {
      assert scores[id] in scores;
    }
  }
}
