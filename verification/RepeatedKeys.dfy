/**
 * A key that an object repeats: it is looked up as its first value and
 * written as its last, so an object read and one written and read again
 * answer alike exactly where the two are written alike.
 */
module RepeatedKeys {
  import opened Basics
  import opened JsonGrammar
  import opened JsonReader
  import opened JsonTree
  import opened JsonWriter
  import opened JsonRoundTrip
  import opened FloatRepr
  import opened ChatCall

  /** An object's last member with a key. */
  function LastWith(ms: seq<Member>, key: Bytes): Option<Tree> {
    if ms == [] then None
    else if ms[|ms| - 1].key == key then Some(ms[|ms| - 1].value) else LastWith(ms[..|ms| - 1], key)
  }

  lemma {:induction false} FirstOfReplaced(d: seq<Member>, m: Member, key: Bytes)
    ensures FirstWith(Replace(d, m), key) ==
        if m.key == key && FirstWith(d, key).Some? then Some(m.value) else FirstWith(d, key)
    ensures FirstWith(d, key).Some? <==> Has(d, key)
    decreases |d|
  {
    if d != [] {
      FirstOfReplaced(d[1..], m, key);
      assert Replace(d, m)[1..] == Replace(d[1..], m);
      assert Has(d, key) <==> d[0].key == key || Has(d[1..], key) by {
        assert forall k :: 1 <= k < |d| ==> d[k] == d[1..][k - 1];
      }
    }
  }

  lemma {:induction false} FirstOfAppended(d: seq<Member>, m: Member, key: Bytes)
    ensures FirstWith(d + [m], key) ==
        if FirstWith(d, key).Some? then FirstWith(d, key) else if m.key == key then Some(m.value) else None
    decreases |d|
  {
    if d == [] {
      assert d + [m] == [m];
    } else {
      assert (d + [m])[1..] == d[1..] + [m];
      FirstOfAppended(d[1..], m, key);
    }
  }

  /** What a dict holds for a key is what was last put there. */
  lemma {:induction false} DictHoldsTheLast(f: Floats, ms: seq<Member>, key: Bytes)
    requires Sound(f)
    ensures FirstWith(Dict(f, ms), key) ==
        match LastWith(ms, key) case None => None case Some(v) => Some(Norm(f, v))
    decreases |ms|
  {
    hide Norm;
    hide Sound;
    hide Replace;
    hide Has;
    if ms != [] {
      var m := NormMember(f, ms[|ms| - 1]);
      var d := Dict(f, ms[..|ms| - 1]);
      DictHoldsTheLast(f, ms[..|ms| - 1], key);
      FirstOfReplaced(d, m, key);
      FirstOfReplaced(d, m, m.key);
      FirstOfAppended(d, m, key);
    }
  }

  lemma {:induction false} FirstIffLast(ms: seq<Member>, key: Bytes)
    ensures FirstWith(ms, key).Some? <==> LastWith(ms, key).Some?
    decreases |ms|
  {
    if ms != [] {
      var most, m := ms[..|ms| - 1], ms[|ms| - 1];
      FirstIffLast(most, key);
      FirstOfAppended(most, m, key);
      assert ms == most + [m];
    }
  }

  /**
   * In what is written of an object a key has the last value it had. So what
   * it is looked up as is what is written exactly when its first value and
   * its last are written alike.
   */
  lemma LookedUpAsWritten(f: Floats, ms: seq<Member>, key: Bytes)
    requires Sound(f)
    ensures var t := Members(ms);
            var first, last := Get(t, key), LastWith(ms, key);
            && (first.Some? <==> last.Some?)
            && Get(Norm(f, t), key) == (if last.Some? then Some(Norm(f, last.value)) else None)
            && (first.Some? ==>
                  (Get(Norm(f, t), key) == Some(Norm(f, first.value)) <==>
                    Norm(f, first.value) == Norm(f, last.value)))
  {
    WrittenAsDict(f, ms);
    DictHoldsTheLast(f, ms, key);
    FirstIffLast(ms, key);
  }

  lemma DigitIsNumber(d: Byte)
    requires IsDigit(d) && d != ZERO
    ensures IsNumber([d])
  {
    var n := Number(false, Cons(d, Nil), Nil, NoExp);
    NumberReadBack(n, []);
    assert PutNumber(n, []) == [d];
  }

  function Numbered(key: Bytes, d: Byte): Member { Member(key, Numeral([d])) }

  lemma TwoAreRead(m1: Member, m2: Member)
    requires Clean(m1.value, false) && TreeLevels(m1.value) == 1
    requires Clean(m2.value, false) && TreeLevels(m2.value) == 1
    ensures ReadTree(Plain(Members([m1, m2]))) == Some(Members([m1, m2]))
  {
    hide Plain;
    hide ReadTree;
    assert [m1, m2][1..] == [m2] && [m2][1..] == [];
    assert CleanMember(m1, false) && CleanMember(m2, false);
    assert MembersLevels([]) == 0 && MembersLevels([m2]) == 1 && MembersLevels([m1, m2]) == 1;
    assert CleanMembers([], false) && CleanMembers([m2], false);
    ReadBack(Members([m1, m2]));
  }

  lemma TwoAreMerged(f: Floats, m1: Member, m2: Member)
    requires Sound(f) && m1.key == m2.key
    ensures Norm(f, Members([m1, m2])) == Members([NormMember(f, m2)])
  {
    hide Sound;
    hide NormMember;
    WrittenAsDict(f, [m1, m2]);
    KeptKey(f, m1);
    KeptKey(f, m2);
    var n1, n2 := NormMember(f, m1), NormMember(f, m2);
    assert [m1, m2][..1] == [m1] && [m1][..0] == [];
    assert DictPut([], n1) == [n1];
    assert Dict(f, [m1]) == [n1];
    assert [n1][0].key == n2.key;
    assert Replace([n1], n2) == [n2];
  }

  /** {"a": 1, "a": 2} is read; its a is looked up as 1, and written as 2. */
  lemma FirstReadLastWritten(f: Floats)
    requires Sound(f)
    ensures var a: Bytes := [0x61];
            var t := Members([Numbered(a, 0x31), Numbered(a, 0x32)]);
            && ReadTree(Plain(t)) == Some(t)
            && Get(t, a) == Some(Numeral([0x31]))
            && Norm(f, t) == Members([Numbered(a, 0x32)])
  {
    hide Plain;
    hide ReadTree;
    hide Sound;
    var a: Bytes := [0x61];
    var m1, m2 := Numbered(a, 0x31), Numbered(a, 0x32);
    DigitIsNumber(0x31);
    DigitIsNumber(0x32);
    TwoAreRead(m1, m2);
    TwoAreMerged(f, m1, m2);
  }
}
