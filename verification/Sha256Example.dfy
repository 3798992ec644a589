/**
 * The one-block example that FIPS 180-4's examples and the repository's own
 * test give: the digest of "abc", computed through every word of the schedule
 * and every round.
 */
module Sha256Example {
  import opened Sha256Spec

  const ABC: seq<Octet> := [0x61, 0x62, 0x63]

  const ABC_DIGEST: seq<Octet> := [
    0xba, 0x78, 0x16, 0xbf, 0x8f, 0x01, 0xcf, 0xea,
    0x41, 0x41, 0x40, 0xde, 0x5d, 0xae, 0x22, 0x23,
    0xb0, 0x03, 0x61, 0xa3, 0x96, 0x17, 0x7a, 0x9c,
    0xb4, 0x10, 0xff, 0x61, 0xf2, 0x00, 0x15, 0xad]

  // ---- The message schedule ----

  /** Eight words of the schedule, from the t-th on. */
  predicate Words(b: seq<Octet>, t: nat, w0: Word, w1: Word, w2: Word, w3: Word, w4: Word, w5: Word, w6: Word, w7: Word)
    requires |b| == BLOCK && t + 8 <= 64
  {
    && W(b, t) == w0 && W(b, t + 1) == w1 && W(b, t + 2) == w2 && W(b, t + 3) == w3
    && W(b, t + 4) == w4 && W(b, t + 5) == w5 && W(b, t + 6) == w6 && W(b, t + 7) == w7
  }

  lemma Next(b: seq<Octet>, t: nat, w: Word)
    requires |b| == BLOCK && 16 <= t < 64
    requires Add(Add(Add(SmallSigma1(W(b, t - 2)), W(b, t - 7)), SmallSigma0(W(b, t - 15))), W(b, t - 16)) == w
    ensures W(b, t) == w
  {
    hide Add;
    hide SmallSigma0;
    hide SmallSigma1;
  }

  lemma WordsFrom16(b: seq<Octet>)
    requires |b| == BLOCK
    requires Words(b, 0, 0x61626380, 0x00000000, 0x00000000, 0x00000000,
                       0x00000000, 0x00000000, 0x00000000, 0x00000000)
    requires Words(b, 8, 0x00000000, 0x00000000, 0x00000000, 0x00000000,
                       0x00000000, 0x00000000, 0x00000000, 0x00000018)
    ensures Words(b, 16, 0x61626380, 0x000f0000, 0x7da86405, 0x600003c6,
                      0x3e9d7b78, 0x0183fc00, 0x12dcbfdb, 0xe2e2c38e)
  {
    hide W;
    Next(b, 16, 0x61626380);
    Next(b, 17, 0x000f0000);
    Next(b, 18, 0x7da86405);
    Next(b, 19, 0x600003c6);
    Next(b, 20, 0x3e9d7b78);
    Next(b, 21, 0x0183fc00);
    Next(b, 22, 0x12dcbfdb);
    Next(b, 23, 0xe2e2c38e);
  }

  lemma WordsFrom24(b: seq<Octet>)
    requires |b| == BLOCK
    requires Words(b, 8, 0x00000000, 0x00000000, 0x00000000, 0x00000000,
                       0x00000000, 0x00000000, 0x00000000, 0x00000018)
    requires Words(b, 16, 0x61626380, 0x000f0000, 0x7da86405, 0x600003c6,
                       0x3e9d7b78, 0x0183fc00, 0x12dcbfdb, 0xe2e2c38e)
    ensures Words(b, 24, 0xc8215c1a, 0xb73679a2, 0xe5bc3909, 0x32663c5b,
                      0x9d209d67, 0xec8726cb, 0x702138a4, 0xd3b7973b)
  {
    hide W;
    Next(b, 24, 0xc8215c1a);
    Next(b, 25, 0xb73679a2);
    Next(b, 26, 0xe5bc3909);
    Next(b, 27, 0x32663c5b);
    Next(b, 28, 0x9d209d67);
    Next(b, 29, 0xec8726cb);
    Next(b, 30, 0x702138a4);
    Next(b, 31, 0xd3b7973b);
  }

  lemma WordsFrom32(b: seq<Octet>)
    requires |b| == BLOCK
    requires Words(b, 16, 0x61626380, 0x000f0000, 0x7da86405, 0x600003c6,
                       0x3e9d7b78, 0x0183fc00, 0x12dcbfdb, 0xe2e2c38e)
    requires Words(b, 24, 0xc8215c1a, 0xb73679a2, 0xe5bc3909, 0x32663c5b,
                       0x9d209d67, 0xec8726cb, 0x702138a4, 0xd3b7973b)
    ensures Words(b, 32, 0x93f5997f, 0x3b68ba73, 0xaff4ffc1, 0xf10a5c62,
                      0x0a8b3996, 0x72af830a, 0x9409e33e, 0x24641522)
  {
    hide W;
    Next(b, 32, 0x93f5997f);
    Next(b, 33, 0x3b68ba73);
    Next(b, 34, 0xaff4ffc1);
    Next(b, 35, 0xf10a5c62);
    Next(b, 36, 0x0a8b3996);
    Next(b, 37, 0x72af830a);
    Next(b, 38, 0x9409e33e);
    Next(b, 39, 0x24641522);
  }

  lemma WordsFrom40(b: seq<Octet>)
    requires |b| == BLOCK
    requires Words(b, 24, 0xc8215c1a, 0xb73679a2, 0xe5bc3909, 0x32663c5b,
                       0x9d209d67, 0xec8726cb, 0x702138a4, 0xd3b7973b)
    requires Words(b, 32, 0x93f5997f, 0x3b68ba73, 0xaff4ffc1, 0xf10a5c62,
                       0x0a8b3996, 0x72af830a, 0x9409e33e, 0x24641522)
    ensures Words(b, 40, 0x9f47bf94, 0xf0a64f5a, 0x3e246a79, 0x27333ba3,
                      0x0c4763f2, 0x840abf27, 0x7a290d5d, 0x065c43da)
  {
    hide W;
    Next(b, 40, 0x9f47bf94);
    Next(b, 41, 0xf0a64f5a);
    Next(b, 42, 0x3e246a79);
    Next(b, 43, 0x27333ba3);
    Next(b, 44, 0x0c4763f2);
    Next(b, 45, 0x840abf27);
    Next(b, 46, 0x7a290d5d);
    Next(b, 47, 0x065c43da);
  }

  lemma WordsFrom48(b: seq<Octet>)
    requires |b| == BLOCK
    requires Words(b, 32, 0x93f5997f, 0x3b68ba73, 0xaff4ffc1, 0xf10a5c62,
                       0x0a8b3996, 0x72af830a, 0x9409e33e, 0x24641522)
    requires Words(b, 40, 0x9f47bf94, 0xf0a64f5a, 0x3e246a79, 0x27333ba3,
                       0x0c4763f2, 0x840abf27, 0x7a290d5d, 0x065c43da)
    ensures Words(b, 48, 0xfb3e89cb, 0xcc7617db, 0xb9e66c34, 0xa9993667,
                      0x84badedd, 0xc21462bc, 0x1487472c, 0xb20f7a99)
  {
    hide W;
    Next(b, 48, 0xfb3e89cb);
    Next(b, 49, 0xcc7617db);
    Next(b, 50, 0xb9e66c34);
    Next(b, 51, 0xa9993667);
    Next(b, 52, 0x84badedd);
    Next(b, 53, 0xc21462bc);
    Next(b, 54, 0x1487472c);
    Next(b, 55, 0xb20f7a99);
  }

  lemma WordsFrom56(b: seq<Octet>)
    requires |b| == BLOCK
    requires Words(b, 40, 0x9f47bf94, 0xf0a64f5a, 0x3e246a79, 0x27333ba3,
                       0x0c4763f2, 0x840abf27, 0x7a290d5d, 0x065c43da)
    requires Words(b, 48, 0xfb3e89cb, 0xcc7617db, 0xb9e66c34, 0xa9993667,
                       0x84badedd, 0xc21462bc, 0x1487472c, 0xb20f7a99)
    ensures Words(b, 56, 0xef57b9cd, 0xebe6b238, 0x9fe3095e, 0x78bc8d4b,
                      0xa43fcf15, 0x668b2ff8, 0xeeaba2cc, 0x12b1edeb)
  {
    hide W;
    Next(b, 56, 0xef57b9cd);
    Next(b, 57, 0xebe6b238);
    Next(b, 58, 0x9fe3095e);
    Next(b, 59, 0x78bc8d4b);
    Next(b, 60, 0xa43fcf15);
    Next(b, 61, 0x668b2ff8);
    Next(b, 62, 0xeeaba2cc);
    Next(b, 63, 0x12b1edeb);
  }

  // ---- The rounds ----

  lemma WordBack(w: Word)
    ensures (w as nat) as Word == w
  {
  }

  /** One round of the block: what it makes of the hash value so far. */
  lemma Step(v: Hash, b: seq<Octet>, t: nat, s: Hash, k: Word, a: Word, e: Word) returns (r: Hash)
    requires |b| == BLOCK && t < 64 && Rounds(v, b, t) == s && ROUND_CONSTANTS[t / 8][t % 8] == k as nat
    requires Round(s, k, W(b, t)) == Hash(a, s.a, s.b, s.c, e, s.e, s.f, s.g)
    ensures Rounds(v, b, t + 1) == r == Hash(a, s.a, s.b, s.c, e, s.e, s.f, s.g)
  {
    hide W;
    hide Round;
    WordBack(k);
    r := Hash(a, s.a, s.b, s.c, e, s.e, s.f, s.g);
  }

  lemma RoundsFrom0(v: Hash, b: seq<Octet>)
    requires |b| == BLOCK && W(b, 0) == 0x61626380 && W(b, 1) == 0x00000000
    requires W(b, 2) == 0x00000000 && W(b, 3) == 0x00000000
    requires Rounds(v, b, 0) == Hash(0x6a09e667, 0xbb67ae85, 0x3c6ef372, 0xa54ff53a,
                                     0x510e527f, 0x9b05688c, 0x1f83d9ab, 0x5be0cd19)
    ensures Rounds(v, b, 4) == Hash(0xd550f666, 0xc8c347a7, 0x5a6ad9ad, 0x5d6aebcd,
                                    0x24e00850, 0xf92939eb, 0x78ce7989, 0xfa2a4622)
  {
    hide Rounds;
    hide W;
    var s := Rounds(v, b, 0);
    s := Step(v, b, 0, s, 0x428a2f98, 0x5d6aebcd, 0xfa2a4622);
    s := Step(v, b, 1, s, 0x71374491, 0x5a6ad9ad, 0x78ce7989);
    s := Step(v, b, 2, s, 0xb5c0fbcf, 0xc8c347a7, 0xf92939eb);
    s := Step(v, b, 3, s, 0xe9b5dba5, 0xd550f666, 0x24e00850);
  }

  lemma RoundsFrom4(v: Hash, b: seq<Octet>)
    requires |b| == BLOCK && W(b, 4) == 0x00000000 && W(b, 5) == 0x00000000
    requires W(b, 6) == 0x00000000 && W(b, 7) == 0x00000000
    requires Rounds(v, b, 4) == Hash(0xd550f666, 0xc8c347a7, 0x5a6ad9ad, 0x5d6aebcd,
                                     0x24e00850, 0xf92939eb, 0x78ce7989, 0xfa2a4622)
    ensures Rounds(v, b, 8) == Hash(0x85a07b5f, 0xe5030380, 0x2b4209f5, 0x04409a6a,
                                    0x0c657a79, 0x9b27a401, 0x714260ad, 0x43ada245)
  {
    hide Rounds;
    hide W;
    var s := Rounds(v, b, 4);
    s := Step(v, b, 4, s, 0x3956c25b, 0x04409a6a, 0x43ada245);
    s := Step(v, b, 5, s, 0x59f111f1, 0x2b4209f5, 0x714260ad);
    s := Step(v, b, 6, s, 0x923f82a4, 0xe5030380, 0x9b27a401);
    s := Step(v, b, 7, s, 0xab1c5ed5, 0x85a07b5f, 0x0c657a79);
  }

  lemma RoundsFrom8(v: Hash, b: seq<Octet>)
    requires |b| == BLOCK && W(b, 8) == 0x00000000 && W(b, 9) == 0x00000000
    requires W(b, 10) == 0x00000000 && W(b, 11) == 0x00000000
    requires Rounds(v, b, 8) == Hash(0x85a07b5f, 0xe5030380, 0x2b4209f5, 0x04409a6a,
                                     0x0c657a79, 0x9b27a401, 0x714260ad, 0x43ada245)
    ensures Rounds(v, b, 12) == Hash(0xf71fc5a9, 0x4798a3f4, 0x8c87346b, 0x8e04ecb9,
                                     0x816fd6e9, 0x436b23e8, 0x1cc92596, 0x32ca2d8c)
  {
    hide Rounds;
    hide W;
    var s := Rounds(v, b, 8);
    s := Step(v, b, 8, s, 0xd807aa98, 0x8e04ecb9, 0x32ca2d8c);
    s := Step(v, b, 9, s, 0x12835b01, 0x8c87346b, 0x1cc92596);
    s := Step(v, b, 10, s, 0x243185be, 0x4798a3f4, 0x436b23e8);
    s := Step(v, b, 11, s, 0x550c7dc3, 0xf71fc5a9, 0x816fd6e9);
  }

  lemma RoundsFrom12(v: Hash, b: seq<Octet>)
    requires |b| == BLOCK && W(b, 12) == 0x00000000 && W(b, 13) == 0x00000000
    requires W(b, 14) == 0x00000000 && W(b, 15) == 0x00000018
    requires Rounds(v, b, 12) == Hash(0xf71fc5a9, 0x4798a3f4, 0x8c87346b, 0x8e04ecb9,
                                      0x816fd6e9, 0x436b23e8, 0x1cc92596, 0x32ca2d8c)
    ensures Rounds(v, b, 16) == Hash(0xb0fa238e, 0xc0645fde, 0xd932eb16, 0x87912990,
                                     0x07590dcd, 0x0b92f20c, 0x745a48de, 0x1e578218)
  {
    hide Rounds;
    hide W;
    var s := Rounds(v, b, 12);
    s := Step(v, b, 12, s, 0x72be5d74, 0x87912990, 0x1e578218);
    s := Step(v, b, 13, s, 0x80deb1fe, 0xd932eb16, 0x745a48de);
    s := Step(v, b, 14, s, 0x9bdc06a7, 0xc0645fde, 0x0b92f20c);
    s := Step(v, b, 15, s, 0xc19bf174, 0xb0fa238e, 0x07590dcd);
  }

  lemma RoundsFrom16(v: Hash, b: seq<Octet>)
    requires |b| == BLOCK && W(b, 16) == 0x61626380 && W(b, 17) == 0x000f0000
    requires W(b, 18) == 0x7da86405 && W(b, 19) == 0x600003c6
    requires Rounds(v, b, 16) == Hash(0xb0fa238e, 0xc0645fde, 0xd932eb16, 0x87912990,
                                      0x07590dcd, 0x0b92f20c, 0x745a48de, 0x1e578218)
    ensures Rounds(v, b, 20) == Hash(0xe1f20c33, 0xfe777bbf, 0xc2fbd9d1, 0x21da9a9b,
                                     0xb0638179, 0xcc899961, 0x846ee454, 0x8034229c)
  {
    hide Rounds;
    hide W;
    var s := Rounds(v, b, 16);
    s := Step(v, b, 16, s, 0xe49b69c1, 0x21da9a9b, 0x8034229c);
    s := Step(v, b, 17, s, 0xefbe4786, 0xc2fbd9d1, 0x846ee454);
    s := Step(v, b, 18, s, 0x0fc19dc6, 0xfe777bbf, 0xcc899961);
    s := Step(v, b, 19, s, 0x240ca1cc, 0xe1f20c33, 0xb0638179);
  }

  lemma RoundsFrom20(v: Hash, b: seq<Octet>)
    requires |b| == BLOCK && W(b, 20) == 0x3e9d7b78 && W(b, 21) == 0x0183fc00
    requires W(b, 22) == 0x12dcbfdb && W(b, 23) == 0xe2e2c38e
    requires Rounds(v, b, 20) == Hash(0xe1f20c33, 0xfe777bbf, 0xc2fbd9d1, 0x21da9a9b,
                                      0xb0638179, 0xcc899961, 0x846ee454, 0x8034229c)
    ensures Rounds(v, b, 24) == Hash(0xc5d53d8d, 0xa7a3623f, 0xc2606d6d, 0x9dc68b63,
                                     0xaa47c347, 0x49f5114a, 0xe1257970, 0x8ada8930)
  {
    hide Rounds;
    hide W;
    var s := Rounds(v, b, 20);
    s := Step(v, b, 20, s, 0x2de92c6f, 0x9dc68b63, 0x8ada8930);
    s := Step(v, b, 21, s, 0x4a7484aa, 0xc2606d6d, 0xe1257970);
    s := Step(v, b, 22, s, 0x5cb0a9dc, 0xa7a3623f, 0x49f5114a);
    s := Step(v, b, 23, s, 0x76f988da, 0xc5d53d8d, 0xaa47c347);
  }

  lemma RoundsFrom24(v: Hash, b: seq<Octet>)
    requires |b| == BLOCK && W(b, 24) == 0xc8215c1a && W(b, 25) == 0xb73679a2
    requires W(b, 26) == 0xe5bc3909 && W(b, 27) == 0x32663c5b
    requires Rounds(v, b, 24) == Hash(0xc5d53d8d, 0xa7a3623f, 0xc2606d6d, 0x9dc68b63,
                                      0xaa47c347, 0x49f5114a, 0xe1257970, 0x8ada8930)
    ensures Rounds(v, b, 28) == Hash(0x77d37528, 0xb62ec4bc, 0xcde8037d, 0x1c2c2838,
                                     0xedffbff8, 0xc74c6516, 0x14383d8e, 0x2823ef91)
  {
    hide Rounds;
    hide W;
    var s := Rounds(v, b, 24);
    s := Step(v, b, 24, s, 0x983e5152, 0x1c2c2838, 0x2823ef91);
    s := Step(v, b, 25, s, 0xa831c66d, 0xcde8037d, 0x14383d8e);
    s := Step(v, b, 26, s, 0xb00327c8, 0xb62ec4bc, 0xc74c6516);
    s := Step(v, b, 27, s, 0xbf597fc7, 0x77d37528, 0xedffbff8);
  }

  lemma RoundsFrom28(v: Hash, b: seq<Octet>)
    requires |b| == BLOCK && W(b, 28) == 0x9d209d67 && W(b, 29) == 0xec8726cb
    requires W(b, 30) == 0x702138a4 && W(b, 31) == 0xd3b7973b
    requires Rounds(v, b, 28) == Hash(0x77d37528, 0xb62ec4bc, 0xcde8037d, 0x1c2c2838,
                                      0xedffbff8, 0xc74c6516, 0x14383d8e, 0x2823ef91)
    ensures Rounds(v, b, 32) == Hash(0x73b33bf5, 0xea992a22, 0xa0060b30, 0x363482c9,
                                     0xba591112, 0x0109ab3a, 0xade79437, 0x6112a3b7)
  {
    hide Rounds;
    hide W;
    var s := Rounds(v, b, 28);
    s := Step(v, b, 28, s, 0xc6e00bf3, 0x363482c9, 0x6112a3b7);
    s := Step(v, b, 29, s, 0xd5a79147, 0xa0060b30, 0xade79437);
    s := Step(v, b, 30, s, 0x06ca6351, 0xea992a22, 0x0109ab3a);
    s := Step(v, b, 31, s, 0x14292967, 0x73b33bf5, 0xba591112);
  }

  lemma RoundsFrom32(v: Hash, b: seq<Octet>)
    requires |b| == BLOCK && W(b, 32) == 0x93f5997f && W(b, 33) == 0x3b68ba73
    requires W(b, 34) == 0xaff4ffc1 && W(b, 35) == 0xf10a5c62
    requires Rounds(v, b, 32) == Hash(0x73b33bf5, 0xea992a22, 0xa0060b30, 0x363482c9,
                                      0xba591112, 0x0109ab3a, 0xade79437, 0x6112a3b7)
    ensures Rounds(v, b, 36) == Hash(0x65a0cfe4, 0xa9a7738c, 0xfe604df5, 0x98e12507,
                                     0xf4b002d6, 0x085f3833, 0x59249dd3, 0x9cd9f5f6)
  {
    hide Rounds;
    hide W;
    var s := Rounds(v, b, 32);
    s := Step(v, b, 32, s, 0x27b70a85, 0x98e12507, 0x9cd9f5f6);
    s := Step(v, b, 33, s, 0x2e1b2138, 0xfe604df5, 0x59249dd3);
    s := Step(v, b, 34, s, 0x4d2c6dfc, 0xa9a7738c, 0x085f3833);
    s := Step(v, b, 35, s, 0x53380d13, 0x65a0cfe4, 0xf4b002d6);
  }

  lemma RoundsFrom36(v: Hash, b: seq<Octet>)
    requires |b| == BLOCK && W(b, 36) == 0x0a8b3996 && W(b, 37) == 0x72af830a
    requires W(b, 38) == 0x9409e33e && W(b, 39) == 0x24641522
    requires Rounds(v, b, 36) == Hash(0x65a0cfe4, 0xa9a7738c, 0xfe604df5, 0x98e12507,
                                      0xf4b002d6, 0x085f3833, 0x59249dd3, 0x9cd9f5f6)
    ensures Rounds(v, b, 40) == Hash(0x79ea687a, 0x6dc57a8a, 0x34df1604, 0x41a65cb1,
                                     0x1efbc0a0, 0xf0781bc8, 0xa507a53d, 0x0772a26b)
  {
    hide Rounds;
    hide W;
    var s := Rounds(v, b, 36);
    s := Step(v, b, 36, s, 0x650a7354, 0x41a65cb1, 0x0772a26b);
    s := Step(v, b, 37, s, 0x766a0abb, 0x34df1604, 0xa507a53d);
    s := Step(v, b, 38, s, 0x81c2c92e, 0x6dc57a8a, 0xf0781bc8);
    s := Step(v, b, 39, s, 0x92722c85, 0x79ea687a, 0x1efbc0a0);
  }

  lemma RoundsFrom40(v: Hash, b: seq<Octet>)
    requires |b| == BLOCK && W(b, 40) == 0x9f47bf94 && W(b, 41) == 0xf0a64f5a
    requires W(b, 42) == 0x3e246a79 && W(b, 43) == 0x27333ba3
    requires Rounds(v, b, 40) == Hash(0x79ea687a, 0x6dc57a8a, 0x34df1604, 0x41a65cb1,
                                      0x1efbc0a0, 0xf0781bc8, 0xa507a53d, 0x0772a26b)
    ensures Rounds(v, b, 44) == Hash(0x9d4baf93, 0x17aa0dfe, 0xdf46652f, 0xd6670766,
                                     0xfda24c2e, 0xdecd4715, 0x838b2711, 0x26352d63)
  {
    hide Rounds;
    hide W;
    var s := Rounds(v, b, 40);
    s := Step(v, b, 40, s, 0xa2bfe8a1, 0xd6670766, 0x26352d63);
    s := Step(v, b, 41, s, 0xa81a664b, 0xdf46652f, 0x838b2711);
    s := Step(v, b, 42, s, 0xc24b8b70, 0x17aa0dfe, 0xdecd4715);
    s := Step(v, b, 43, s, 0xc76c51a3, 0x9d4baf93, 0xfda24c2e);
  }

  lemma RoundsFrom44(v: Hash, b: seq<Octet>)
    requires |b| == BLOCK && W(b, 44) == 0x0c4763f2 && W(b, 45) == 0x840abf27
    requires W(b, 46) == 0x7a290d5d && W(b, 47) == 0x065c43da
    requires Rounds(v, b, 44) == Hash(0x9d4baf93, 0x17aa0dfe, 0xdf46652f, 0xd6670766,
                                      0xfda24c2e, 0xdecd4715, 0x838b2711, 0x26352d63)
    ensures Rounds(v, b, 48) == Hash(0x4172328d, 0xa14c14b0, 0x72ab4b91, 0x26628815,
                                     0xfecf0bc6, 0xd57b94a9, 0xb7755da1, 0xa80f11f0)
  {
    hide Rounds;
    hide W;
    var s := Rounds(v, b, 44);
    s := Step(v, b, 44, s, 0xd192e819, 0x26628815, 0xa80f11f0);
    s := Step(v, b, 45, s, 0xd6990624, 0x72ab4b91, 0xb7755da1);
    s := Step(v, b, 46, s, 0xf40e3585, 0xa14c14b0, 0xd57b94a9);
    s := Step(v, b, 47, s, 0x106aa070, 0x4172328d, 0xfecf0bc6);
  }

  lemma RoundsFrom48(v: Hash, b: seq<Octet>)
    requires |b| == BLOCK && W(b, 48) == 0xfb3e89cb && W(b, 49) == 0xcc7617db
    requires W(b, 50) == 0xb9e66c34 && W(b, 51) == 0xa9993667
    requires Rounds(v, b, 48) == Hash(0x4172328d, 0xa14c14b0, 0x72ab4b91, 0x26628815,
                                      0xfecf0bc6, 0xd57b94a9, 0xb7755da1, 0xa80f11f0)
    ensures Rounds(v, b, 52) == Hash(0x886e7a22, 0x7a0508a1, 0xf11bfaa8, 0x05757ceb,
                                     0x49231c1e, 0x52f1ccf7, 0x6e5c390c, 0xbd714038)
  {
    hide Rounds;
    hide W;
    var s := Rounds(v, b, 48);
    s := Step(v, b, 48, s, 0x19a4c116, 0x05757ceb, 0xbd714038);
    s := Step(v, b, 49, s, 0x1e376c08, 0xf11bfaa8, 0x6e5c390c);
    s := Step(v, b, 50, s, 0x2748774c, 0x7a0508a1, 0x52f1ccf7);
    s := Step(v, b, 51, s, 0x34b0bcb5, 0x886e7a22, 0x49231c1e);
  }

  lemma RoundsFrom52(v: Hash, b: seq<Octet>)
    requires |b| == BLOCK && W(b, 52) == 0x84badedd && W(b, 53) == 0xc21462bc
    requires W(b, 54) == 0x1487472c && W(b, 55) == 0xb20f7a99
    requires Rounds(v, b, 52) == Hash(0x886e7a22, 0x7a0508a1, 0xf11bfaa8, 0x05757ceb,
                                      0x49231c1e, 0x52f1ccf7, 0x6e5c390c, 0xbd714038)
    ensures Rounds(v, b, 56) == Hash(0x38cc9913, 0x3ec45cdb, 0xf5702fdb, 0x101fd28f,
                                     0x54cb266b, 0xe50e1b4f, 0x9f4787c3, 0x529e7d00)
  {
    hide Rounds;
    hide W;
    var s := Rounds(v, b, 52);
    s := Step(v, b, 52, s, 0x391c0cb3, 0x101fd28f, 0x529e7d00);
    s := Step(v, b, 53, s, 0x4ed8aa4a, 0xf5702fdb, 0x9f4787c3);
    s := Step(v, b, 54, s, 0x5b9cca4f, 0x3ec45cdb, 0xe50e1b4f);
    s := Step(v, b, 55, s, 0x682e6ff3, 0x38cc9913, 0x54cb266b);
  }

  lemma RoundsFrom56(v: Hash, b: seq<Octet>)
    requires |b| == BLOCK && W(b, 56) == 0xef57b9cd && W(b, 57) == 0xebe6b238
    requires W(b, 58) == 0x9fe3095e && W(b, 59) == 0x78bc8d4b
    requires Rounds(v, b, 56) == Hash(0x38cc9913, 0x3ec45cdb, 0xf5702fdb, 0x101fd28f,
                                      0x54cb266b, 0xe50e1b4f, 0x9f4787c3, 0x529e7d00)
    ensures Rounds(v, b, 60) == Hash(0xb6ae8fff, 0xffb70472, 0xc062d46f, 0xfcd1887b,
                                     0xb21bad3d, 0x6d83bfc6, 0x7e44008e, 0x9b5e906c)
  {
    hide Rounds;
    hide W;
    var s := Rounds(v, b, 56);
    s := Step(v, b, 56, s, 0x748f82ee, 0xfcd1887b, 0x9b5e906c);
    s := Step(v, b, 57, s, 0x78a5636f, 0xc062d46f, 0x7e44008e);
    s := Step(v, b, 58, s, 0x84c87814, 0xffb70472, 0x6d83bfc6);
    s := Step(v, b, 59, s, 0x8cc70208, 0xb6ae8fff, 0xb21bad3d);
  }

  lemma RoundsFrom60(v: Hash, b: seq<Octet>)
    requires |b| == BLOCK && W(b, 60) == 0xa43fcf15 && W(b, 61) == 0x668b2ff8
    requires W(b, 62) == 0xeeaba2cc && W(b, 63) == 0x12b1edeb
    requires Rounds(v, b, 60) == Hash(0xb6ae8fff, 0xffb70472, 0xc062d46f, 0xfcd1887b,
                                      0xb21bad3d, 0x6d83bfc6, 0x7e44008e, 0x9b5e906c)
    ensures Rounds(v, b, 64) == Hash(0x506e3058, 0xd39a2165, 0x04d24d6c, 0xb85e2ce9,
                                     0x5ef50f24, 0xfb121210, 0x948d25b6, 0x961f4894)
  {
    hide Rounds;
    hide W;
    var s := Rounds(v, b, 60);
    s := Step(v, b, 60, s, 0x90befffa, 0xb85e2ce9, 0x961f4894);
    s := Step(v, b, 61, s, 0xa4506ceb, 0x04d24d6c, 0x948d25b6);
    s := Step(v, b, 62, s, 0xbef9a3f7, 0xd39a2165, 0xfb121210);
    s := Step(v, b, 63, s, 0xc67178f2, 0x506e3058, 0x5ef50f24);
  }

  lemma AllRounds(v: Hash, b: seq<Octet>)
    requires |b| == BLOCK && v == Hash(0x6a09e667, 0xbb67ae85, 0x3c6ef372, 0xa54ff53a,
                                       0x510e527f, 0x9b05688c, 0x1f83d9ab, 0x5be0cd19)
    requires Words(b, 0, 0x61626380, 0x00000000, 0x00000000, 0x00000000,
                      0x00000000, 0x00000000, 0x00000000, 0x00000000)
    requires Words(b, 8, 0x00000000, 0x00000000, 0x00000000, 0x00000000,
                      0x00000000, 0x00000000, 0x00000000, 0x00000018)
    ensures Rounds(v, b, 64) == Hash(0x506e3058, 0xd39a2165, 0x04d24d6c, 0xb85e2ce9,
                                     0x5ef50f24, 0xfb121210, 0x948d25b6, 0x961f4894)
  {
    hide W;
    WordsFrom16(b); WordsFrom24(b); WordsFrom32(b); WordsFrom40(b); WordsFrom48(b); WordsFrom56(b);
    NoRounds(v, b);
    hide Rounds;
    RoundsFrom0(v, b); RoundsFrom4(v, b); RoundsFrom8(v, b); RoundsFrom12(v, b);
    RoundsFrom16(v, b); RoundsFrom20(v, b); RoundsFrom24(v, b); RoundsFrom28(v, b);
    RoundsFrom32(v, b); RoundsFrom36(v, b); RoundsFrom40(v, b); RoundsFrom44(v, b);
    RoundsFrom48(v, b); RoundsFrom52(v, b); RoundsFrom56(v, b); RoundsFrom60(v, b);
  }

  lemma NoRounds(v: Hash, b: seq<Octet>)
    requires |b| == BLOCK
    ensures Rounds(v, b, 0) == v
  {
  }

  // ---- The message ----

  lemma DigitsOf24()
    ensures Length64(24) == [0, 0, 0, 0, 0, 0, 0, 24]
  {
    var zero: Octet, last: Octet := 0, 24;
    assert last as nat == 24 && zero as nat == 0;
    OctetBack(zero);
    OctetBack(last);
    forall i | 0 <= i < 8 ensures Digits(24, 8)[i] == if i == 7 then 24 else 0 {
      DigitIs(24, 8, i);
    }
  }

  lemma OctetBack(x: Octet)
    ensures (x as nat) as Octet == x
  {
  }

  /** The octets of the padded message, four at a time. */
  lemma PaddedAbc(b: seq<Octet>)
    requires b == Padded(ABC, 24)
    ensures |b| == BLOCK && b[0..4] == [0x61, 0x62, 0x63, 0x80] && b[60..64] == [0, 0, 0, 24]
    ensures forall i :: 4 <= i < 60 ==> b[i] == 0
  {
    DigitsOf24();
    hide Length64;
  }

  /** A word of the message, from the four octets it is. */
  lemma First(b: seq<Octet>, t: nat, w: Word)
    requires |b| == BLOCK && t < 16 && WordOf(b[4 * t], b[4 * t + 1], b[4 * t + 2], b[4 * t + 3]) == w
    ensures W(b, t) == w
  {
    hide WordOf;
  }

  lemma NoOctets()
    ensures WordOf(0, 0, 0, 0) == 0 && WordOf(0, 0, 0, 24) == 24 && WordOf(0x61, 0x62, 0x63, 0x80) == 0x61626380
  {
  }

  lemma Block(b: seq<Octet>)
    requires b == Padded(ABC, 24)
    ensures |b| == BLOCK
    ensures Words(b, 0, 0x61626380, 0x00000000, 0x00000000, 0x00000000,
                     0x00000000, 0x00000000, 0x00000000, 0x00000000)
    ensures Words(b, 8, 0x00000000, 0x00000000, 0x00000000, 0x00000000,
                     0x00000000, 0x00000000, 0x00000000, 0x00000018)
  {
    PaddedAbc(b);
    hide W;
    hide Padded;
    NoOctets();
    hide WordOf;
    assert b[0] == b[0..4][0] && b[1] == b[0..4][1] && b[2] == b[0..4][2] && b[3] == b[0..4][3];
    assert b[60] == b[60..64][0] && b[61] == b[60..64][1] && b[62] == b[60..64][2] && b[63] == b[60..64][3];
    First(b, 0, 0x61626380);
    First(b, 15, 24);
    forall t | 1 <= t < 15 ensures W(b, t) == 0 {
      First(b, t, 0);
    }
  }

  lemma AbsorbedAbc(b: seq<Octet>)
    requires b == Padded(ABC, 24)
    ensures Absorb(Initial(), b) == Hash(0xba7816bf, 0x8f01cfea, 0x414140de, 0x5dae2223,
                                         0xb00361a3, 0x96177a9c, 0xb410ff61, 0xf20015ad)
  {
    Block(b);
    hide W;
    hide Padded;
    InitialIs();
    hide Initial;
    AllRounds(Initial(), b);
    hide Rounds;
    assert b[..BLOCK] == b && b[BLOCK..] == [];
  }

  lemma InitialWordIs(i: nat, w: Word)
    requires i < 8 && INITIAL[i] == w as nat
    ensures InitialWord(i) == w
  {
    WordBack(w);
  }

  lemma InitialIs()
    ensures Initial() == Hash(0x6a09e667, 0xbb67ae85, 0x3c6ef372, 0xa54ff53a,
                              0x510e527f, 0x9b05688c, 0x1f83d9ab, 0x5be0cd19)
  {
    hide InitialWord;
    InitialWordIs(0, 0x6a09e667);
    InitialWordIs(1, 0xbb67ae85);
    InitialWordIs(2, 0x3c6ef372);
    InitialWordIs(3, 0xa54ff53a);
    InitialWordIs(4, 0x510e527f);
    InitialWordIs(5, 0x9b05688c);
    InitialWordIs(6, 0x1f83d9ab);
    InitialWordIs(7, 0x5be0cd19);
  }

  lemma EightWords()
    ensures OctetsOf(0xba7816bf) == [0xba, 0x78, 0x16, 0xbf]
    ensures OctetsOf(0x8f01cfea) == [0x8f, 0x01, 0xcf, 0xea]
    ensures OctetsOf(0x414140de) == [0x41, 0x41, 0x40, 0xde]
    ensures OctetsOf(0x5dae2223) == [0x5d, 0xae, 0x22, 0x23]
    ensures OctetsOf(0xb00361a3) == [0xb0, 0x03, 0x61, 0xa3]
    ensures OctetsOf(0x96177a9c) == [0x96, 0x17, 0x7a, 0x9c]
    ensures OctetsOf(0xb410ff61) == [0xb4, 0x10, 0xff, 0x61]
    ensures OctetsOf(0xf20015ad) == [0xf2, 0x00, 0x15, 0xad]
  {
  }

  lemma OctetsOfAbc()
    ensures DigestOctets(Hash(0xba7816bf, 0x8f01cfea, 0x414140de, 0x5dae2223,
                              0xb00361a3, 0x96177a9c, 0xb410ff61, 0xf20015ad))
         == ABC_DIGEST
  {
    hide OctetsOf;
    EightWords();
  }

  /** FIPS 180-4's example of one block. */
  lemma DigestOfAbc()
    ensures Digest(ABC) == ABC_DIGEST
  {
    AbsorbedAbc(Padded(ABC, 24));
    OctetsOfAbc();
    hide Absorb;
    hide Initial;
    hide Padded;
    hide DigestOctets;
  }
}
