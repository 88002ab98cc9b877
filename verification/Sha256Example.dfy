/** The digest of "abc", from the example in section B.1 of FIPS 180-4: it fixes the constants, the word
    functions, the schedule and the rounds. */
module Sha256Example {
  import opened Bytes
  import opened Sha256

  type Row = s: seq<Word> | |s| == 8 witness [0, 0, 0, 0, 0, 0, 0, 0]

  // The message schedule, eight words to a row.
  const W0: Row := [0x61626380, 0x00000000, 0x00000000, 0x00000000, 0x00000000, 0x00000000, 0x00000000, 0x00000000]
  const W1: Row := [0x00000000, 0x00000000, 0x00000000, 0x00000000, 0x00000000, 0x00000000, 0x00000000, 0x00000018]
  const W2: Row := [0x61626380, 0x000f0000, 0x7da86405, 0x600003c6, 0x3e9d7b78, 0x0183fc00, 0x12dcbfdb, 0xe2e2c38e]
  const W3: Row := [0xc8215c1a, 0xb73679a2, 0xe5bc3909, 0x32663c5b, 0x9d209d67, 0xec8726cb, 0x702138a4, 0xd3b7973b]
  const W4: Row := [0x93f5997f, 0x3b68ba73, 0xaff4ffc1, 0xf10a5c62, 0x0a8b3996, 0x72af830a, 0x9409e33e, 0x24641522]
  const W5: Row := [0x9f47bf94, 0xf0a64f5a, 0x3e246a79, 0x27333ba3, 0x0c4763f2, 0x840abf27, 0x7a290d5d, 0x065c43da]
  const W6: Row := [0xfb3e89cb, 0xcc7617db, 0xb9e66c34, 0xa9993667, 0x84badedd, 0xc21462bc, 0x1487472c, 0xb20f7a99]
  const W7: Row := [0xef57b9cd, 0xebe6b238, 0x9fe3095e, 0x78bc8d4b, 0xa43fcf15, 0x668b2ff8, 0xeeaba2cc, 0x12b1edeb]

  // The working variables after every eight rounds.
  const V1 := Vars(0x85a07b5f, 0xe5030380, 0x2b4209f5, 0x04409a6a, 0x0c657a79, 0x9b27a401, 0x714260ad, 0x43ada245)
  const V2 := Vars(0xb0fa238e, 0xc0645fde, 0xd932eb16, 0x87912990, 0x07590dcd, 0x0b92f20c, 0x745a48de, 0x1e578218)
  const V3 := Vars(0xc5d53d8d, 0xa7a3623f, 0xc2606d6d, 0x9dc68b63, 0xaa47c347, 0x49f5114a, 0xe1257970, 0x8ada8930)
  const V4 := Vars(0x73b33bf5, 0xea992a22, 0xa0060b30, 0x363482c9, 0xba591112, 0x0109ab3a, 0xade79437, 0x6112a3b7)
  const V5 := Vars(0x79ea687a, 0x6dc57a8a, 0x34df1604, 0x41a65cb1, 0x1efbc0a0, 0xf0781bc8, 0xa507a53d, 0x0772a26b)
  const V6 := Vars(0x4172328d, 0xa14c14b0, 0x72ab4b91, 0x26628815, 0xfecf0bc6, 0xd57b94a9, 0xb7755da1, 0xa80f11f0)
  const V7 := Vars(0x38cc9913, 0x3ec45cdb, 0xf5702fdb, 0x101fd28f, 0x54cb266b, 0xe50e1b4f, 0x9f4787c3, 0x529e7d00)
  const V8 := Vars(0x506e3058, 0xd39a2165, 0x04d24d6c, 0xb85e2ce9, 0x5ef50f24, 0xfb121210, 0x948d25b6, 0x961f4894)

  /** The next eight words of a schedule, from the last sixteen. */
  function Expanded(x: Row, y: Row): Row {
    var a := Expand(y[6], y[1], x[1], x[0]);
    var b := Expand(y[7], y[2], x[2], x[1]);
    var c := Expand(a, y[3], x[3], x[2]);
    var d := Expand(b, y[4], x[4], x[3]);
    var e := Expand(c, y[5], x[5], x[4]);
    var f := Expand(d, y[6], x[6], x[5]);
    var g := Expand(e, y[7], x[7], x[6]);
    [a, b, c, d, e, f, g, Expand(f, a, y[0], x[7])]
  }

  function Eight(v: Vars, k: Row, w: Row): Vars {
    var p := Round(Round(Round(Round(v, k[0], w[0]), k[1], w[1]), k[2], w[2]), k[3], w[3]);
    Round(Round(Round(Round(p, k[4], w[4]), k[5], w[5]), k[6], w[6]), k[7], w[7])
  }

  lemma Words2()
    ensures Expanded(W0, W1) == W2
  {
  }

  lemma Words3()
    ensures Expanded(W1, W2) == W3
  {
  }

  lemma Words4()
    ensures Expanded(W2, W3) == W4
  {
  }

  lemma Words5()
    ensures Expanded(W3, W4) == W5
  {
  }

  lemma Words6()
    ensures Expanded(W4, W5) == W6
  {
  }

  lemma Words7()
    ensures Expanded(W5, W6) == W7
  {
  }

  lemma Rounds1()
    ensures Eight(INITIAL, K0, W0) == V1
  {
  }

  lemma Rounds2()
    ensures Eight(V1, K1, W1) == V2
  {
  }

  lemma Rounds3()
    ensures Eight(V2, K2, W2) == V3
  {
  }

  lemma Rounds4()
    ensures Eight(V3, K3, W3) == V4
  {
  }

  lemma Rounds5()
    ensures Eight(V4, K4, W4) == V5
  {
  }

  lemma Rounds6()
    ensures Eight(V5, K5, W5) == V6
  {
  }

  lemma Rounds7()
    ensures Eight(V6, K6, W6) == V7
  {
  }

  lemma Rounds8()
    ensures Eight(V7, K7, W7) == V8
  {
  }

  // ---- Rows of a schedule and of the rounds ----

  lemma NextWord(m: Block, w: seq<Word>)
    requires 16 <= |w| < 64 && Schedule(m, |w|) == w
    ensures var t := |w|; Schedule(m, t + 1) == w + [Expand(w[t - 2], w[t - 7], w[t - 15], w[t - 16])]
  {
    hide Expand, Load;
  }

  /** The four words that word i of the next row depends on. */
  lemma Behind(done: seq<Word>, x: Row, y: Row, z: Row, i: nat)
    requires i < 8
    ensures var w := done + x + y + z[..i]; var t := |w|;
      && t == |done| + 16 + i && w[t - 2] == (if i < 2 then y[6 + i] else z[i - 2]) && w[t - 7] == (if i < 7 then y[1 + i] else z[0])
      && w[t - 15] == (if i < 7 then x[1 + i] else y[0]) && w[t - 16] == x[i]
  {
  }

  lemma Follows(x: Row, y: Row, i: nat)
    requires i < 8
    ensures var z := Expanded(x, y);
      z[i] == Expand(if i < 2 then y[6 + i] else z[i - 2], if i < 7 then y[1 + i] else z[0], if i < 7 then x[1 + i] else y[0], x[i])
  {
    hide Expand;
    match i
    case 0 =>
    case 1 =>
    case 2 =>
    case 3 =>
    case 4 =>
    case 5 =>
    case 6 =>
    case _ =>
  }

  lemma NextRow(m: Block, done: seq<Word>, x: Row, y: Row)
    requires |done| + 24 <= 64 && Schedule(m, |done| + 16) == done + x + y
    ensures Schedule(m, |done| + 24) == done + x + y + Expanded(x, y)
  {
    hide Expand, Expanded, Schedule;
    var z, w := Expanded(x, y), done + x + y;
    var t := |w|;
    for i := 0 to 8
      invariant w == done + x + y + z[..i] && Schedule(m, t + i) == w
    {
      Behind(done, x, y, z, i);
      Follows(x, y, i);
      NextWord(m, w);
      w := w + [z[i]];
      assert z[..i] + [z[i]] == z[..i + 1];
    }
    assert z[..8] == z;
  }

  lemma EightRounds(v: Vars, w: seq<Word>, n: nat, k: Row, row: Row)
    requires |w| == 64 && n + 8 <= 64 && K[n..n + 8] == k && w[n..n + 8] == row
    ensures Rounds(v, w, n + 8) == Eight(Rounds(v, w, n), k, row)
  {
    hide Round;
    var u := Rounds(v, w, n);
    assert forall i :: 0 <= i < 8 ==> K[n + i] == k[i] && w[n + i] == row[i];
    OneRound(v, w, n);
    OneRound(v, w, n + 1);
    OneRound(v, w, n + 2);
    OneRound(v, w, n + 3);
    OneRound(v, w, n + 4);
    OneRound(v, w, n + 5);
    OneRound(v, w, n + 6);
    OneRound(v, w, n + 7);
  }

  lemma OneRound(v: Vars, w: seq<Word>, n: nat)
    requires |w| == 64 && n < 64
    ensures Rounds(v, w, n + 1) == Round(Rounds(v, w, n), K[n], w[n])
  {
    hide Round;
  }

  // ---- The example ----

  const ABC: seq<byte> := [0x61, 0x62, 0x63]

  const DIGEST: seq<byte> :=
    [
      0xba, 0x78, 0x16, 0xbf, 0x8f, 0x01, 0xcf, 0xea, 0x41, 0x41, 0x40, 0xde, 0x5d, 0xae, 0x22, 0x23,
      0xb0, 0x03, 0x61, 0xa3, 0x96, 0x17, 0x7a, 0x9c, 0xb4, 0x10, 0xff, 0x61, 0xf2, 0x00, 0x15, 0xad]

  lemma PadIs()
    ensures Pad(ABC) == [0x61, 0x62, 0x63, 0x80] + Fill(59, 0) + [24]
  {
    assert Be64(24) == [0, 0, 0, 0, 0, 0, 0, 24];
    assert ABC + [0x80] == [0x61, 0x62, 0x63, 0x80];
    assert Fill(52, 0) + [0, 0, 0, 0, 0, 0, 0] == Fill(59, 0);
  }

  lemma LoadIs(m: Block, i: nat, b0: byte, b1: byte, b2: byte, b3: byte)
    requires i < 16 && m[4 * i..4 * i + 4] == [b0, b1, b2, b3]
    ensures Load(m, i) == ToWord(Join(b3, b2, b1, b0))
  {
    hide ToWord;
    var w := m[4 * i..4 * i + 4];
    assert m[4 * i] == w[0] && m[4 * i + 1] == w[1] && m[4 * i + 2] == w[2] && m[4 * i + 3] == w[3];
  }

  lemma JoinsAre()
    ensures Join(0x80, 0x63, 0x62, 0x61) == 0x61626380 && Join(24, 0, 0, 0) == 24 && Join(0, 0, 0, 0) == 0
  {
  }

  lemma Literals()
    ensures ToWord(0x61626380) == 0x61626380 && ToWord(24) == 24 && ToWord(0) == 0
  {
  }

  lemma LoadsAre(m: Block)
    requires m == [0x61, 0x62, 0x63, 0x80] + Fill(59, 0) + [24]
    ensures Load(m, 0) == 0x61626380 && Load(m, 15) == 24 && forall i :: 1 <= i < 15 ==> Load(m, i) == 0
  {
    hide Load, Join, ToWord;
    JoinsAre();
    Literals();
    LoadIs(m, 0, 0x61, 0x62, 0x63, 0x80);
    LoadIs(m, 15, 0, 0, 0, 24);
    forall i | 1 <= i < 15 ensures Load(m, i) == 0 {
      LoadIs(m, i, 0, 0, 0, 0);
    }
  }

  lemma {:induction false} Loaded(m: Block, n: nat)
    requires n <= 16
    ensures Schedule(m, n) == seq(n, i requires 0 <= i < n => Load(m, i))
  {
    hide Load;
    if n > 0 {
      Loaded(m, n - 1);
    }
  }

  lemma WordsAre(m: Block)
    requires m == [0x61, 0x62, 0x63, 0x80] + Fill(59, 0) + [24]
    ensures Schedule(m, 64) == W0 + W1 + W2 + W3 + W4 + W5 + W6 + W7
  {
    hide Load, Schedule, Expanded;
    Loaded(m, 16);
    LoadsAre(m);
    assert Schedule(m, 16) == W0 + W1;
    assert [] + W0 + W1 == W0 + W1;
    NextRow(m, [], W0, W1);
    Words2();
    NextRow(m, W0, W1, W2);
    Words3();
    NextRow(m, W0 + W1, W2, W3);
    Words4();
    NextRow(m, W0 + W1 + W2, W3, W4);
    Words5();
    NextRow(m, W0 + W1 + W2 + W3, W4, W5);
    Words6();
    NextRow(m, W0 + W1 + W2 + W3 + W4, W5, W6);
    Words7();
  }

  lemma Rows()
    ensures K[0..8] == K0 && K[8..16] == K1 && K[16..24] == K2 && K[24..32] == K3
    ensures K[32..40] == K4 && K[40..48] == K5 && K[48..56] == K6 && K[56..64] == K7
  {
  }

  lemma RoundsAre(w: seq<Word>)
    requires w == W0 + W1 + W2 + W3 + W4 + W5 + W6 + W7
    ensures Rounds(INITIAL, w, 64) == V8
  {
    hide Rounds, Eight;
    Rows();
    assert Rounds(INITIAL, w, 0) == INITIAL by { NoRounds(w); }
    EightRounds(INITIAL, w, 0, K0, W0);
    Rounds1();
    EightRounds(INITIAL, w, 8, K1, W1);
    Rounds2();
    EightRounds(INITIAL, w, 16, K2, W2);
    Rounds3();
    EightRounds(INITIAL, w, 24, K3, W3);
    Rounds4();
    EightRounds(INITIAL, w, 32, K4, W4);
    Rounds5();
    EightRounds(INITIAL, w, 40, K5, W5);
    Rounds6();
    EightRounds(INITIAL, w, 48, K6, W6);
    Rounds7();
    EightRounds(INITIAL, w, 56, K7, W7);
    Rounds8();
  }

  lemma NoRounds(w: seq<Word>)
    requires |w| == 64
    ensures Rounds(INITIAL, w, 0) == INITIAL
  {
  }

  lemma SumIs()
    ensures Sum(INITIAL, V8) == Vars(0xba7816bf, 0x8f01cfea, 0x414140de, 0x5dae2223, 0xb00361a3, 0x96177a9c, 0xb410ff61, 0xf20015ad)
  {
  }

  lemma Octets0()
    ensures Octets(0xba7816bf) == [0xba, 0x78, 0x16, 0xbf]
  {
    assert FromWord(0xba7816bf) == 0xba7816bf;
  }

  lemma Octets1()
    ensures Octets(0x8f01cfea) == [0x8f, 0x01, 0xcf, 0xea]
  {
    assert FromWord(0x8f01cfea) == 0x8f01cfea;
  }

  lemma Octets2()
    ensures Octets(0x414140de) == [0x41, 0x41, 0x40, 0xde]
  {
    assert FromWord(0x414140de) == 0x414140de;
  }

  lemma Octets3()
    ensures Octets(0x5dae2223) == [0x5d, 0xae, 0x22, 0x23]
  {
    assert FromWord(0x5dae2223) == 0x5dae2223;
  }

  lemma Octets4()
    ensures Octets(0xb00361a3) == [0xb0, 0x03, 0x61, 0xa3]
  {
    assert FromWord(0xb00361a3) == 0xb00361a3;
  }

  lemma Octets5()
    ensures Octets(0x96177a9c) == [0x96, 0x17, 0x7a, 0x9c]
  {
    assert FromWord(0x96177a9c) == 0x96177a9c;
  }

  lemma Octets6()
    ensures Octets(0xb410ff61) == [0xb4, 0x10, 0xff, 0x61]
  {
    assert FromWord(0xb410ff61) == 0xb410ff61;
  }

  lemma Octets7()
    ensures Octets(0xf20015ad) == [0xf2, 0x00, 0x15, 0xad]
  {
    assert FromWord(0xf20015ad) == 0xf20015ad;
  }

  /** The example of section B.1. */
  lemma AbcDigest()
    ensures Hash(ABC) == DIGEST
  {
    hide Compress, Octets, Schedule, Rounds, Sum, Pad;
    PadIs();
    var m := Pad(ABC);
    FoldOne(INITIAL, m);
    WordsAre(m);
    RoundsAre(Schedule(m, 64));
    SumIs();
    CompressIs(m);
    Octets0();
    Octets1();
    Octets2();
    Octets3();
    Octets4();
    Octets5();
    Octets6();
    Octets7();
  }

  lemma CompressIs(m: Block)
    ensures Compress(INITIAL, m) == Sum(INITIAL, Rounds(INITIAL, Schedule(m, 64), 64))
  {
    hide Sum, Rounds, Schedule;
  }
}
