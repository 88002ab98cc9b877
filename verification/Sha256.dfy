/**
 SHA-256 as the capsule code computes it: whole blocks straight from the input,
 then one or two blocks assembled in a 128-byte tail. The specification is
 FIPS 180-4: pad the message (section 5.1.1), then fold the block function.
 */
module Sha256 {
  import opened Bytes

  type Word = bv32

  // Section 4.2.2, eight to a row.
  const K0: seq<Word> := [0x428a2f98, 0x71374491, 0xb5c0fbcf, 0xe9b5dba5, 0x3956c25b, 0x59f111f1, 0x923f82a4, 0xab1c5ed5]
  const K1: seq<Word> := [0xd807aa98, 0x12835b01, 0x243185be, 0x550c7dc3, 0x72be5d74, 0x80deb1fe, 0x9bdc06a7, 0xc19bf174]
  const K2: seq<Word> := [0xe49b69c1, 0xefbe4786, 0x0fc19dc6, 0x240ca1cc, 0x2de92c6f, 0x4a7484aa, 0x5cb0a9dc, 0x76f988da]
  const K3: seq<Word> := [0x983e5152, 0xa831c66d, 0xb00327c8, 0xbf597fc7, 0xc6e00bf3, 0xd5a79147, 0x06ca6351, 0x14292967]
  const K4: seq<Word> := [0x27b70a85, 0x2e1b2138, 0x4d2c6dfc, 0x53380d13, 0x650a7354, 0x766a0abb, 0x81c2c92e, 0x92722c85]
  const K5: seq<Word> := [0xa2bfe8a1, 0xa81a664b, 0xc24b8b70, 0xc76c51a3, 0xd192e819, 0xd6990624, 0xf40e3585, 0x106aa070]
  const K6: seq<Word> := [0x19a4c116, 0x1e376c08, 0x2748774c, 0x34b0bcb5, 0x391c0cb3, 0x4ed8aa4a, 0x5b9cca4f, 0x682e6ff3]
  const K7: seq<Word> := [0x748f82ee, 0x78a5636f, 0x84c87814, 0x8cc70208, 0x90befffa, 0xa4506ceb, 0xbef9a3f7, 0xc67178f2]

  const K: seq<Word> := K0 + K1 + K2 + K3 + K4 + K5 + K6 + K7

  // ---- Word operations ----

  function Rotr(x: Word, n: Word): Word
    requires 0 < n < 32
  {
    (x >> n) | (x << (32 - n))
  }

  function Sum0(x: Word): Word { Rotr(x, 2) ^ Rotr(x, 13) ^ Rotr(x, 22) }
  function Sum1(x: Word): Word { Rotr(x, 6) ^ Rotr(x, 11) ^ Rotr(x, 25) }
  function Sigma0(x: Word): Word { Rotr(x, 7) ^ Rotr(x, 18) ^ (x >> 3) }
  function Sigma1(x: Word): Word { Rotr(x, 17) ^ Rotr(x, 19) ^ (x >> 10) }
  function Ch(x: Word, y: Word, z: Word): Word { (x & y) ^ (!x & z) }
  function Maj(x: Word, y: Word, z: Word): Word { (x & y) ^ (x & z) ^ (y & z) }

  // ---- The block function, section 6.2.2 ----

  type Block = s: seq<byte> | |s| == 64 witness Fill(64, 0)

  datatype Vars = Vars(a: Word, b: Word, c: Word, d: Word, e: Word, f: Word, g: Word, h: Word)

  const INITIAL := Vars(0x6a09e667, 0xbb67ae85, 0x3c6ef372, 0xa54ff53a, 0x510e527f, 0x9b05688c, 0x1f83d9ab, 0x5be0cd19)

  function ToWord(n: uint32): Word {
    n as Word
  }

  function Load(m: Block, i: nat): Word
    requires i < 16
  {
    ToWord(GetBe32(m, 4 * i))
  }

  function Expand(w2: Word, w7: Word, w15: Word, w16: Word): Word {
    Sigma1(w2) + w7 + Sigma0(w15) + w16
  }

  /** The first n words of the message schedule. */
  function Schedule(m: Block, n: nat): (w: seq<Word>)
    requires n <= 64
    ensures |w| == n
  {
    if n == 0 then []
    else
      var w := Schedule(m, n - 1); var t := n - 1;
      w + [if t < 16 then Load(m, t) else Expand(w[t - 2], w[t - 7], w[t - 15], w[t - 16])]
  }

  function Add(x: Word, y: Word): Word { x + y }
  function T1(e: Word, f: Word, g: Word, h: Word, k: Word, w: Word): Word { h + Sum1(e) + Ch(e, f, g) + k + w }
  function T2(a: Word, b: Word, c: Word): Word { Sum0(a) + Maj(a, b, c) }

  function Round(v: Vars, k: Word, w: Word): Vars {
    var t1 := T1(v.e, v.f, v.g, v.h, k, w);
    Vars(Add(t1, T2(v.a, v.b, v.c)), v.a, v.b, v.c, Add(v.d, t1), v.e, v.f, v.g)
  }

  function Rounds(v: Vars, w: seq<Word>, n: nat): Vars
    requires |w| == 64 && n <= 64
  {
    if n == 0 then v else Round(Rounds(v, w, n - 1), K[n - 1], w[n - 1])
  }

  function Sum(s: Vars, v: Vars): Vars {
    Vars(Add(s.a, v.a), Add(s.b, v.b), Add(s.c, v.c), Add(s.d, v.d), Add(s.e, v.e), Add(s.f, v.f), Add(s.g, v.g), Add(s.h, v.h))
  }

  function Compress(s: Vars, m: Block): Vars {
    Sum(s, Rounds(s, Schedule(m, 64), 64))
  }

  method ExpandWords(input: Block) returns (words: seq<Word>)
    ensures words == Schedule(input, 64)
  {
    hide Expand, Load;
    var w := new Word[64](_ => 0);
    for i := 0 to 16
      invariant w[..i] == Schedule(input, i)
    {
      w[i] := Load(input, i);
    }
    for i := 16 to 64
      invariant w[..i] == Schedule(input, i)
    {
      assert w[i - 15] == w[..i][i - 15] && w[i - 2] == w[..i][i - 2];
      assert w[i - 16] == w[..i][i - 16] && w[i - 7] == w[..i][i - 7];
      w[i] := Expand(w[i - 2], w[i - 7], w[i - 15], w[i - 16]);
    }
    words := w[..];
  }

  method CompressBlock(input: Block, state: Vars) returns (result: Vars)
    ensures result == Compress(state, input)
  {
    hide Add, T1, T2, Schedule;
    var words := ExpandWords(input);
    var a, b, c, d, e, f, g, h := state.a, state.b, state.c, state.d, state.e, state.f, state.g, state.h;
    for i := 0 to 64
      invariant Vars(a, b, c, d, e, f, g, h) == Rounds(state, words, i)
    {
      var t1, t2 := T1(e, f, g, h, K[i], words[i]), T2(a, b, c);
      h, g, f, e := g, f, e, Add(d, t1);
      d, c, b, a := c, b, a, Add(t1, t2);
    }
    result := Vars(Add(state.a, a), Add(state.b, b), Add(state.c, c), Add(state.d, d), Add(state.e, e), Add(state.f, f),
                   Add(state.g, g), Add(state.h, h));
  }

  // ---- Padding and folding ----

  /** A 64-bit length in network order. */
  function Be64(x: uint64): (s: seq<byte>)
    ensures |s| == 8
  {
    Be32(x / WORD_SPAN) + Be32(x % WORD_SPAN)
  }

  function Weight64(i: nat): (w: nat)
    ensures w > 0
  {
    if i < 4 then Weight(i) * WORD_SPAN else Weight(i - 4)
  }

  /** Shifting the length right by 56 - 8i bits and keeping the low octet. */
  lemma Weight64Digits(x: uint64, i: nat)
    requires i < 8
    ensures x / Weight64(i) % 256 == Be64(x)[i]
  {
    hide Be32;
    var high, low := x / WORD_SPAN, x % WORD_SPAN;
    if i < 4 {
      WeightDigits(high, i);
      HighDigit(x, i);
    } else {
      WeightDigits(low, i - 4);
      LowDigit(x, i - 4);
    }
  }

  lemma HighDigit(x: uint64, i: nat)
    requires i < 4
    ensures x / (Weight(i) * WORD_SPAN) == x / WORD_SPAN / Weight(i)
  {
  }

  lemma LowDigit(x: uint64, i: nat)
    requires i < 4
    ensures x / Weight(i) % 256 == x % WORD_SPAN / Weight(i) % 256
  {
    var high, low := x / WORD_SPAN, x % WORD_SPAN;
    var w, k := Weight(i), if i == 0 then 1 else if i == 1 then 256 else if i == 2 then 0x1_0000 else 0x100_0000;
    assert x == low + (256 * k * high) * w by {
      assert x == low + WORD_SPAN * high;
      assert w * (256 * k) == WORD_SPAN;
    }
    AddMultiple(low, 256 * k * high, w);
    AddOctets(low / w, k * high);
  }

  lemma AddMultiple(a: nat, q: nat, w: nat)
    requires w > 0
    ensures (a + q * w) / w == a / w + q
  {
    var sum := a + q * w;
    assert sum == (a / w + q) * w + a % w;
    SameQuotient(sum / w, sum % w, a / w + q, a % w, w);
  }

  lemma SameQuotient(p: int, r: int, q: int, s: int, w: int)
    requires 0 <= r < w && 0 <= s < w && p * w + r == q * w + s
    ensures p == q
  {
    var d := q - p;
    assert d * w == r - s by { Distributes(q, p, w); }
    if d > 0 {
      Distributes(d, 1, w);
      NotNegative(d - 1, w);
    } else if d < 0 {
      Distributes(-1, d, w);
      NotNegative(-1 - d, w);
    }
  }

  lemma Distributes(a: int, b: int, w: int)
    ensures (a - b) * w == a * w - b * w
  {
  }

  lemma NotNegative(a: nat, w: nat)
    ensures a * w >= 0
  {
  }

  lemma AddOctets(a: nat, q: nat)
    ensures (a + 256 * q) % 256 == a % 256
  {
  }

  /** Section 5.1.1: a one bit, the fewest zero bits that reach a 448-bit boundary, the bit length. */
  function Pad(m: seq<byte>): (p: seq<byte>)
    requires |m| < 0x2000_0000_0000_0000
    ensures |p| % 64 == 0
  {
    PadLength(|m|);
    m + [0x80] + Fill((55 - |m|) % 64, 0) + Be64(8 * |m|)
  }

  lemma PadLength(n: nat)
    ensures (n + 9 + (55 - n) % 64) % 64 == 0
  {
    assert n + 9 + (55 - n) % 64 == 64 * (1 - (55 - n) / 64);
  }

  /** The block function over the whole blocks of `p`. */
  function Fold(s: Vars, p: seq<byte>): Vars
    decreases |p|
  {
    if |p| < 64 then s else Fold(Compress(s, p[..64]), p[64..])
  }

  function FromWord(x: Word): uint32 {
    x as int
  }

  function Octets(x: Word): (b: seq<byte>)
    ensures |b| == 4
  {
    Be32(FromWord(x))
  }

  function Output(s: Vars): (d: seq<byte>)
    ensures |d| == 32
  {
    Octets(s.a) + Octets(s.b) + Octets(s.c) + Octets(s.d) + Octets(s.e) + Octets(s.f) + Octets(s.g) + Octets(s.h)
  }

  function Hash(m: seq<byte>): (d: seq<byte>)
    requires |m| < 0x2000_0000_0000_0000
    ensures |d| == 32
  {
    Output(Fold(INITIAL, Pad(m)))
  }

  lemma {:induction false} FoldAppend(s: Vars, p: seq<byte>, q: seq<byte>)
    requires |p| % 64 == 0
    ensures Fold(s, p + q) == Fold(Fold(s, p), q)
    decreases |p|
  {
    hide Compress;
    if |p| < 64 {
      assert p + q == q;
    } else {
      assert (p + q)[..64] == p[..64] && (p + q)[64..] == p[64..] + q;
      FoldAppend(Compress(s, p[..64]), p[64..], q);
    }
  }

  /** What the tail buffer must hold after `rest` unprocessed bytes of an n-byte message. */
  function Tail(rest: seq<byte>, n: nat): (t: seq<byte>)
    requires |rest| < 64 && n < 0x2000_0000_0000_0000
    ensures |t| == if |rest| >= 56 then 128 else 64
  {
    rest + [0x80] + Fill((if |rest| >= 56 then 119 else 55) - |rest|, 0) + Be64(8 * n)
  }

  lemma ZeroCount(n: nat, done: nat)
    requires done <= n < done + 64 && done % 64 == 0
    ensures (55 - n) % 64 == (if n - done >= 56 then 119 else 55) - (n - done)
  {
    var q, r := done / 64, n - done;
    assert 55 - n == 64 * (-q) + (55 - r);
    assert 55 - n == 64 * (-q - 1) + (119 - r);
  }

  lemma PadSplit(m: seq<byte>, done: nat)
    requires done <= |m| < done + 64 && done % 64 == 0 && |m| < 0x2000_0000_0000_0000
    ensures Pad(m) == m[..done] + Tail(m[done..], |m|)
  {
    hide Be64;
    ZeroCount(|m|, done);
    assert m == m[..done] + m[done..];
  }

  /** sha256(): the block loop and the one- or two-block tail compute the standard's digest. */
  method Digest(data: seq<byte>) returns (out: seq<byte>)
    requires |data| < 0x2000_0000_0000_0000
    ensures out == Hash(data)
  {
    hide Compress, Be64, Output;
    var state := INITIAL;
    var done := 0;
    while |data| - done >= 64
      invariant done <= |data| && done % 64 == 0
      invariant state == Fold(INITIAL, data[..done])
    {
      FoldAppend(INITIAL, data[..done], data[done..done + 64]);
      assert data[..done + 64] == data[..done] + data[done..done + 64];
      FoldOne(state, data[done..done + 64]);
      state := CompressBlock(data[done..done + 64], state);
      done := done + 64;
    }
    var tail := FillTail(data[done..], |data|);
    PadSplit(data, done);
    FoldAppend(INITIAL, data[..done], tail);
    FoldOne(state, tail[..64]);
    state := CompressBlock(tail[..64], state);
    if |tail| == 128 {
      FoldAppend(Fold(INITIAL, data[..done]), tail[..64], tail[64..]);
      assert tail == tail[..64] + tail[64..];
      FoldOne(state, tail[64..]);
      state := CompressBlock(tail[64..], state);
    } else {
      assert tail[..64] == tail;
    }
    out := Output(state);
  }

  lemma FoldOne(s: Vars, m: Block)
    ensures Fold(s, m) == Compress(s, m)
  {
    hide Compress;
    assert m[..64] == m && m[64..] == [];
  }

  /** The zeroed 128-byte buffer, written in place, and its used length. */
  method FillTail(rest: seq<byte>, n: nat) returns (tail: seq<byte>)
    requires |rest| < 64 && n < 0x2000_0000_0000_0000
    ensures tail == Tail(rest, n)
  {
    var buffer := new byte[128](_ => 0);
    forall i | 0 <= i < |rest| {
      buffer[i] := rest[i];
    }
    buffer[|rest|] := 0x80;
    var final := if |rest| >= 56 then 128 else 64;
    var bits := 8 * n;
    hide Be64, Weight64;
    for i := 0 to 8
      invariant forall k :: 0 <= k < |rest| ==> buffer[k] == rest[k]
      invariant buffer[|rest|] == 0x80
      invariant forall k :: |rest| < k < final - 8 ==> buffer[k] == 0
      invariant forall k :: final - 8 <= k < final - 8 + i ==> buffer[k] == Be64(bits)[k - (final - 8)]
    {
      Weight64Digits(bits, i);
      buffer[final - 8 + i] := bits / Weight64(i) % 256;
    }
    tail := buffer[..final];
  }
}
