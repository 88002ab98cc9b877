/** Octets, fixed-width unsigned words and the byte orders used on the wire and in flash. */
module Bytes {
  type byte = x: int | 0 <= x < 256
  type uint16 = x: int | 0 <= x < 0x1_0000
  type uint32 = x: int | 0 <= x < 0x1_0000_0000
  type uint64 = x: int | 0 <= x < 0x1_0000_0000_0000_0000

  const WORD_SPAN := 0x1_0000_0000

  datatype Option<+T> = None | Some(value: T)

  /** Unsigned 32-bit arithmetic: every result is reduced modulo 2^32. */
  function Wrap32(x: int): uint32 {
    x % WORD_SPAN
  }

  function Min(a: int, b: int): int {
    if a <= b then a else b
  }

  function Max(a: int, b: int): int {
    if a <= b then b else a
  }

  function Fill(n: nat, b: byte): (s: seq<byte>)
    ensures |s| == n
    ensures forall i :: 0 <= i < n ==> s[i] == b
  {
    seq(n, _ => b)
  }

  /** The value of four octets, least significant first. */
  function Join(b0: int, b1: int, b2: int, b3: int): int {
    b0 + 256 * (b1 + 256 * (b2 + 256 * b3))
  }

  /** The octets of a text of ASCII characters. */
  function Ascii(s: string): (b: seq<byte>)
    ensures |b| == |s|
  {
    seq(|s|, i requires 0 <= i < |s| => if s[i] < 128 as char then s[i] as int else 63)
  }

  // Little endian, as in capsule headers.

  function GetLe16(b: seq<byte>, at: nat): uint16
    requires at + 2 <= |b|
  {
    Join(b[at], b[at + 1], 0, 0)
  }

  function Le32(x: uint32): (s: seq<byte>)
    ensures |s| == 4
  {
    var high := x / 256;
    [x % 256, high % 256, high / 256 % 256, high / 256 / 256]
  }

  function GetLe32(b: seq<byte>, at: nat): uint32
    requires at + 4 <= |b|
  {
    Join(b[at], b[at + 1], b[at + 2], b[at + 3])
  }

  // Network order, as in FMGO and DHCP headers.

  function Be32(x: uint32): (s: seq<byte>)
    ensures |s| == 4
  {
    var s := Le32(x);
    [s[3], s[2], s[1], s[0]]
  }

  /** The weight of the octet at index `i` of a word in network order. */
  function Weight(i: nat): (w: nat)
    ensures w > 0
  {
    if i == 0 then 0x100_0000 else if i == 1 then 0x1_0000 else if i == 2 then 0x100 else 1
  }

  /** Shifting a word right by 24 - 8i bits and keeping the low octet. */
  lemma WeightDigits(x: uint32, i: nat)
    requires i < 4
    ensures x / Weight(i) % 256 == Be32(x)[i]
  {
    var high := x / 256;
    assert high / 256 == x / 0x1_0000 && high / 256 / 256 == x / 0x100_0000;
  }

  function GetBe32(b: seq<byte>, at: nat): uint32
    requires at + 4 <= |b|
  {
    Join(b[at + 3], b[at + 2], b[at + 1], b[at])
  }

  function GetBe16(b: seq<byte>, at: nat): uint16
    requires at + 2 <= |b|
  {
    Join(b[at + 1], b[at], 0, 0)
  }

  lemma SplitJoin(b0: byte, b1: byte, b2: byte, b3: byte)
    ensures 0 <= Join(b0, b1, b2, b3) < WORD_SPAN
    ensures Le32(Join(b0, b1, b2, b3)) == [b0, b1, b2, b3]
  {
    var x := Join(b0, b1, b2, b3);
    var high := b1 + 256 * (b2 + 256 * b3);
    assert x / 256 == high && x % 256 == b0;
    assert high / 256 == b2 + 256 * b3 && high % 256 == b1;
    assert (b2 + 256 * b3) / 256 == b3 && (b2 + 256 * b3) % 256 == b2;
  }

  lemma Le32Inverse(b: seq<byte>, at: nat)
    requires at + 4 <= |b|
    ensures Le32(GetLe32(b, at)) == b[at..at + 4]
  {
    SplitJoin(b[at], b[at + 1], b[at + 2], b[at + 3]);
  }

  lemma Be32Inverse(b: seq<byte>, at: nat)
    requires at + 4 <= |b|
    ensures Be32(GetBe32(b, at)) == b[at..at + 4]
  {
    SplitJoin(b[at + 3], b[at + 2], b[at + 1], b[at]);
  }

  lemma GetLe32Inverse(b: seq<byte>, at: nat, x: uint32)
    requires at + 4 <= |b| && b[at..at + 4] == Le32(x)
    ensures GetLe32(b, at) == x
  {
    var s := b[at..at + 4];
    assert b[at] == s[0] && b[at + 1] == s[1] && b[at + 2] == s[2] && b[at + 3] == s[3];
  }

  lemma GetBe32Inverse(b: seq<byte>, at: nat, x: uint32)
    requires at + 4 <= |b| && b[at..at + 4] == Be32(x)
    ensures GetBe32(b, at) == x
  {
    var s := b[at..at + 4];
    assert b[at] == s[0] && b[at + 1] == s[1] && b[at + 2] == s[2] && b[at + 3] == s[3];
  }

  // A little-endian array of words.

  function Words(ws: seq<uint32>): (s: seq<byte>)
    ensures |s| == 4 * |ws|
  {
    if ws == [] then [] else Words(ws[..|ws| - 1]) + Le32(ws[|ws| - 1])
  }

  lemma {:induction false} WordsAt(ws: seq<uint32>, i: nat, rest: seq<byte>)
    requires i < |ws|
    ensures GetLe32(Words(ws) + rest, 4 * i) == ws[i]
  {
    var n := |ws| - 1;
    var last := Le32(ws[n]);
    assert Words(ws) + rest == Words(ws[..n]) + (last + rest);
    if i == n {
      var b := Words(ws) + rest;
      assert b[4 * i..4 * i + 4] == last;
      GetLe32Inverse(b, 4 * i, ws[n]);
    } else {
      WordsAt(ws[..n], i, last + rest);
    }
  }

  lemma {:induction false} WordsFrom(ws: seq<uint32>, b: seq<byte>)
    requires 4 * |ws| <= |b|
    requires forall i :: 0 <= i < |ws| ==> GetLe32(b, 4 * i) == ws[i]
    ensures Words(ws) == b[..4 * |ws|]
  {
    if ws != [] {
      var n := |ws| - 1;
      forall i | 0 <= i < n ensures GetLe32(b, 4 * i) == ws[..n][i] {
      }
      WordsFrom(ws[..n], b);
      Le32Inverse(b, 4 * n);
      assert b[..4 * |ws|] == b[..4 * n] + b[4 * n..4 * n + 4];
    }
  }

  // Wrapping counters.

  lemma WrapDifference(a: nat, b: nat)
    requires b <= a < b + WORD_SPAN
    ensures Wrap32(Wrap32(a) - Wrap32(b)) == a - b
  {
    var qa, qb := a / WORD_SPAN, b / WORD_SPAN;
    var d := a - b;
    assert Wrap32(a) - Wrap32(b) == d - WORD_SPAN * (qa - qb);
    assert qa == qb || qa == qb + 1;
  }

  lemma WrapEqual(a: nat, b: nat)
    requires b <= a < b + WORD_SPAN
    ensures Wrap32(a) == Wrap32(b) <==> a == b
  {
    WrapDifference(a, b);
  }

  lemma WrapNext(a: nat)
    ensures Wrap32(Wrap32(a) + 1) == Wrap32(a + 1)
  {
  }
}
