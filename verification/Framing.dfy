/** The bytes of an FMGO header, one by one. */
module Framing {
  import opened Bytes
  import opened Protocol

  /** Four bytes in network order. */
  function Number(b0: int, b1: int, b2: int, b3: int): int {
    ((b0 * 256 + b1) * 256 + b2) * 256 + b3
  }

  /** Type 1 to 5, and request ID zero exactly for serial data and events. */
  predicate Typed(kind: int, request: seq<byte>) {
    1 <= kind <= 5 && (request == [0, 0, 0, 0] <==> kind == 3 || kind == 5)
  }

  /** What each byte of a header decides: identity and type first, then the version, then the size. */
  lemma HeaderVerdict(h: seq<byte>, limit: nat)
    requires |h| == 16
    ensures Check(h, limit) ==
      if h[..4] != [0x46, 0x4d, 0x47, 0x4f] || h[6] != 0 || h[7] != 0 || !Typed(h[5], h[8..12]) then Malformed
      else if h[4] != 1 then UnsupportedVersion
      else if Number(h[12], h[13], h[14], h[15]) > limit then Oversized
      else Ready
  {
    assert GetBe32(h, 8) == 0 <==> h[8..12] == [0, 0, 0, 0] by { ZeroWord(h, 8); }
    assert GetBe16(h, 6) == 0 <==> h[6] == 0 && h[7] == 0;
    assert GetBe32(h, 12) == Number(h[12], h[13], h[14], h[15]);
  }

  lemma ZeroWord(b: seq<byte>, at: nat)
    requires at + 4 <= |b|
    ensures GetBe32(b, at) == 0 <==> b[at..at + 4] == [0, 0, 0, 0]
  {
    assert b[at..at + 4] == [b[at], b[at + 1], b[at + 2], b[at + 3]];
  }

  /** Where everything stands in an encoded frame. */
  lemma WireLayout(f: Frame)
    requires ValidFrame(f)
    ensures var b := Wire(f);
      && |b| == 16 + |f.payload| && b[..4] == [0x46, 0x4d, 0x47, 0x4f] && b[4] == 1 && b[5] == f.kind && b[6] == b[7] == 0
      && Number(b[8], b[9], b[10], b[11]) == f.request && Number(b[12], b[13], b[14], b[15]) == |f.payload| && b[16..] == f.payload
  {
    hide Be32;
    var b := Wire(f);
    assert b[8..12] == Be32(f.request) && b[12..16] == Be32(|f.payload|);
    GetBe32Inverse(b, 8, f.request);
    GetBe32Inverse(b, 12, |f.payload|);
    assert b[..16] == Header(f.kind, f.request, |f.payload|);
  }
}
