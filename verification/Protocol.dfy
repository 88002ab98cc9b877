/** FMGO framing: a 16-byte header and a bounded payload, assembled from arbitrary fragments. */
module Protocol {
  import opened Bytes

  const HEADER := 16
  const MAX_PAYLOAD := 4096
  const MIN_OFFER := 512
  const MAX_OFFER := 65536
  const MAGIC: seq<byte> := [0x46, 0x4d, 0x47, 0x4f] // "FMGO"

  const REQUEST: byte := 1
  const RESPONSE: byte := 2
  const SERIAL: byte := 3
  const UPLOAD: byte := 4
  const EVENT: byte := 5

  datatype Frame = Frame(kind: byte, request: uint32, payload: seq<byte>)

  predicate ValidFields(kind: byte, request: uint32) {
    1 <= kind <= 5 && if kind == SERIAL || kind == EVENT then request == 0 else request != 0
  }

  predicate ValidFrame(f: Frame) {
    ValidFields(f.kind, f.request) && |f.payload| <= MAX_PAYLOAD
  }

  function Header(kind: byte, request: uint32, size: uint32): (h: seq<byte>)
    ensures |h| == HEADER
  {
    MAGIC + [1, kind, 0, 0] + Be32(request) + Be32(size)
  }

  /** The wire form of a valid frame. */
  function Wire(f: Frame): seq<byte>
    requires ValidFrame(f)
  {
    Header(f.kind, f.request, |f.payload|) + f.payload
  }

  function WireAll(fs: seq<Frame>): seq<byte>
    requires forall i :: 0 <= i < |fs| ==> ValidFrame(fs[i])
  {
    if fs == [] then [] else Wire(fs[0]) + WireAll(fs[1..])
  }

  /** encode(): the bytes written, none when the fields, capacity or size are unacceptable. */
  function Encode(capacity: nat, f: Frame): (b: seq<byte>)
    ensures b != [] <==> ValidFrame(f) && HEADER + |f.payload| <= capacity
    ensures b != [] ==> b == Wire(f)
  {
    if |f.payload| > MAX_PAYLOAD || capacity < HEADER + |f.payload| || !ValidFields(f.kind, f.request) then []
    else Wire(f)
  }

  // ---- The decoder ----

  datatype Status = Incomplete | Ready | Malformed | UnsupportedVersion | Oversized

  datatype Decoder = Decoder(bytes: seq<byte>, limit: nat, status: Status)

  function Fresh(limit: nat): Decoder {
    Decoder([], limit, Incomplete)
  }

  function Reset(d: Decoder): Decoder {
    d.(bytes := [], status := Incomplete)
  }

  function Size(bytes: seq<byte>): uint32
    requires |bytes| >= HEADER
  {
    GetBe32(bytes, 12)
  }

  /** What a completed header means; Ready here says only that it is acceptable. */
  function Check(bytes: seq<byte>, limit: nat): (s: Status)
    requires |bytes| >= HEADER
    ensures s != Incomplete
  {
    if bytes[..4] != MAGIC || GetBe16(bytes, 6) != 0 || !ValidFields(bytes[5], GetBe32(bytes, 8)) then Malformed
    else if bytes[4] != 1 then UnsupportedVersion
    else if Size(bytes) > limit then Oversized
    else Ready
  }

  function Needed(d: Decoder): int {
    if !d.status.Incomplete? then 0
    else if |d.bytes| < HEADER then HEADER - |d.bytes|
    else HEADER + Size(d.bytes) - |d.bytes|
  }

  function Fed(d: Decoder, input: seq<byte>): (r: (Decoder, nat))
    ensures r.1 <= |input|
  {
    var count := Min(|input|, Needed(d));
    if count <= 0 then (d, 0)
    else
      var bytes := d.bytes + input[..count];
      (d.(bytes := bytes, status := After(bytes, d.limit, d.status)), count)
  }

  function After(bytes: seq<byte>, limit: nat, status: Status): Status {
    if |bytes| < HEADER then status
    else
      var c := Check(bytes, limit);
      if c != Ready then c else if |bytes| == HEADER + Size(bytes) then Ready else status
  }

  function Negotiated(d: Decoder, offer: uint32): (r: (Decoder, bool))
  {
    if d.bytes != [] || !d.status.Incomplete? || offer < MIN_OFFER || offer > MAX_OFFER then (d, false)
    else (d.(limit := Min(MAX_PAYLOAD, offer)), true)
  }

  predicate ValidDecoder(d: Decoder) {
    && d.limit <= MAX_PAYLOAD
    && match d.status
       case Incomplete =>
         |d.bytes| < HEADER || (Check(d.bytes, d.limit) == Ready && |d.bytes| < HEADER + Size(d.bytes))
       case Ready =>
         |d.bytes| >= HEADER && Check(d.bytes, d.limit) == Ready && |d.bytes| == HEADER + Size(d.bytes)
       case _ => |d.bytes| == HEADER && Check(d.bytes, d.limit) == d.status
  }

  function FrameOf(d: Decoder): Frame
    requires d.status.Ready? && |d.bytes| >= HEADER
  {
    Frame(d.bytes[5], GetBe32(d.bytes, 8), d.bytes[HEADER..])
  }

  lemma CheckHeader(a: seq<byte>, b: seq<byte>, limit: nat)
    requires |a| >= HEADER
    ensures Check(a + b, limit) == Check(a, limit) && Size(a + b) == Size(a)
  {
    hide Join;
    assert (a + b)[..4] == a[..4];
  }

  /** feed() never takes more than the frame needs, keeps the decoder valid, makes progress while
      incomplete, and a rejected header holds exactly its 16 bytes. */
  lemma FeedValid(d: Decoder, input: seq<byte>)
    requires ValidDecoder(d)
    ensures ValidDecoder(Fed(d, input).0)
    ensures d.status.Incomplete? && input != [] ==> Fed(d, input).1 > 0
    ensures Fed(d, input).0.bytes == d.bytes + input[..Fed(d, input).1]
    ensures Fed(d, input).0.status.Ready? ==> |Fed(d, input).0.bytes| >= HEADER
  {
    hide Join;
    var count := Min(|input|, Needed(d));
    if count > 0 && |d.bytes| >= HEADER {
      CheckHeader(d.bytes, input[..count], d.limit);
    }
  }

  // ---- Whole streams ----

  /** Feed repeatedly, taking each ready frame and resetting, until the input or the stream ends. */
  function Consume(d: Decoder, input: seq<byte>): (r: (seq<Frame>, Decoder))
    requires ValidDecoder(d) && !d.status.Ready?
    ensures ValidDecoder(r.1) && !r.1.status.Ready?
    decreases |input|
  {
    if input == [] || !d.status.Incomplete? then ([], d)
    else
      FeedValid(d, input);
      var (d1, n) := Fed(d, input);
      if d1.status.Ready? then
        var (fs, d2) := Consume(Reset(d1), input[n..]);
        ([FrameOf(d1)] + fs, d2)
      else Consume(d1, input[n..])
  }

  function ConsumeAll(d: Decoder, fragments: seq<seq<byte>>): (seq<Frame>, Decoder)
    requires ValidDecoder(d) && !d.status.Ready?
    decreases |fragments|
  {
    if fragments == [] then ([], d)
    else
      var (fs, d1) := Consume(d, fragments[0]);
      var (rest, d2) := ConsumeAll(d1, fragments[1..]);
      (fs + rest, d2)
  }

  function Concat(fragments: seq<seq<byte>>): seq<byte> {
    if fragments == [] then [] else fragments[0] + Concat(fragments[1..])
  }

  lemma FeedSplit(d: Decoder, a: seq<byte>, b: seq<byte>)
    requires ValidDecoder(d) && d.status.Incomplete? && |a| < Needed(d) && b != []
    ensures var (d1, n1) := Fed(d, a);
      && n1 == |a| && d1.status.Incomplete? && ValidDecoder(d1)
      && Fed(d1, b).0 == Fed(d, a + b).0 && Fed(d1, b).1 + |a| == Fed(d, a + b).1
  {
    hide Join;
    FeedValid(d, a);
    if a == [] {
      assert a + b == b;
    } else {
      var (d1, n1) := Fed(d, a);
      assert a[..n1] == a;
      if |d.bytes| >= HEADER {
        CheckHeader(d.bytes, a, d.limit);
      }
      var n := Fed(d, a + b).1;
      assert d.bytes + (a + b)[..n] == d.bytes + a + b[..n - |a|];
    }
  }

  /** Cutting the input anywhere changes nothing. */
  lemma {:induction false} ConsumeSplit(d: Decoder, a: seq<byte>, b: seq<byte>)
    requires ValidDecoder(d) && !d.status.Ready?
    ensures var (fs, d1) := Consume(d, a); var (gs, d2) := Consume(d1, b);
      Consume(d, a + b) == (fs + gs, d2)
    decreases |a|
  {
    hide Fed, ValidDecoder, Check;
    if a == [] {
      assert a + b == b && [] + Consume(d, b).0 == Consume(d, b).0;
    } else if b == [] {
      assert a + b == a;
      assert Consume(d, a).0 + [] == Consume(d, a).0;
    } else if d.status.Incomplete? {
      if |a| < Needed(d) {
        ConsumeShort(d, a, b);
        assert [] + Consume(d, a + b).0 == Consume(d, a + b).0;
      } else {
        SameFeed(d, a, b);
        FeedValid(d, a);
        var (d1, n) := Fed(d, a);
        assert (a + b)[n..] == a[n..] + b;
        var next := if d1.status.Ready? then ResetValid(d1); Reset(d1) else d1;
        ConsumeSplit(next, a[n..], b);
        var (fs, e) := Consume(next, a[n..]);
        var gs := Consume(e, b).0;
        if d1.status.Ready? {
          assert [FrameOf(d1)] + (fs + gs) == [FrameOf(d1)] + fs + gs;
        }
      }
    }
  }

  lemma ResetValid(d: Decoder)
    requires ValidDecoder(d)
    ensures ValidDecoder(Reset(d))
  {
  }

  lemma SameFeed(d: Decoder, a: seq<byte>, b: seq<byte>)
    requires ValidDecoder(d) && d.status.Incomplete? && Needed(d) <= |a|
    ensures Fed(d, a + b) == Fed(d, a)
  {
    hide Join;
    var n := Needed(d);
    assert n >= 0 ==> (a + b)[..n] == a[..n];
  }

  lemma ConsumeShort(d: Decoder, a: seq<byte>, b: seq<byte>)
    requires ValidDecoder(d) && d.status.Incomplete? && 0 < |a| < Needed(d) && b != []
    ensures Consume(d, a).0 == [] && Consume(Consume(d, a).1, b) == Consume(d, a + b)
  {
    hide Fed, ValidDecoder, Check;
    FeedSplit(d, a, b);
    FeedValid(d, a);
    var (d1, n1) := Fed(d, a);
    assert a[n1..] == [];
    var n := Fed(d, a + b).1;
    assert (a + b)[n..] == b[Fed(d1, b).1..];
  }

  predicate Fits(fs: seq<Frame>, limit: nat) {
    forall i :: 0 <= i < |fs| ==> ValidFrame(fs[i]) && |fs[i].payload| <= limit
  }

  lemma WireFields(f: Frame, rest: seq<byte>, limit: nat)
    requires ValidFrame(f) && |f.payload| <= limit
    ensures var b := Header(f.kind, f.request, |f.payload|) + rest;
      Check(b, limit) == Ready && Size(b) == |f.payload| && b[5] == f.kind && GetBe32(b, 8) == f.request
  {
    hide Join;
    var b := Header(f.kind, f.request, |f.payload|) + rest;
    assert b[..4] == MAGIC;
    assert b[8..12] == Be32(f.request) && b[12..16] == Be32(|f.payload|);
    GetBe32Inverse(b, 8, f.request);
    GetBe32Inverse(b, 12, |f.payload|);
    assert GetBe16(b, 6) == 0 by { ZeroField(b); }
  }

  lemma ZeroField(b: seq<byte>)
    requires |b| >= 8 && b[6] == 0 && b[7] == 0
    ensures GetBe16(b, 6) == 0
  {
  }

  lemma FeedHeader(f: Frame, limit: nat)
    requires ValidFrame(f) && |f.payload| <= limit
    ensures var h := Header(f.kind, f.request, |f.payload|);
      Fed(Fresh(limit), Wire(f)) == (Decoder(h, limit, if f.payload == [] then Ready else Incomplete), HEADER)
  {
    hide Join, Check, Size;
    var h := Header(f.kind, f.request, |f.payload|);
    WireFields(f, [], limit);
    assert h + [] == h;
    assert Wire(f)[..HEADER] == h && [] + h == h;
  }

  lemma FeedPayload(f: Frame, limit: nat)
    requires ValidFrame(f) && |f.payload| <= limit && f.payload != []
    ensures var h := Header(f.kind, f.request, |f.payload|);
      Fed(Decoder(h, limit, Incomplete), f.payload) == (Decoder(Wire(f), limit, Ready), |f.payload|)
  {
    hide Join, Check, Size;
    var h := Header(f.kind, f.request, |f.payload|);
    WireFields(f, [], limit);
    WireFields(f, f.payload, limit);
    assert h + [] == h;
    assert f.payload[..|f.payload|] == f.payload;
  }

  lemma WireIsFrame(f: Frame, limit: nat)
    requires ValidFrame(f) && |f.payload| <= limit
    ensures FrameOf(Decoder(Wire(f), limit, Ready)) == f
  {
    hide Join;
    WireFields(f, f.payload, limit);
    assert Wire(f)[HEADER..] == f.payload;
  }

  /** A whole frame is taken in one or two feeds and comes out as it went in. */
  lemma ConsumeFrame(f: Frame, limit: nat)
    requires ValidFrame(f) && |f.payload| <= limit <= MAX_PAYLOAD
    ensures Consume(Fresh(limit), Wire(f)) == ([f], Fresh(limit))
  {
    hide Join, Check, Size, Fed, Header, ValidDecoder, FrameOf;
    FreshValid(limit);
    FeedHeader(f, limit);
    WireIsFrame(f, limit);
    FeedValid(Fresh(limit), Wire(f));
    var (d1, n) := Fed(Fresh(limit), Wire(f));
    assert Wire(f)[n..] == f.payload;
    assert Consume(Fresh(limit), []) == ([], Fresh(limit));
    assert [f] + [] == [f];
    if f.payload != [] {
      FeedPayload(f, limit);
      assert f.payload[|f.payload|..] == [];
    } else {
      assert Wire(f) == d1.bytes;
    }
  }

  lemma {:induction false} ConsumeFrames(fs: seq<Frame>, limit: nat)
    requires Fits(fs, limit) && limit <= MAX_PAYLOAD
    ensures Consume(Fresh(limit), WireAll(fs)) == (fs, Fresh(limit))
    decreases |fs|
  {
    hide Wire, ValidDecoder, Fed;
    if fs != [] {
      ConsumeFrame(fs[0], limit);
      ConsumeFrames(fs[1..], limit);
      FreshValid(limit);
      ConsumeSplit(Fresh(limit), Wire(fs[0]), WireAll(fs[1..]));
      assert [fs[0]] + fs[1..] == fs;
    } else {
      FreshValid(limit);
    }
  }

  lemma FreshValid(limit: nat)
    requires limit <= MAX_PAYLOAD
    ensures ValidDecoder(Fresh(limit))
  {
  }

  lemma {:induction false} ConsumeAllIsConsume(d: Decoder, fragments: seq<seq<byte>>)
    requires ValidDecoder(d) && !d.status.Ready?
    ensures ConsumeAll(d, fragments) == Consume(d, Concat(fragments))
    decreases |fragments|
  {
    hide Fed, ValidDecoder;
    if fragments != [] {
      var d1 := Consume(d, fragments[0]).1;
      ConsumeAllIsConsume(d1, fragments[1..]);
      ConsumeSplit(d, fragments[0], Concat(fragments[1..]));
    }
  }

  /** Every fragmentation of the concatenated encodings yields exactly the frames, in order. */
  lemma Fragmentation(fs: seq<Frame>, limit: nat, fragments: seq<seq<byte>>)
    requires Fits(fs, limit) && limit <= MAX_PAYLOAD && Concat(fragments) == WireAll(fs)
    ensures ConsumeAll(Fresh(limit), fragments) == (fs, Fresh(limit))
  {
    ConsumeFrames(fs, limit);
    ConsumeAllIsConsume(Fresh(limit), fragments);
  }

  /** An unacceptable header stops the stream at byte 16, whatever follows. */
  lemma BadHeader(h: seq<byte>, rest: seq<byte>, limit: nat)
    requires |h| == HEADER && limit <= MAX_PAYLOAD && Check(h, limit) != Ready
    ensures Consume(Fresh(limit), h + rest) == ([], Decoder(h, limit, Check(h, limit)))
  {
    hide Join, Check;
    var (d, n) := Fed(Fresh(limit), h + rest);
    assert n == HEADER && (h + rest)[..n] == h && [] + h == h;
  }

  lemma HeaderOf(b: seq<byte>, limit: nat)
    requires |b| >= HEADER && Check(b, limit) == Ready
    ensures b[..HEADER] == Header(b[5], GetBe32(b, 8), Size(b))
  {
    hide Join;
    Be32Inverse(b, 8);
    Be32Inverse(b, 12);
    ZeroBytes(b);
    assert b[..HEADER] == b[..4] + b[4..8] + b[8..12] + b[12..16];
    assert b[4..8] == [1, b[5], 0, 0];
  }

  lemma ZeroBytes(b: seq<byte>)
    requires |b| >= 8 && GetBe16(b, 6) == 0
    ensures b[6] == 0 && b[7] == 0
  {
  }

  lemma ReadyIsWire(d: Decoder)
    requires ValidDecoder(d) && d.status.Ready?
    ensures ValidFrame(FrameOf(d)) && Wire(FrameOf(d)) == d.bytes
  {
    hide Join;
    HeaderOf(d.bytes, d.limit);
    assert d.bytes == d.bytes[..HEADER] + d.bytes[HEADER..];
  }

  lemma WireCons(f: Frame, fs: seq<Frame>)
    requires ValidFrame(f) && forall i :: 0 <= i < |fs| ==> ValidFrame(fs[i])
    ensures WireAll([f] + fs) == Wire(f) + WireAll(fs)
  {
    hide Wire, ValidFrame;
    assert ([f] + fs)[1..] == fs;
  }

  lemma Prefixed(a: seq<byte>, b: seq<byte>, c: seq<byte>, d: seq<byte>)
    requires b + c <= d
    ensures a + b + c <= a + d
    ensures b + c == d ==> a + b + c == a + d
  {
    assert a + b + c == a + (b + c);
  }

  /** Whatever arrives, the frames taken are the stream's own bytes: their encodings followed by the
      unfinished frame and by what a rejected header leaves unread. */
  lemma {:induction false} ConsumeSound(d: Decoder, input: seq<byte>)
    requires ValidDecoder(d) && !d.status.Ready?
    ensures var (fs, d1) := Consume(d, input);
      && (forall i :: 0 <= i < |fs| ==> ValidFrame(fs[i]))
      && WireAll(fs) + d1.bytes <= d.bytes + input
      && (d1.status.Incomplete? ==> WireAll(fs) + d1.bytes == d.bytes + input)
    decreases |input|
  {
    hide Fed, ValidDecoder, Check, Wire, ValidFrame, FrameOf;
    if input != [] && d.status.Incomplete? {
      FeedValid(d, input);
      var (d1, n) := Fed(d, input);
      assert d.bytes + input == d1.bytes + input[n..];
      if d1.status.Ready? {
        ResetValid(d1);
        ReadyIsWire(d1);
        var (fs, d2) := Consume(Reset(d1), input[n..]);
        ConsumeSound(Reset(d1), input[n..]);
        WireCons(FrameOf(d1), fs);
        assert [] + input[n..] == input[n..];
        Prefixed(d1.bytes, WireAll(fs), d2.bytes, input[n..]);
      } else {
        ConsumeSound(d1, input[n..]);
      }
    } else {
      assert [] + d.bytes == d.bytes;
    }
  }

  lemma NeededRoom(d: Decoder)
    requires ValidDecoder(d)
    ensures 0 <= Needed(d) <= HEADER + MAX_PAYLOAD - |d.bytes|
  {
  }

  // ---- Encoding in place ----

  /** encode() refuses exactly the frames that no byte string within the capacity decodes to, and what it
      writes decodes to the frame and nothing else. */
  lemma EncodeIff(capacity: nat, f: Frame)
    ensures Encode(capacity, f) != [] <==>
      exists b: seq<byte> :: |b| <= capacity && Consume(Fresh(MAX_PAYLOAD), b).0 == [f]
    ensures Encode(capacity, f) != [] ==>
      Consume(Fresh(MAX_PAYLOAD), Encode(capacity, f)) == ([f], Fresh(MAX_PAYLOAD))
  {
    hide Consume, Header, ValidFields;
    if Encode(capacity, f) != [] {
      ConsumeFrame(f, MAX_PAYLOAD);
      assert |Encode(capacity, f)| <= capacity;
    }
    forall b: seq<byte> | |b| <= capacity && Consume(Fresh(MAX_PAYLOAD), b).0 == [f]
      ensures ValidFrame(f) && HEADER + |f.payload| <= capacity
    {
      ConsumeSound(Fresh(MAX_PAYLOAD), b);
      assert ValidFrame([f][0]);
      WireCons(f, []);
      assert [f] + [] == [f];
    }
  }

  method Put32(out: array<byte>, at: nat, x: uint32)
    requires at + 4 <= out.Length
    modifies out
    ensures out[..] == old(out[..at]) + Be32(x) + old(out[at + 4..])
  {
    hide Be32, Weight;
    for i := 0 to 4
      invariant forall k :: 0 <= k < out.Length && !(at <= k < at + i) ==> out[k] == old(out[k])
      invariant forall k :: at <= k < at + i ==> out[k] == Be32(x)[k - at]
    {
      WeightDigits(x, i);
      out[at + i] := x / Weight(i) % 256;
    }
  }

  method PutHeader(out: array<byte>, kind: byte, request: uint32, size: uint32)
    requires HEADER <= out.Length
    modifies out
    ensures out[..] == Header(kind, request, size) + old(out[HEADER..])
  {
    hide Be32;
    out[0], out[1], out[2], out[3] := 0x46, 0x4d, 0x47, 0x4f;
    out[4], out[5], out[6], out[7] := 1, kind, 0, 0;
    ghost var start, rest, s0 := MAGIC + [1, kind, 0, 0], old(out[HEADER..]), out[..];
    assert s0[..8] == start && s0[HEADER..] == rest;
    Put32(out, 8, request);
    ghost var s1 := out[..];
    assert s1 == s0[..8] + Be32(request) + s0[12..];
    Spliced(s0, Be32(request), 8);
    Put32(out, 12, size);
    assert out[..] == s1[..12] + Be32(size) + s1[16..];
  }

  lemma Spliced(s: seq<byte>, x: seq<byte>, at: nat)
    requires |x| == 4 && at + 8 <= |s|
    ensures var t := s[..at] + x + s[at + 4..]; t[..at + 4] == s[..at] + x && t[at + 8..] == s[at + 8..]
  {
  }

  method CopyTo(out: array<byte>, at: nat, data: seq<byte>)
    requires at + |data| <= out.Length
    modifies out
    ensures out[..] == old(out[..at]) + data + old(out[at + |data|..])
  {
    forall i | 0 <= i < |data| {
      out[at + i] := data[i];
    }
  }

  /** encode(): the header fields one by one and then the payload, or nothing written at all. */
  method EncodeInto(out: array<byte>, kind: byte, request: uint32, payload: seq<byte>) returns (n: nat)
    modifies out
    ensures n <= out.Length && out[..n] == Encode(out.Length, Frame(kind, request, payload))
    ensures out[n..] == old(out[n..])
    ensures n > 0 ==> Consume(Fresh(MAX_PAYLOAD), out[..n]) == ([Frame(kind, request, payload)], Fresh(MAX_PAYLOAD))
  {
    hide Consume, ValidFields, Header;
    EncodeIff(out.Length, Frame(kind, request, payload));
    if |payload| > MAX_PAYLOAD || out.Length < HEADER + |payload| || !ValidFields(kind, request) {
      return 0;
    }
    n := HEADER + |payload|;
    PutHeader(out, kind, request, |payload|);
    ghost var header := Header(kind, request, |payload|);
    CopyTo(out, HEADER, payload);
    assert out[..HEADER] == header;
    assert out[..n] == header + payload;
  }

  // ---- The decoder as the firmware keeps it: one fixed buffer ----

  class FrameDecoder {
    const bytes: array<byte>
    var used: nat
    var limit: nat
    var status: Status

    ghost predicate Valid()
      reads this, bytes
    {
      bytes.Length == HEADER + MAX_PAYLOAD && used <= bytes.Length && ValidDecoder(View())
    }

    ghost function View(): Decoder
      requires used <= bytes.Length
      reads this, bytes
    {
      Decoder(bytes[..used], limit, status)
    }

    constructor ()
      ensures Valid() && fresh(bytes) && View() == Fresh(MAX_PAYLOAD)
    {
      bytes := new byte[HEADER + MAX_PAYLOAD];
      used, limit, status := 0, MAX_PAYLOAD, Incomplete;
    }

    method StartOver()
      requires Valid()
      modifies this
      ensures Valid() && View() == Reset(old(View()))
    {
      used, status := 0, Incomplete;
    }

    method Needs() returns (n: int)
      requires Valid()
      ensures n == Needed(View())
    {
      hide Join;
      if !status.Incomplete? {
        n := 0;
      } else if used < HEADER {
        n := HEADER - used;
      } else {
        assert bytes[..used][12..16] == bytes[12..16];
        n := HEADER + GetBe32(bytes[..used], 12) - used;
      }
    }

    method Feed(input: array<byte>, from: nat) returns (count: nat)
      requires Valid() && from <= input.Length && input != bytes
      modifies this, bytes
      ensures Valid() && (View(), count) == Fed(old(View()), input[from..])
    {
      hide Join, GetBe16, GetBe32, Check, ValidDecoder;
      ghost var d := View();
      ghost var rest := input[from..];
      FeedValid(d, rest);
      NeededRoom(d);
      var needed := Needs();
      count := Min(input.Length - from, needed);
      if count == 0 {
        return;
      }
      forall i | 0 <= i < count {
        bytes[used + i] := input[from + i];
      }
      used := used + count;
      assert bytes[..used] == d.bytes + rest[..count] && input[from..] == rest;
      Judge();
    }

    /** The state after new bytes: the header tests in order, then whether the frame is whole. */
    method Judge()
      requires used <= bytes.Length
      modifies this`status
      ensures status == After(bytes[..used], limit, old(status))
    {
      hide Join;
      if used >= HEADER {
        var held := bytes[..used];
        var size := GetBe32(held, 12);
        if held[..4] != MAGIC || GetBe16(held, 6) != 0 || !ValidFields(held[5], GetBe32(held, 8)) {
          status := Malformed;
        } else if held[4] != 1 {
          status := UnsupportedVersion;
        } else if size > limit {
          status := Oversized;
        } else if used == HEADER + size {
          status := Ready;
        }
      }
    }

    method Negotiate(offer: uint32) returns (ok: bool)
      requires Valid()
      modifies this
      ensures Valid() && (View(), ok) == Negotiated(old(View()), offer)
    {
      ok := used == 0 && status.Incomplete? && MIN_OFFER <= offer <= MAX_OFFER;
      if ok {
        limit := Min(MAX_PAYLOAD, offer);
      }
    }
  }
}
