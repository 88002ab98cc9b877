/**
 JSON strings: raw UTF-8, short escapes, \u escapes and surrogate pairs, decoded
 to bounded UTF-8 (RFC 8259 section 7, RFC 3629 section 3).
 */
module JsonText {
  import opened Bytes

  const MAX_STRING := 64
  const QUOTE: byte := 0x22
  const BACKSLASH: byte := 0x5c

  // ---- Characters and their spellings ----

  /** A Unicode scalar value other than NUL. */
  predicate Scalar(cp: int) {
    0 < cp <= 0x10ffff && !(0xd800 <= cp <= 0xdfff)
  }

  /** Shifting by 12 and 18 bits is written as repeated shifts by 6. */
  function Utf8(cp: int): (s: seq<byte>)
    requires Scalar(cp)
    ensures 1 <= |s| <= 4
  {
    if cp < 0x80 then [cp]
    else
      var x, d := cp / 64, 0x80 + cp % 64;
      if cp < 0x800 then [0xc0 + x, d]
      else
        var y, c := x / 64, 0x80 + x % 64;
        if cp < 0x10000 then [0xe0 + y, c, d] else [0xf0 + y / 64, 0x80 + y % 64, c, d]
  }

  function Hex(b: byte): int {
    if 0x30 <= b <= 0x39 then b - 0x30
    else if 0x61 <= b <= 0x66 then b - 0x61 + 10
    else if 0x41 <= b <= 0x46 then b - 0x41 + 10
    else -1
  }

  /** The character a short escape stands for, 0 when it stands for none. */
  function Short(b: byte): int {
    if b == 0x22 then 0x22 else if b == 0x5c then 0x5c else if b == 0x2f then 0x2f
    else if b == 0x62 then 8 else if b == 0x66 then 12 else if b == 0x6e then 10
    else if b == 0x72 then 13 else if b == 0x74 then 9 else 0
  }

  /** Four hex digits, either case. */
  predicate IsHex4(s: seq<byte>, v: int) {
    && |s| == 4 && Hex(s[0]) >= 0 && Hex(s[1]) >= 0 && Hex(s[2]) >= 0 && Hex(s[3]) >= 0
    && v == ((Hex(s[0]) * 16 + Hex(s[1])) * 16 + Hex(s[2])) * 16 + Hex(s[3])
  }

  predicate High(v: int) {
    0xd800 <= v <= 0xdbff
  }

  predicate Low(v: int) {
    0xdc00 <= v <= 0xdfff
  }

  function Paired(high: int, low: int): int {
    0x10000 + (high - 0xd800) * 1024 + low - 0xdc00
  }

  predicate RawSpelling(s: seq<byte>, cp: int)
    requires Scalar(cp)
  {
    cp >= 0x20 && cp != 0x22 && cp != 0x5c && s == Utf8(cp)
  }

  predicate ShortSpelling(s: seq<byte>, cp: int) {
    |s| == 2 && s[0] == BACKSLASH && Short(s[1]) == cp
  }

  predicate UnicodeSpelling(s: seq<byte>, cp: int) {
    |s| == 6 && s[..2] == [BACKSLASH, 0x75] && IsHex4(s[2..6], cp)
  }

  ghost predicate PairSpelling(s: seq<byte>, cp: int) {
    && |s| == 12 && s[..2] == [BACKSLASH, 0x75] && s[6..8] == [BACKSLASH, 0x75]
    && exists high, low :: IsHex4(s[2..6], high) && IsHex4(s[8..12], low) && High(high) && Low(low) && cp == Paired(high, low)
  }

  /** Every way RFC 8259 lets a string spell one character. */
  ghost predicate Spells(s: seq<byte>, cp: int) {
    Scalar(cp) && (RawSpelling(s, cp) || ShortSpelling(s, cp) || UnicodeSpelling(s, cp) || PairSpelling(s, cp))
  }

  // ---- Reading one character ----

  datatype Char = Char(cp: int, next: nat)

  function Hex4(b: seq<byte>, p: nat): Option<int> {
    if p + 4 > |b| then None
    else
      var h0, h1, h2, h3 := Hex(b[p]), Hex(b[p + 1]), Hex(b[p + 2]), Hex(b[p + 3]);
      if h0 < 0 || h1 < 0 || h2 < 0 || h3 < 0 then None else Some(((h0 * 16 + h1) * 16 + h2) * 16 + h3)
  }

  function ReadUnicode(b: seq<byte>, p: nat): Option<Char> {
    match Hex4(b, p)
    case None => None
    case Some(v) =>
      if High(v) then
        if p + 10 > |b| || b[p + 4] != BACKSLASH || b[p + 5] != 0x75 then None
        else
          match Hex4(b, p + 6)
          case None => None
          case Some(w) => if Low(w) then Some(Char(Paired(v, w), p + 10)) else None
      else if Low(v) then None
      else Some(Char(v, p + 4))
  }

  function ReadEscape(b: seq<byte>, p: nat): Option<Char> {
    if p >= |b| then None
    else if b[p] == 0x75 then ReadUnicode(b, p + 1)
    else if Short(b[p]) != 0 then Some(Char(Short(b[p]), p + 1))
    else None
  }

  predicate Tail(b: byte) {
    0x80 <= b < 0xc0
  }

  /** Six more bits. */
  function Six(cp: int, b: byte): int {
    cp * 64 + b - 0x80
  }

  /** `cp` and the low six bits of each of the next `n` bytes. */
  function Continue(b: seq<byte>, p: nat, n: nat, cp: int): Option<int>
    requires p + n <= |b|
    decreases n
  {
    if n == 0 then Some(cp)
    else if !Tail(b[p]) then None
    else Continue(b, p + 1, n - 1, Six(cp, b[p]))
  }

  function Lead(c: byte): (r: (int, nat, int)) {
    if 0xc2 <= c <= 0xdf then (c - 0xc0, 1, 0x80)
    else if 0xe0 <= c <= 0xef then (c - 0xe0, 2, 0x800)
    else if 0xf0 <= c <= 0xf4 then (c - 0xf0, 3, 0x10000)
    else (0, 0, 0)
  }

  function ReadMulti(b: seq<byte>, p: nat): Option<Char>
    requires p < |b|
  {
    var (bits, n, minimum) := Lead(b[p]);
    if n == 0 || p + 1 + n > |b| then None
    else
      match Continue(b, p + 1, n, bits)
      case None => None
      case Some(cp) =>
        if cp < minimum || cp > 0x10ffff || 0xd800 <= cp <= 0xdfff then None else Some(Char(cp, p + 1 + n))
  }

  /** One character of a string body, not its closing quote. */
  function ReadChar(b: seq<byte>, p: nat): (r: Option<Char>)
    requires p < |b|
    ensures r.Some? ==> p < r.value.next <= |b|
  {
    var c := b[p];
    var r := if c < 0x20 then None
      else if c == BACKSLASH then ReadEscape(b, p + 1)
      else if c >= 0x80 then ReadMulti(b, p)
      else Some(Char(c, p + 1));
    if r.Some? && r.value.cp == 0 then None else r
  }

  // ---- UTF-8 ----

  lemma SixSplits(x: int, b: byte)
    requires Tail(b)
    ensures Six(x, b) / 64 == x && 0x80 + Six(x, b) % 64 == b
  {
  }

  lemma SixJoins(cp: int)
    ensures Tail(0x80 + cp % 64) && Six(cp / 64, 0x80 + cp % 64) == cp
  {
  }

  lemma Utf8Two(c: byte, d: byte)
    requires Lead(c).1 == 1 && Tail(d)
    ensures var cp := Six(Lead(c).0, d); 0x80 <= cp < 0x800 && Utf8(cp) == [c, d]
  {
    SixSplits(Lead(c).0, d);
  }

  lemma Utf8Three(c: byte, d: byte, e: byte)
    requires Lead(c).1 == 2 && Tail(d) && Tail(e)
    ensures var cp := Six(Six(Lead(c).0, d), e); 0 <= cp < 0x10000 && (0x800 <= cp && Scalar(cp) ==> Utf8(cp) == [c, d, e])
  {
    SixSplits(Lead(c).0, d);
    SixSplits(Six(Lead(c).0, d), e);
  }

  lemma Utf8Four(c: byte, d: byte, e: byte, f: byte)
    requires Lead(c).1 == 3 && Tail(d) && Tail(e) && Tail(f)
    ensures var cp := Six(Six(Six(Lead(c).0, d), e), f); 0x10000 <= cp && Scalar(cp) ==> Utf8(cp) == [c, d, e, f]
  {
    hide Six;
    var x := Six(Lead(c).0, d);
    var y := Six(x, e);
    SixSplits(Lead(c).0, d);
    SixSplits(x, e);
    SixSplits(y, f);
  }

  /** The bytes of a character give it back. */
  lemma Utf8Parts(cp: int)
    requires Scalar(cp) && cp >= 0x80
    ensures var s := Utf8(cp); var (bits, n, minimum) := Lead(s[0]);
      && 1 <= n <= 3 && |s| == 1 + n && minimum <= cp && s[0] >= 0x80
      && (n == 1 ==> Tail(s[1]) && cp == Six(bits, s[1]))
      && (n == 2 ==> Tail(s[1]) && Tail(s[2]) && cp == Six(Six(bits, s[1]), s[2]))
      && (n == 3 ==> Tail(s[1]) && Tail(s[2]) && Tail(s[3]) && cp == Six(Six(Six(bits, s[1]), s[2]), s[3]))
  {
    hide Six;
    var x := cp / 64;
    var y := x / 64;
    SixJoins(cp);
    SixJoins(x);
    SixJoins(y);
  }

  // ---- Reading is spelling ----

  lemma MultiSpells(b: seq<byte>, p: nat)
    requires p < |b| && ReadMulti(b, p).Some?
    ensures var c := ReadMulti(b, p).value; c.next <= |b| && Scalar(c.cp) && c.cp >= 0x80 && b[p..c.next] == Utf8(c.cp)
  {
    hide Utf8;
    var c := ReadMulti(b, p).value;
    var n := Lead(b[p]).1;
    if n == 1 {
      assert Continue(b, p + 2, 0, Six(Lead(b[p]).0, b[p + 1])).Some?;
      Utf8Two(b[p], b[p + 1]);
      assert b[p..p + 2] == [b[p], b[p + 1]];
    } else if n == 2 {
      MultiThree(b, p);
    } else {
      MultiFour(b, p);
    }
  }

  lemma MultiThree(b: seq<byte>, p: nat)
    requires p < |b| && ReadMulti(b, p).Some? && Lead(b[p]).1 == 2
    ensures var c := ReadMulti(b, p).value; c.next == p + 3 && Scalar(c.cp) && c.cp >= 0x80 && b[p..c.next] == Utf8(c.cp)
  {
    hide Utf8;
    var x := Six(Lead(b[p]).0, b[p + 1]);
    assert Continue(b, p + 2, 1, x).Some?;
    assert Continue(b, p + 3, 0, Six(x, b[p + 2])).Some?;
    Utf8Three(b[p], b[p + 1], b[p + 2]);
    assert b[p..p + 3] == [b[p], b[p + 1], b[p + 2]];
  }

  lemma MultiFour(b: seq<byte>, p: nat)
    requires p < |b| && ReadMulti(b, p).Some? && Lead(b[p]).1 == 3
    ensures var c := ReadMulti(b, p).value; c.next == p + 4 && Scalar(c.cp) && c.cp >= 0x80 && b[p..c.next] == Utf8(c.cp)
  {
    hide Utf8;
    var x := Six(Lead(b[p]).0, b[p + 1]);
    assert Continue(b, p + 2, 2, x).Some?;
    var y := Six(x, b[p + 2]);
    assert Continue(b, p + 3, 1, y).Some?;
    assert Continue(b, p + 4, 0, Six(y, b[p + 3])).Some?;
    Utf8Four(b[p], b[p + 1], b[p + 2], b[p + 3]);
    assert b[p..p + 4] == [b[p], b[p + 1], b[p + 2], b[p + 3]];
  }

  lemma UnicodeSpells(b: seq<byte>, p: nat)
    requires p < |b| && b[p] == BACKSLASH && p + 1 < |b| && b[p + 1] == 0x75
    ensures var r := ReadUnicode(b, p + 2);
      r.Some? && r.value.cp != 0 ==>
        p < r.value.next <= |b| && Scalar(r.value.cp) &&
        (UnicodeSpelling(b[p..r.value.next], r.value.cp) || PairSpelling(b[p..r.value.next], r.value.cp))
  {
    hide Hex4, IsHex4;
    var r := ReadUnicode(b, p + 2);
    if r.Some? && r.value.cp != 0 {
      var v := Hex4(b, p + 2).value;
      HexFacts(b, p + 2);
      var s := b[p..r.value.next];
      if High(v) {
        HexFacts(b, p + 8);
        var w := Hex4(b, p + 8).value;
        assert |s| == 12 && s[0] == b[p] && s[1] == b[p + 1] && s[6] == b[p + 6] && s[7] == b[p + 7];
        assert s[..2] == [BACKSLASH, 0x75] && s[6..8] == [BACKSLASH, 0x75];
        assert s[2..6] == b[p + 2..p + 6] && s[8..12] == b[p + 8..p + 12];
        assert IsHex4(s[2..6], v) && IsHex4(s[8..12], w);
      } else {
        assert s[..2] == [BACKSLASH, 0x75] && s[2..6] == b[p + 2..p + 6];
      }
    }
  }

  lemma HexFacts(b: seq<byte>, p: nat)
    ensures Hex4(b, p).Some? ==> p + 4 <= |b| && IsHex4(b[p..p + 4], Hex4(b, p).value) && 0 <= Hex4(b, p).value <= 0xffff
  {
    hide Hex;
    if p + 4 <= |b| {
      HexRange(b[p]);
      HexRange(b[p + 1]);
      HexRange(b[p + 2]);
      HexRange(b[p + 3]);
      var s := b[p..p + 4];
      assert s[0] == b[p] && s[1] == b[p + 1] && s[2] == b[p + 2] && s[3] == b[p + 3];
    }
  }

  lemma HexRange(b: byte)
    ensures -1 <= Hex(b) <= 15
  {
  }

  lemma HexReads(b: seq<byte>, p: nat, v: int)
    requires p + 4 <= |b| && IsHex4(b[p..p + 4], v)
    ensures Hex4(b, p) == Some(v)
  {
    hide Hex;
    var s := b[p..p + 4];
    assert s[0] == b[p] && s[1] == b[p + 1] && s[2] == b[p + 2] && s[3] == b[p + 3];
  }

  /** Whatever is read is a spelling of the character returned. */
  lemma ReadSpells(b: seq<byte>, p: nat)
    requires p < |b| && b[p] != QUOTE && ReadChar(b, p).Some?
    ensures var c := ReadChar(b, p).value; Spells(b[p..c.next], c.cp)
  {
    hide Utf8, ReadMulti, ReadUnicode, PairSpelling;
    var c := ReadChar(b, p).value;
    if b[p] == BACKSLASH {
      if b[p + 1] == 0x75 {
        UnicodeSpells(b, p);
      } else {
        assert b[p..p + 2] == [b[p], b[p + 1]];
        assert ShortSpelling(b[p..p + 2], c.cp);
      }
    } else if b[p] >= 0x80 {
      MultiSpells(b, p);
    } else {
      assert b[p..p + 1] == [b[p]] && Utf8(b[p]) == [b[p]] by { Ascii(b[p]); }
    }
  }

  lemma Ascii(c: byte)
    requires 0 < c < 0x80
    ensures Utf8(c) == [c]
  {
  }

  // ---- Every spelling is read ----

  lemma RawReads(b: seq<byte>, p: nat, n: nat, cp: int)
    requires p < n <= |b| && Scalar(cp) && RawSpelling(b[p..n], cp)
    ensures b[p] != QUOTE && ReadChar(b, p) == Some(Char(cp, n))
  {
    var s := b[p..n];
    assert s[0] == b[p];
    if cp >= 0x80 {
      Utf8Parts(cp);
      RawMulti(b, p, n, cp);
    } else {
      assert s == [cp];
    }
  }

  lemma RawMulti(b: seq<byte>, p: nat, n: nat, cp: int)
    requires p < n <= |b| && Scalar(cp) && cp >= 0x80 && b[p..n] == Utf8(cp)
    ensures ReadMulti(b, p) == Some(Char(cp, n))
  {
    hide Utf8;
    Utf8Parts(cp);
    var s := b[p..n];
    var (bits, k, minimum) := Lead(s[0]);
    assert s[0] == b[p] && n == p + 1 + k;
    assert forall i :: 0 <= i < |s| ==> s[i] == b[p + i];
    if k == 1 {
      assert Continue(b, p + 2, 0, cp) == Some(cp);
    } else if k == 2 {
      assert Continue(b, p + 3, 0, cp) == Some(cp);
      assert Continue(b, p + 2, 1, Six(bits, b[p + 1])) == Some(cp);
    } else {
      var x := Six(bits, b[p + 1]);
      assert Continue(b, p + 4, 0, cp) == Some(cp);
      assert Continue(b, p + 3, 1, Six(x, b[p + 2])) == Some(cp);
      assert Continue(b, p + 2, 2, x) == Some(cp);
    }
  }

  lemma UnicodeReads(b: seq<byte>, p: nat, n: nat, cp: int)
    requires p < n <= |b| && Scalar(cp) && UnicodeSpelling(b[p..n], cp)
    ensures b[p] != QUOTE && ReadChar(b, p) == Some(Char(cp, n))
  {
    hide Hex;
    var s := b[p..n];
    assert s[..2][0] == b[p] && s[..2][1] == b[p + 1] && s[2..6] == b[p + 2..p + 6];
    HexReads(b, p + 2, cp);
  }

  lemma PairReads(b: seq<byte>, p: nat, n: nat, cp: int)
    requires p < n <= |b| && Scalar(cp) && PairSpelling(b[p..n], cp)
    ensures b[p] != QUOTE && ReadChar(b, p) == Some(Char(cp, n))
  {
    hide Hex4, IsHex4;
    var s := b[p..n];
    assert s[..2][0] == b[p] && s[..2][1] == b[p + 1] && s[6..8][0] == b[p + 6] && s[6..8][1] == b[p + 7];
    assert s[2..6] == b[p + 2..p + 6] && s[8..12] == b[p + 8..p + 12];
    var high, low :| IsHex4(s[2..6], high) && IsHex4(s[8..12], low) && High(high) && Low(low) && cp == Paired(high, low);
    HexReads(b, p + 2, high);
    HexReads(b, p + 8, low);
  }

  /** Every spelling of a character, wherever it stands, is read as that character and no further. */
  lemma SpellsRead(b: seq<byte>, p: nat, n: nat, cp: int)
    requires p <= n <= |b| && Spells(b[p..n], cp)
    ensures p < n && b[p] != QUOTE && ReadChar(b, p) == Some(Char(cp, n))
  {
    hide ReadChar, IsHex4, Utf8;
    var s := b[p..n];
    if RawSpelling(s, cp) {
      RawReads(b, p, n, cp);
    } else if ShortSpelling(s, cp) {
      ShortReads(b, p, n, cp);
    } else if UnicodeSpelling(s, cp) {
      UnicodeReads(b, p, n, cp);
    } else {
      PairReads(b, p, n, cp);
    }
  }

  lemma ShortReads(b: seq<byte>, p: nat, n: nat, cp: int)
    requires p < n <= |b| && Scalar(cp) && ShortSpelling(b[p..n], cp)
    ensures b[p] != QUOTE && ReadChar(b, p) == Some(Char(cp, n))
  {
    assert b[p..n][0] == b[p] && b[p..n][1] == b[p + 1];
  }

  // ---- Whole strings ----

  datatype Read = Read(decoded: seq<byte>, end: nat)

  /** The rest of a string body with `used` bytes decoded so far, up to and with its closing quote. */
  function Body(b: seq<byte>, p: nat, used: nat, limit: int): (r: Option<Read>)
    ensures r.Some? ==> p < r.value.end <= |b|
    decreases |b| - p
  {
    if p >= |b| then None
    else if b[p] == QUOTE then if used > limit then None else Some(Read([], p + 1))
    else
      match ReadChar(b, p)
      case None => None
      case Some(c) =>
        if !Scalar(c.cp) || used + |Utf8(c.cp)| > limit then None
        else
          match Body(b, c.next, used + |Utf8(c.cp)|, limit)
          case None => None
          case Some(r) => Some(Read(Utf8(c.cp) + r.decoded, r.end))
  }

  /** text(): the string that starts at p, decoded to at most `limit` bytes. */
  function Text(b: seq<byte>, p: nat, limit: int): (r: Option<Read>)
    ensures r.Some? ==> p + 1 < r.value.end <= |b|
  {
    if p >= |b| || b[p] != QUOTE then None else Body(b, p + 1, 0, limit)
  }

  /** What the buffer allows: no buffer, or room for the bytes and a terminator. */
  function Limit(capacity: Option<nat>): int {
    match capacity case None => MAX_STRING case Some(n) => Min(MAX_STRING, n - 1)
  }

  /** A character with the spelling chosen for it. */
  datatype Glyph = Glyph(spelling: seq<byte>, cp: int)

  ghost predicate Proper(gs: seq<Glyph>) {
    forall i :: 0 <= i < |gs| ==> Spells(gs[i].spelling, gs[i].cp)
  }

  function Spelled(gs: seq<Glyph>): seq<byte> {
    if gs == [] then [] else gs[0].spelling + Spelled(gs[1..])
  }

  ghost function Encoded(gs: seq<Glyph>): seq<byte>
    requires Proper(gs)
  {
    if gs == [] then [] else Utf8(gs[0].cp) + Encoded(gs[1..])
  }

  /** The glyphs an accepted body is made of. */
  ghost function GlyphsOf(b: seq<byte>, p: nat, used: nat, limit: int): seq<Glyph>
    requires Body(b, p, used, limit).Some?
    decreases |b| - p
  {
    if b[p] == QUOTE then []
    else
      var c := ReadChar(b, p).value;
      [Glyph(b[p..c.next], c.cp)] + GlyphsOf(b, c.next, used + |Utf8(c.cp)|, limit)
  }

  lemma ReadScalar(b: seq<byte>, p: nat)
    requires p < |b| && b[p] != QUOTE && ReadChar(b, p).Some?
    ensures Scalar(ReadChar(b, p).value.cp)
  {
    hide ReadChar;
    ReadSpells(b, p);
  }

  /** Whatever text() accepts is a quoted run of proper spellings within the limit, decoded glyph by glyph. */
  lemma {:induction false} BodySound(b: seq<byte>, p: nat, used: nat, limit: int)
    requires Body(b, p, used, limit).Some?
    ensures var r := Body(b, p, used, limit).value; var gs := GlyphsOf(b, p, used, limit);
      && Proper(gs) && b[p..r.end] == Spelled(gs) + [QUOTE] && r.decoded == Encoded(gs) && used + |r.decoded| <= limit
    decreases |b| - p
  {
    hide ReadChar, Utf8, Spells, Spelled, Encoded;
    var r := Body(b, p, used, limit).value;
    NoGlyphs();
    if b[p] == QUOTE {
      assert b[p..r.end] == [QUOTE] && [] + [QUOTE] == [QUOTE];
    } else {
      var c := ReadChar(b, p).value;
      ReadSpells(b, p);
      BodySound(b, c.next, used + |Utf8(c.cp)|, limit);
      var gs := GlyphsOf(b, c.next, used + |Utf8(c.cp)|, limit);
      GlyphCons(Glyph(b[p..c.next], c.cp), gs);
      Joined(b, p, c.next, r.end, Spelled(gs));
    }
  }

  lemma NoGlyphs()
    ensures Proper([]) && Spelled([]) == [] && Encoded([]) == []
  {
  }

  lemma GlyphCons(g: Glyph, gs: seq<Glyph>)
    requires Spells(g.spelling, g.cp) && Proper(gs)
    ensures Proper([g] + gs) && Spelled([g] + gs) == g.spelling + Spelled(gs) && Encoded([g] + gs) == Utf8(g.cp) + Encoded(gs)
  {
    hide Utf8, Spells;
    assert ([g] + gs)[1..] == gs;
  }

  lemma Joined(b: seq<byte>, p: nat, n: nat, e: nat, spelled: seq<byte>)
    requires p <= n <= e <= |b| && b[n..e] == spelled + [QUOTE]
    ensures b[p..e] == b[p..n] + spelled + [QUOTE]
  {
    assert b[p..e] == b[p..n] + b[n..e];
  }

  /** Every quoted run of proper spellings within the limit is accepted and decoded. */
  lemma {:induction false} BodyComplete(b: seq<byte>, p: nat, e: nat, used: nat, limit: int, gs: seq<Glyph>)
    requires p <= e <= |b| && Proper(gs) && b[p..e] == Spelled(gs) + [QUOTE] && used + |Encoded(gs)| <= limit
    ensures Body(b, p, used, limit) == Some(Read(Encoded(gs), e))
    decreases |gs|
  {
    hide ReadChar, Utf8, Spells;
    if gs == [] {
      assert b[p..e] == [QUOTE];
      assert b[p] == b[p..e][0];
    } else {
      var g := gs[0];
      var n := p + |g.spelling|;
      assert Spelled(gs) + [QUOTE] == g.spelling + (Spelled(gs[1..]) + [QUOTE]);
      assert b[p..n] == b[p..e][..|g.spelling|] == g.spelling;
      assert b[n..e] == b[p..e][|g.spelling|..] == Spelled(gs[1..]) + [QUOTE];
      SpellsRead(b, p, n, g.cp);
      ReadScalar(b, p);
      BodyComplete(b, n, e, used + |Utf8(g.cp)|, limit, gs[1..]);
    }
  }

  /** text() accepts exactly the quoted runs of proper spellings whose characters fit the limit; what it
      decodes depends on the characters alone, not on how they are spelled. */
  lemma TextIff(b: seq<byte>, p: nat, e: nat, limit: int, gs: seq<Glyph>)
    requires p < e <= |b| && Proper(gs) && b[p..e] == [QUOTE] + Spelled(gs) + [QUOTE]
    ensures Text(b, p, limit) == if |Encoded(gs)| <= limit then Some(Read(Encoded(gs), e)) else None
  {
    hide Spells, Body;
    assert b[p] == b[p..e][0];
    assert b[p + 1..e] == b[p..e][1..] == Spelled(gs) + [QUOTE];
    if |Encoded(gs)| <= limit {
      BodyComplete(b, p + 1, e, 0, limit, gs);
    } else {
      BodyComplete(b, p + 1, e, 0, |Encoded(gs)|, gs);
      BodyTight(b, p + 1, 0, limit, |Encoded(gs)|);
    }
  }

  /** A smaller limit accepts the same string or nothing. */
  lemma {:induction false} BodyTight(b: seq<byte>, p: nat, used: nat, limit: int, larger: int)
    requires limit <= larger
    ensures Body(b, p, used, limit).Some? ==> Body(b, p, used, larger) == Body(b, p, used, limit)
    ensures Body(b, p, used, limit).Some? ==> used + |Body(b, p, used, limit).value.decoded| <= limit
    decreases |b| - p
  {
    hide ReadChar, Utf8;
    if p < |b| && b[p] != QUOTE && ReadChar(b, p).Some? {
      var c := ReadChar(b, p).value;
      if Scalar(c.cp) {
        BodyTight(b, c.next, used + |Utf8(c.cp)|, limit, larger);
      }
    }
  }

  /** These glyphs, quoted, are the bytes read, and what they encode is what was decoded. */
  ghost predicate Accounts(b: seq<byte>, p: nat, r: Read, gs: seq<Glyph>) {
    p <= r.end <= |b| && Proper(gs) && b[p..r.end] == [QUOTE] + Spelled(gs) + [QUOTE] && r.decoded == Encoded(gs)
  }

  /** Nothing else is accepted. */
  lemma TextSound(b: seq<byte>, p: nat, limit: int)
    requires Text(b, p, limit).Some?
    ensures |Text(b, p, limit).value.decoded| <= limit
    ensures exists gs :: Accounts(b, p, Text(b, p, limit).value, gs)
  {
    hide Spells, Body, GlyphsOf;
    var e := Text(b, p, limit).value.end;
    BodySound(b, p + 1, 0, limit);
    var gs := GlyphsOf(b, p + 1, 0, limit);
    assert b[p..e] == [QUOTE] + b[p + 1..e];
    assert [QUOTE] + (Spelled(gs) + [QUOTE]) == [QUOTE] + Spelled(gs) + [QUOTE];
    assert Accounts(b, p, Text(b, p, limit).value, gs);
  }

  /** Decoding an accepted string again from its own slice gives the same result. */
  lemma Redecoded(b: seq<byte>, p: nat, limit: int)
    requires Text(b, p, limit).Some?
    ensures var r := Text(b, p, limit).value; Text(b[..r.end], p, limit) == Some(r)
  {
    hide Spells, Text;
    var r := Text(b, p, limit).value;
    TextSound(b, p, limit);
    var gs :| Accounts(b, p, r, gs);
    assert b[..r.end][p..r.end] == b[p..r.end];
    TextIff(b[..r.end], p, r.end, limit, gs);
  }

  // ---- Equal text is equal characters ----

  lemma LeadLength(cp: int)
    requires Scalar(cp)
    ensures var s := Utf8(cp); |s| == (if s[0] < 0x80 then 1 else 1 + Lead(s[0]).1) && (s[0] < 0x80 ==> cp == s[0])
  {
    if cp >= 0x80 {
      Utf8Parts(cp);
    }
  }

  lemma Utf8Injective(cp: int, dp: int)
    requires Scalar(cp) && Scalar(dp) && Utf8(cp) == Utf8(dp)
    ensures cp == dp
  {
    hide Utf8;
    LeadLength(cp);
    LeadLength(dp);
    if Utf8(cp)[0] >= 0x80 {
      BelowIsAscii(cp);
      BelowIsAscii(dp);
      Utf8Parts(cp);
      Utf8Parts(dp);
    }
  }

  lemma BelowIsAscii(cp: int)
    requires Scalar(cp)
    ensures cp < 0x80 ==> Utf8(cp)[0] < 0x80
  {
  }

  lemma Utf8Prefix(cp: int, r: seq<byte>, dp: int, s: seq<byte>)
    requires Scalar(cp) && Scalar(dp) && Utf8(cp) + r == Utf8(dp) + s
    ensures cp == dp && r == s
  {
    hide Utf8, Lead;
    var x, y := Utf8(cp) + r, Utf8(dp) + s;
    LeadLength(cp);
    LeadLength(dp);
    assert x[0] == Utf8(cp)[0] && y[0] == Utf8(dp)[0];
    assert x[..|Utf8(cp)|] == Utf8(cp) && y[..|Utf8(dp)|] == Utf8(dp);
    Utf8Injective(cp, dp);
    assert x[|Utf8(cp)|..] == r && y[|Utf8(dp)|..] == s;
  }

  /** Two strings decode to the same bytes exactly when they spell the same characters. */
  lemma {:induction false} SameCharacters(gs: seq<Glyph>, hs: seq<Glyph>)
    requires Proper(gs) && Proper(hs)
    ensures Encoded(gs) == Encoded(hs) <==> |gs| == |hs| && forall i :: 0 <= i < |gs| ==> gs[i].cp == hs[i].cp
    decreases |gs|
  {
    hide Utf8, Spells;
    if gs != [] && hs != [] {
      GlyphScalar(gs[0]);
      GlyphScalar(hs[0]);
      SameCharacters(gs[1..], hs[1..]);
      if Encoded(gs) == Encoded(hs) {
        Utf8Prefix(gs[0].cp, Encoded(gs[1..]), hs[0].cp, Encoded(hs[1..]));
      }
      if |gs| == |hs| && forall i :: 0 <= i < |gs| ==> gs[i].cp == hs[i].cp {
        assert forall i :: 0 <= i < |gs[1..]| ==> gs[1..][i].cp == hs[1..][i].cp;
      }
      if Encoded(gs) == Encoded(hs) {
        forall i | 0 <= i < |gs| ensures |gs| == |hs| && gs[i].cp == hs[i].cp {
          if i > 0 {
            assert gs[1..][i - 1].cp == hs[1..][i - 1].cp;
          }
        }
      }
    }
  }

  lemma GlyphScalar(g: Glyph)
    requires Spells(g.spelling, g.cp)
    ensures Scalar(g.cp)
  {
  }

  // ---- text() as the firmware runs it ----

  method ReadHex4(b: seq<byte>, p: nat) returns (r: Option<int>)
    requires p <= |b|
    ensures r == Hex4(b, p)
  {
    hide Hex;
    if |b| - p < 4 {
      return None;
    }
    var cp := 0;
    for i := 0 to 4
      invariant i >= 1 ==> Hex(b[p]) >= 0
      invariant i >= 2 ==> Hex(b[p + 1]) >= 0
      invariant i >= 3 ==> Hex(b[p + 2]) >= 0
      invariant i >= 4 ==> Hex(b[p + 3]) >= 0
      invariant i == 0 ==> cp == 0
      invariant i == 1 ==> cp == Hex(b[p])
      invariant i == 2 ==> cp == Hex(b[p]) * 16 + Hex(b[p + 1])
      invariant i == 3 ==> cp == (Hex(b[p]) * 16 + Hex(b[p + 1])) * 16 + Hex(b[p + 2])
      invariant i == 4 ==> cp == ((Hex(b[p]) * 16 + Hex(b[p + 1])) * 16 + Hex(b[p + 2])) * 16 + Hex(b[p + 3])
    {
      var digit := Hex(b[p + i]);
      if digit < 0 {
        return None;
      }
      cp := cp * 16 + digit;
    }
    return Some(cp);
  }

  method ReadTails(b: seq<byte>, p: nat, n: nat, bits: int) returns (r: Option<int>)
    requires p + n <= |b|
    ensures r == Continue(b, p, n, bits)
  {
    var cp := bits;
    for i := 0 to n
      invariant Continue(b, p, n, bits) == Continue(b, p + i, n - i, cp)
    {
      if !Tail(b[p + i]) {
        return None;
      }
      cp := Six(cp, b[p + i]);
    }
    return Some(cp);
  }

  /** One character, as the switch in text() reads it. */
  method NextChar(b: seq<byte>, p: nat) returns (r: Option<Char>)
    requires p < |b|
    ensures r == ReadChar(b, p)
  {
    hide Hex4, Continue;
    var c := b[p];
    if c < 0x20 {
      return None;
    }
    if c == BACKSLASH {
      if p + 1 == |b| {
        return None;
      }
      if b[p + 1] != 0x75 {
        return if Short(b[p + 1]) == 0 then None else Some(Char(Short(b[p + 1]), p + 2));
      }
      var first := ReadHex4(b, p + 2);
      HexFacts(b, p + 2);
      if first.None? || Low(first.value) {
        return None;
      }
      if !High(first.value) {
        return if first.value == 0 then None else Some(Char(first.value, p + 6));
      }
      if |b| - (p + 6) < 6 || b[p + 6] != BACKSLASH || b[p + 7] != 0x75 {
        return None;
      }
      var second := ReadHex4(b, p + 8);
      HexFacts(b, p + 8);
      return if second.None? || !Low(second.value) then None else Some(Char(Paired(first.value, second.value), p + 12));
    }
    if c < 0x80 {
      return Some(Char(c, p + 1));
    }
    var (bits, n, minimum) := Lead(c);
    if n == 0 || |b| - (p + 1) < n {
      return None;
    }
    var cp := ReadTails(b, p + 1, n, bits);
    if cp.None? || cp.value < minimum || cp.value > 0x10ffff || 0xd800 <= cp.value <= 0xdfff {
      return None;
    }
    return Some(Char(cp.value, p + 1 + n));
  }

  function Prepend(done: seq<byte>, r: Option<Read>): Option<Read> {
    match r case None => None case Some(v) => Some(Read(done + v.decoded, v.end))
  }

  /** text(): validates one string, and decodes it into `out` when there is one. */
  method ReadText(b: seq<byte>, start: nat, out: array?<byte>) returns (ok: bool, end: nat, used: nat)
    modifies out
    ensures var r := Text(b, start, Limit(if out == null then None else Some(out.Length)));
      && (ok <==> r.Some?)
      && (ok ==> end == r.value.end && used == |r.value.decoded|)
      && (ok && out != null ==> used < out.Length && out[..used] == r.value.decoded && out[used] == 0)
  {
    hide ReadChar, Utf8;
    ok, end, used := false, start, 0;
    if start >= |b| || b[start] != QUOTE {
      return;
    }
    ghost var limit := Limit(if out == null then None else Some(out.Length));
    ghost var done: seq<byte> := [];
    end := start + 1;
    PrependNothing(Body(b, end, 0, limit));
    while end < |b|
      invariant start < end <= |b| && used == |done| && (used == 0 || used <= limit)
      invariant Text(b, start, limit) == Prepend(done, Body(b, end, used, limit))
      invariant out != null ==> used <= out.Length && out[..used] == done
      decreases |b| - end
    {
      if b[end] == QUOTE {
        if out != null {
          if used >= out.Length {
            return;
          }
          out[used] := 0;
          assert out[..used] == done;
        }
        assert done + [] == done;
        return true, end + 1, used;
      }
      var c := NextChar(b, end);
      if c.None? {
        return;
      }
      ReadScalar(b, end);
      var encoded := Utf8(c.value.cp);
      var n := |encoded|;
      if used + n > MAX_STRING || (out != null && used + n >= out.Length) {
        return;
      }
      if out != null {
        forall i | 0 <= i < n {
          out[used + i] := encoded[i];
        }
        assert out[..used + n] == done + encoded;
      }
      PrependMore(done, encoded, Body(b, c.value.next, used + n, limit));
      done := done + encoded;
      used := used + n;
      end := c.value.next;
    }
  }

  lemma PrependNothing(r: Option<Read>)
    ensures Prepend([], r) == r
  {
    if r.Some? {
      assert [] + r.value.decoded == r.value.decoded;
    }
  }

  lemma PrependMore(a: seq<byte>, b: seq<byte>, r: Option<Read>)
    ensures Prepend(a, Prepend(b, r)) == Prepend(a + b, r)
  {
    if r.Some? {
      assert a + (b + r.value.decoded) == a + b + r.value.decoded;
    }
  }
}
