/** The characters that the grammar is about, as RFC 8259 and RFC 3629 give them. */
module JsonAlphabet {
  import opened Bytes
  import opened JsonText
  import opened JsonNumber
  import opened Json

  function Code(c: char): int {
    c as int
  }

  /** Structural characters and whitespace, RFC 8259 section 2; literal names, section 3; the limits of this parser. */
  lemma Structure()
    ensures Opener(true) == Code('{') && Closer(true) == Code('}') && Opener(false) == Code('[') && Closer(false) == Code(']')
    ensures COLON == Code(':') && COMMA == Code(',') && QUOTE == Code('"') && BACKSLASH == Code('\\')
    ensures forall b: byte :: Space(b) <==> b == Code(' ') || b == Code('\t') || b == Code('\n') || b == Code('\r')
    ensures LiteralText(Code('t')) == Bytes.Ascii("true") && LiteralText(Code('f')) == Bytes.Ascii("false") && LiteralText(Code('n')) == Bytes.Ascii("null")
    ensures LiteralKind(Code('t')) == LiteralKind(Code('f')) == Boolean && LiteralKind(Code('n')) == Null
    ensures MAX_SIZE == 4096 && MAX_TOKENS == 96 && MAX_DEPTH == 8 && MAX_STRING == 64
  {
  }

  /** Numbers, section 6. */
  lemma Numbers()
    ensures MINUS == Code('-') && PLUS == Code('+') && POINT == Code('.') && ZERO == Code('0')
    ensures forall b: byte :: Digit(b) <==> Code('0') <= b <= Code('9')
    ensures forall b: byte :: Exponent(b) <==> b == Code('e') || b == Code('E')
  {
  }

  /** The character behind a backslash, section 7. */
  predicate Escape(c: int, cp: int) {
    || (c == Code('"') && cp == 0x22) || (c == Code('\\') && cp == 0x5c) || (c == Code('/') && cp == 0x2f)
    || (c == Code('b') && cp == 0x08) || (c == Code('f') && cp == 0x0c) || (c == Code('n') && cp == 0x0a)
    || (c == Code('r') && cp == 0x0d) || (c == Code('t') && cp == 0x09)
  }

  lemma ShortEscapes(s: seq<byte>, cp: int)
    requires cp != 0
    ensures ShortSpelling(s, cp) <==> |s| == 2 && s[0] == Code('\\') && Escape(s[1], cp)
  {
  }

  /** A byte that continues a character, and its six bits. */
  predicate Continues(b: int) {
    0x80 <= b < 0xc0
  }

  function Two(a: int, b: int): int { (a - 0xc0) * 64 + (b - 0x80) }
  function Three(a: int, b: int, c: int): int { ((a - 0xe0) * 64 + (b - 0x80)) * 64 + (c - 0x80) }
  function Four(a: int, b: int, c: int, d: int): int { (((a - 0xf0) * 64 + (b - 0x80)) * 64 + (c - 0x80)) * 64 + (d - 0x80) }

  /** RFC 3629 section 3: the length and the bits of every encoded character. */
  lemma Utf8Table(cp: int)
    requires Scalar(cp)
    ensures var s := Utf8(cp);
      && (|s| == 1 <==> cp < 0x80) && (|s| == 2 <==> 0x80 <= cp < 0x800) && (|s| == 3 <==> 0x800 <= cp < 0x1_0000)
      && (|s| == 1 ==> cp == s[0])
      && (|s| == 2 ==> 0xc2 <= s[0] < 0xe0 && Continues(s[1]) && cp == Two(s[0], s[1]))
      && (|s| == 3 ==>
            && 0xe0 <= s[0] < 0xf0 && Continues(s[1]) && Continues(s[2])
            && cp == Three(s[0], s[1], s[2]))
      && (|s| == 4 ==>
            && 0xf0 <= s[0] < 0xf5 && Continues(s[1]) && Continues(s[2]) && Continues(s[3])
            && cp == Four(s[0], s[1], s[2], s[3]))
  {
    var x, y := cp / 64, cp / 64 / 64;
    assert cp == 64 * x + cp % 64 && x == 64 * y + x % 64 && y == 64 * (y / 64) + y % 64;
  }

  /** A hexadecimal digit of either case. */
  predicate HexValue(c: int, v: int) {
    || (Code('0') <= c <= Code('9') && v == c - Code('0')) || (Code('a') <= c <= Code('f') && v == 10 + c - Code('a'))
    || (Code('A') <= c <= Code('F') && v == 10 + c - Code('A'))
  }

  lemma HexIs(c: byte)
    ensures forall v :: HexValue(c, v) <==> v == Hex(c) && v >= 0
  {
  }

  /** An escaped code unit, section 7. */
  lemma UnicodeEscapes(s: seq<byte>, cp: int)
    ensures UnicodeSpelling(s, cp) <==>
      && |s| == 6 && s[0] == Code('\\') && s[1] == Code('u')
      && exists a, b, c, d :: HexValue(s[2], a) && HexValue(s[3], b) && HexValue(s[4], c) && HexValue(s[5], d)
                              && cp == 0x1000 * a + 0x100 * b + 0x10 * c + d
  {
    hide Hex, HexValue;
    if |s| == 6 {
      assert s[..2] == [s[0], s[1]];
      HexIs(s[2]);
      HexIs(s[3]);
      HexIs(s[4]);
      HexIs(s[5]);
      var h := s[2..6];
      assert h[0] == s[2] && h[1] == s[3] && h[2] == s[4] && h[3] == s[5];
      if UnicodeSpelling(s, cp) {
        assert HexValue(s[2], Hex(s[2])) && HexValue(s[3], Hex(s[3])) && HexValue(s[4], Hex(s[4])) && HexValue(s[5], Hex(s[5]));
      }
    }
  }

  /** A character beyond the basic plane as a pair of them. */
  lemma SurrogatePairs(high: int, low: int)
    requires High(high) && Low(low)
    ensures 0xd800 <= high < 0xdc00 <= low < 0xe000 && 0x1_0000 <= Paired(high, low) <= 0x10_ffff
    ensures Paired(high, low) - 0x1_0000 == 0x400 * (high % 0x400) + low % 0x400
  {
  }
}
