/** Printed values: what the firmware formats, its own parser accepts, and finds the same tree. */
module JsonPrint {
  import opened Bytes
  import opened JsonText
  import opened JsonNumber
  import opened Json
  import opened JsonTokens

  /** What replies are made of. */
  datatype Value = Words(s: seq<byte>) | Count(n: nat) | Truth(b: bool) | Record(members: seq<Member>)

  datatype Member = Member(key: seq<byte>, value: Value)

  /** Printable ASCII without quote or backslash: printed as it is. */
  predicate Plain(s: seq<byte>) {
    |s| <= MAX_STRING && forall i :: 0 <= i < |s| ==> 0x20 <= s[i] < 0x7f && s[i] != QUOTE && s[i] != BACKSLASH
  }

  predicate Sound(v: Value) {
    match v
    case Words(s) => Plain(s)
    case Record(ms) => AllSound(ms)
    case _ => true
  }

  predicate AllSound(ms: seq<Member>) {
    forall i :: 0 <= i < |ms| ==> Plain(ms[i].key) && Sound(ms[i].value) && forall j :: 0 <= j < i ==> ms[j].key != ms[i].key
  }

  // ---- Printing ----

  /** %lu */
  function Decimals(n: nat): (s: seq<byte>)
    ensures s != [] && Digits(s)
    ensures s[0] == ZERO ==> n == 0 && |s| == 1
  {
    if n < 10 then [0x30 + n] else Decimals(n / 10) + [0x30 + n % 10]
  }

  function InQuotes(s: seq<byte>): seq<byte> {
    [QUOTE] + s + [QUOTE]
  }

  function Print(v: Value): (b: seq<byte>)
    ensures b != [] && !Space(b[0])
  {
    match v
    case Words(s) => InQuotes(s)
    case Count(n) => Decimals(n)
    case Truth(t) => LiteralText(if t then 0x74 else 0x66)
    case Record(ms) => [0x7b] + PrintAll(ms) + [0x7d]
  }

  function PrintOne(m: Member): (b: seq<byte>)
    ensures b != [] && !Space(b[0])
  {
    InQuotes(m.key) + [COLON] + Print(m.value)
  }

  function PrintAll(ms: seq<Member>): (b: seq<byte>)
    ensures b != [] ==> !Space(b[0])
    ensures ms != [] ==> b != []
  {
    if ms == [] then []
    else if |ms| == 1 then PrintOne(ms[0])
    else PrintOne(ms[0]) + [COMMA] + PrintAll(ms[1..])
  }

  // ---- The tree of a printed value ----

  function Tree(v: Value, at: nat): (n: Node)
    ensures n.start == at && n.end == at + |Print(v)|
  {
    var end := at + |Print(v)|;
    match v
    case Words(_) => Leaf(String, at, end)
    case Count(_) => Leaf(Numeral, at, end)
    case Truth(_) => Leaf(Boolean, at, end)
    case Record(ms) => Group(true, at, end, KidsOf(ms, at + 1))
  }

  function KidsOf(ms: seq<Member>, p: nat): (k: Kids)
    ensures k.NoMore? <==> ms == []
  {
    if ms == [] then NoMore
    else
      var e := p + |ms[0].key| + 2;
      Kid(p, e, Tree(ms[0].value, e + 1), KidsOf(ms[1..], p + |PrintOne(ms[0])| + 1))
  }

  // ---- Strings and numbers ----

  function GlyphsFor(s: seq<byte>): seq<Glyph> {
    if s == [] then [] else [Glyph([s[0]], s[0])] + GlyphsFor(s[1..])
  }

  lemma PlainGlyph(c: byte)
    requires 0x20 <= c < 0x7f && c != QUOTE && c != BACKSLASH
    ensures Spells([c], c) && Utf8(c) == [c]
  {
  }

  lemma {:induction false} PlainGlyphs(s: seq<byte>)
    requires forall i :: 0 <= i < |s| ==> 0x20 <= s[i] < 0x7f && s[i] != QUOTE && s[i] != BACKSLASH
    ensures Proper(GlyphsFor(s)) && Spelled(GlyphsFor(s)) == s && Encoded(GlyphsFor(s)) == s
    decreases |s|
  {
    hide Spells, Utf8;
    if s != [] {
      PlainGlyphs(s[1..]);
      PlainGlyph(s[0]);
      var gs := GlyphsFor(s);
      assert gs[1..] == GlyphsFor(s[1..]);
      assert s == [s[0]] + s[1..];
    }
  }

  lemma QuotedIs(s: seq<byte>)
    requires Plain(s)
    ensures IsString(InQuotes(s))
  {
    hide Spells, Spelled, Encoded;
    PlainGlyphs(s);
  }

  /** A printed key reads back as itself. */
  lemma KeyReads(b: seq<byte>, p: nat, s: seq<byte>)
    requires Plain(s) && p + |s| + 2 <= |b| && b[p..p + |s| + 2] == InQuotes(s)
    ensures KeyText(b, p) == s
  {
    hide Spells, Spelled, Encoded, Text;
    PlainGlyphs(s);
    TextIff(b, p, p + |s| + 2, MAX_STRING, GlyphsFor(s));
  }

  lemma CountIs(n: nat)
    ensures IsNumber(Decimals(n))
  {
    var s := Decimals(n);
    var number := Number([], s, [], []);
    assert Written(number) == s;
    assert ValidNumber(number);
  }

  lemma SkipNone(b: seq<byte>, p: nat)
    requires p < |b| ==> !Space(b[p])
    ensures Skip(b, p) == p
  {
  }

  // ---- A printed value is a value of the grammar ----

  /** The text of `part` stands at p. */
  predicate Stands(b: seq<byte>, p: nat, part: seq<byte>) {
    p + |part| <= |b| && b[p..p + |part|] == part
  }

  lemma StandsParts(b: seq<byte>, p: nat, x: seq<byte>, y: seq<byte>)
    requires Stands(b, p, x + y)
    ensures Stands(b, p, x) && Stands(b, p + |x|, y)
  {
    var all := b[p..p + |x + y|];
    assert all[..|x|] == x && all[|x|..] == y;
    assert b[p..p + |x|] == all[..|x|];
    assert b[p + |x|..p + |x| + |y|] == all[|x|..];
  }

  lemma StandsFirst(b: seq<byte>, p: nat, x: seq<byte>)
    requires Stands(b, p, x) && x != []
    ensures p < |b| && b[p] == x[0]
  {
    assert b[p] == b[p..p + |x|][0];
  }

  lemma {:induction false} PrintedIs(b: seq<byte>, at: nat, v: Value)
    requires Sound(v) && Stands(b, at, Print(v))
    ensures IsValue(b, Tree(v, at))
    decreases v
  {
    hide IsString, IsNumber, Digits, Plain;
    match v
    case Words(s) => QuotedIs(s);
    case Count(n) => CountIs(n);
    case Truth(_) =>
    case Record(ms) => RecordIs(b, at, ms);
  }

  lemma GroupIs(b: seq<byte>, at: nat, e: nat, kids: Kids)
    requires at < e <= |b| && b[at] == 0x7b
    requires if kids.NoMore? then At(b, Skip(b, at + 1), 0x7d) && e == Skip(b, at + 1) + 1 else IsKids(b, true, Skip(b, at + 1), e, kids)
    ensures IsValue(b, Group(true, at, e, kids))
  {
    hide IsKids, Skip, IsLeaf;
  }

  lemma {:induction false} RecordIs(b: seq<byte>, at: nat, ms: seq<Member>)
    requires AllSound(ms) && Stands(b, at, Print(Record(ms)))
    ensures IsValue(b, Tree(Record(ms), at))
    decreases ms, 2
  {
    hide Plain, Sound, Skip, PrintAll, Stands, IsValue, IsKids, KidsOf, AllSound;
    var all := PrintAll(ms);
    StandsParts(b, at, [0x7b] + all, [0x7d]);
    StandsParts(b, at, [0x7b], all);
    StandsFirst(b, at, [0x7b]);
    StandsFirst(b, at + 1 + |all|, [0x7d]);
    if ms == [] {
      assert all == [] by { PrintNone(); }
      SkipNone(b, at + 1);
    } else {
      StandsFirst(b, at + 1, all);
      SkipNone(b, at + 1);
      MembersAre(b, at + 1, ms);
    }
    GroupIs(b, at, at + 2 + |all|, KidsOf(ms, at + 1));
  }

  lemma PrintNone()
    ensures PrintAll([]) == []
  {
  }

  /** One member: its key, a colon and its value. */
  lemma {:induction false} MemberIs(b: seq<byte>, p: nat, m: Member)
    requires Plain(m.key) && Sound(m.value) && Stands(b, p, PrintOne(m))
    ensures var e := p + |m.key| + 2;
      && e < |b| && IsString(b[p..e]) && At(b, Skip(b, e), COLON) && Skip(b, Skip(b, e) + 1) == e + 1
      && IsValue(b, Tree(m.value, e + 1)) && p + |PrintOne(m)| == e + 1 + |Print(m.value)| && KeyText(b, p) == m.key
    decreases m, 0
  {
    hide Plain, Sound, Skip, Print, IsString, KeyText, IsValue, Tree;
    var e, key := p + |m.key| + 2, InQuotes(m.key);
    StandsParts(b, p, key + [COLON], Print(m.value));
    StandsParts(b, p, key, [COLON]);
    StandsFirst(b, e, [COLON]);
    StandsFirst(b, e + 1, Print(m.value));
    QuotedIs(m.key);
    KeyReads(b, p, m.key);
    SkipNone(b, e);
    SkipNone(b, e + 1);
    PrintedIs(b, e + 1, m.value);
  }

  lemma KidIs(b: seq<byte>, p: nat, e: nat, k: Kids)
    requires k.Kid? && IsKey(b, p, k) && IsValue(b, k.value)
    requires var q := Skip(b, k.value.end);
      if k.rest.NoMore? then At(b, q, 0x7d) && e == q + 1 else At(b, q, COMMA) && IsKids(b, true, Skip(b, q + 1), e, k.rest)
    ensures IsKids(b, true, p, e, k)
  {
    hide IsKey, IsValue, Skip;
  }

  /** The same, as the first of some members. */
  lemma {:induction false} FirstIs(b: seq<byte>, p: nat, ms: seq<Member>)
    requires ms != [] && Plain(ms[0].key) && Sound(ms[0].value) && Stands(b, p, PrintOne(ms[0]))
    ensures var k := KidsOf(ms, p);
      && k.Kid? && IsKey(b, p, k) && IsValue(b, k.value) && k.value.end == p + |PrintOne(ms[0])|
      && k.rest == KidsOf(ms[1..], p + |PrintOne(ms[0])| + 1)
    decreases ms, 0
  {
    hide Plain, Sound, Skip, IsString, KeyText, IsValue, Tree, PrintOne, KidsOf, Print, Stands;
    KidsCons(ms, p);
    MemberIs(b, p, ms[0]);
  }

  lemma {:induction false} MembersAre(b: seq<byte>, p: nat, ms: seq<Member>)
    requires ms != [] && AllSound(ms) && Stands(b, p, PrintAll(ms))
    requires p + |PrintAll(ms)| < |b| && b[p + |PrintAll(ms)|] == 0x7d
    ensures IsKids(b, true, p, p + |PrintAll(ms)| + 1, KidsOf(ms, p))
    decreases ms, 1
  {
    hide Plain, Sound, Skip, IsKey, IsValue, IsKids, Tree, PrintOne, PrintAll, KidsOf, Print, Stands, AllSound;
    var one, rest := PrintOne(ms[0]), ms[1..];
    var q, e := p + |one|, p + |PrintAll(ms)| + 1;
    FirstSound(ms);
    PrintCons(ms);
    if rest == [] {
      FirstIs(b, p, ms);
      SkipNone(b, q);
    } else {
      StandsParts(b, p, one + [COMMA], PrintAll(rest));
      StandsParts(b, p, one, [COMMA]);
      FirstIs(b, p, ms);
      StandsFirst(b, q, [COMMA]);
      StandsFirst(b, q + 1, PrintAll(rest));
      SkipNone(b, q);
      SkipNone(b, q + 1);
      MembersAre(b, q + 1, rest);
    }
    KidIs(b, p, e, KidsOf(ms, p));
  }

  lemma PrintCons(ms: seq<Member>)
    requires ms != []
    ensures PrintAll(ms) == if ms[1..] == [] then PrintOne(ms[0]) else PrintOne(ms[0]) + [COMMA] + PrintAll(ms[1..])
  {
    hide PrintOne;
  }

  lemma KidsCons(ms: seq<Member>, p: nat)
    requires ms != []
    ensures var e := p + |ms[0].key| + 2;
      KidsOf(ms, p) == Kid(p, e, Tree(ms[0].value, e + 1), KidsOf(ms[1..], p + |PrintOne(ms[0])| + 1))
  {
    hide PrintOne, Tree;
  }

  lemma FirstSound(ms: seq<Member>)
    requires ms != [] && AllSound(ms)
    ensures Plain(ms[0].key) && Sound(ms[0].value) && AllSound(ms[1..])
  {
    hide Plain, Sound;
    RestSound(ms);
  }

  lemma RestSound(ms: seq<Member>)
    requires ms != [] && AllSound(ms)
    ensures AllSound(ms[1..])
  {
    hide Plain, Sound;
    var rest := ms[1..];
    forall i | 0 <= i < |rest| ensures Plain(rest[i].key) && Sound(rest[i].value) && forall j :: 0 <= j < i ==> rest[j].key != rest[i].key {
      assert rest[i] == ms[i + 1];
      forall j | 0 <= j < i ensures rest[j].key != rest[i].key {
        assert rest[j] == ms[j + 1];
      }
    }
  }

  // ---- No key repeats ----

  predicate Unseen(ms: seq<Member>, seen: set<seq<byte>>) {
    forall i :: 0 <= i < |ms| ==> ms[i].key !in seen
  }

  lemma {:induction false} PrintedUnrepeated(b: seq<byte>, at: nat, v: Value)
    requires Sound(v) && Stands(b, at, Print(v))
    ensures Unrepeated(b, Tree(v, at))
    decreases v, 1
  {
    hide Plain, KeyText, PrintAll, KidsOf, AllSound, Stands;
    if v.Record? {
      var all := PrintAll(v.members);
      StandsParts(b, at, [0x7b] + all, [0x7d]);
      StandsParts(b, at, [0x7b], all);
      MembersUnrepeated(b, at + 1, v.members, {});
    }
  }

  lemma {:induction false} MembersUnrepeated(b: seq<byte>, p: nat, ms: seq<Member>, seen: set<seq<byte>>)
    requires AllSound(ms) && Stands(b, p, PrintAll(ms)) && Unseen(ms, seen)
    ensures KidsUnrepeated(b, true, KidsOf(ms, p), seen)
    decreases ms, 0
  {
    hide Plain, Sound, Skip, IsString, KeyText, IsValue, Tree, PrintOne, PrintAll, KidsOf, Print, Stands, AllSound, Unrepeated;
    if ms == [] {
      NoKids(p);
    } else {
      var m, one, rest := ms[0], PrintOne(ms[0]), ms[1..];
      FirstSound(ms);
      PrintCons(ms);
      KidsCons(ms, p);
      if rest != [] {
        StandsParts(b, p, one + [COMMA], PrintAll(rest));
        StandsParts(b, p, one, [COMMA]);
      } else {
        NoKids(p + |one| + 1);
      }
      MemberIs(b, p, m);
      ValueStands(b, p, m);
      PrintedUnrepeated(b, p + |m.key| + 3, m.value);
      if rest != [] {
        RestUnseen(ms, seen);
        MembersUnrepeated(b, p + |one| + 1, rest, seen + {m.key});
      }
    }
  }

  lemma NoKids(p: nat)
    ensures KidsOf([], p) == NoMore
  {
  }

  lemma ValueStands(b: seq<byte>, p: nat, m: Member)
    requires Stands(b, p, PrintOne(m))
    ensures Stands(b, p + |m.key| + 3, Print(m.value))
  {
    hide Print, Stands;
    StandsParts(b, p, InQuotes(m.key) + [COLON], Print(m.value));
  }

  lemma RestUnseen(ms: seq<Member>, seen: set<seq<byte>>)
    requires ms != [] && AllSound(ms) && Unseen(ms, seen)
    ensures Unseen(ms[1..], seen + {ms[0].key})
  {
    hide Plain, Sound;
    forall i | 0 <= i < |ms| - 1 ensures ms[1..][i].key !in seen + {ms[0].key} {
      assert ms[1..][i] == ms[i + 1];
    }
  }

  // ---- The limits ----

  /** Tokens: one per value and one per key. */
  function TokenCount(v: Value): nat {
    match v case Record(ms) => 1 + TokensOf(ms) case _ => 1
  }

  function TokensOf(ms: seq<Member>): nat {
    if ms == [] then 0 else 1 + TokenCount(ms[0].value) + TokensOf(ms[1..])
  }

  /** No deeper than this many enclosing objects below `d`. */
  predicate Shallow(v: Value, d: nat) {
    match v
    case Record(ms) => d < MAX_DEPTH && forall i :: 0 <= i < |ms| ==> Shallow(ms[i].value, d + 1)
    case _ => d <= MAX_DEPTH
  }

  lemma {:induction false} TreeSize(v: Value, at: nat)
    ensures Size(Tree(v, at)) == TokenCount(v)
    decreases v, 1
  {
    hide Print, KidsOf;
    if v.Record? {
      KidsCount(v.members, at + 1);
    }
  }

  lemma {:induction false} KidsCount(ms: seq<Member>, p: nat)
    ensures KidsSize(true, KidsOf(ms, p)) == TokensOf(ms)
    decreases ms, 0
  {
    hide PrintOne, KidsOf, Tree, Size, TokenCount;
    if ms != [] {
      KidsCons(ms, p);
      TreeSize(ms[0].value, p + |ms[0].key| + 3);
      KidsCount(ms[1..], p + |PrintOne(ms[0])| + 1);
    } else {
      NoKids(p);
    }
  }

  lemma {:induction false} TreeNested(v: Value, at: nat, d: nat)
    requires Shallow(v, d)
    ensures Nested(Tree(v, at), d)
    decreases v, 1
  {
    hide Print, KidsOf;
    if v.Record? {
      KidsAreNested(v.members, at + 1, d + 1);
    }
  }

  lemma {:induction false} KidsAreNested(ms: seq<Member>, p: nat, d: nat)
    requires forall i :: 0 <= i < |ms| ==> Shallow(ms[i].value, d)
    ensures KidsNested(KidsOf(ms, p), d)
    decreases ms, 0
  {
    hide PrintOne, KidsOf, Tree, Nested, Shallow;
    if ms != [] {
      KidsCons(ms, p);
      TreeNested(ms[0].value, p + |ms[0].key| + 3, d);
      KidsAreNested(ms[1..], p + |PrintOne(ms[0])| + 1, d);
    } else {
      NoKids(p);
    }
  }

  /** What is printed, the parser accepts, and finds the printed value's own tree. */
  lemma PrintParses(v: Value)
    requires Sound(v) && Shallow(v, 0) && TokenCount(v) <= MAX_TOKENS && |Print(v)| <= MAX_SIZE
    ensures Parse(Print(v)).Some? && Parse(Print(v)).value.node == Tree(v, 0)
  {
    hide Sound, Shallow, TokenCount, Print, Tree, IsValue, Unrepeated, Nested, Size, Parse, Skip;
    var b := Print(v);
    assert b[0..0 + |b|] == b;
    PrintedIs(b, 0, v);
    PrintedUnrepeated(b, 0, v);
    TreeSize(v, 0);
    TreeNested(v, 0, 0);
    SkipNone(b, 0);
    SkipNone(b, |b|);
    ParseIff(b, Tree(v, 0));
  }

  // ---- Looking a member up ----

  /** Where the value of member `i` begins. */
  function Place(ms: seq<Member>, i: nat, p: nat): nat
    requires i < |ms|
  {
    if i == 0 then p + |ms[0].key| + 3 else Place(ms[1..], i - 1, p + |PrintOne(ms[0])| + 1)
  }

  lemma {:induction false} MemberFound(b: seq<byte>, p: nat, ms: seq<Member>, i: nat)
    requires i < |ms| && AllSound(ms) && Stands(b, p, PrintAll(ms))
    ensures MemberWith(b, KidsOf(ms, p), ms[i].key) == Some(Tree(ms[i].value, Place(ms, i, p)))
    ensures Stands(b, Place(ms, i, p), Print(ms[i].value))
    decreases |ms|
  {
    hide Plain, Sound, Skip, IsString, KeyText, IsValue, Tree, PrintOne, PrintAll, KidsOf, Print, Stands;
    var one, rest := PrintOne(ms[0]), ms[1..];
    FirstSound(ms);
    PrintCons(ms);
    KidsCons(ms, p);
    if rest != [] {
      StandsParts(b, p, one + [COMMA], PrintAll(rest));
      StandsParts(b, p, one, [COMMA]);
    }
    MemberIs(b, p, ms[0]);
    ValueStands(b, p, ms[0]);
    if i > 0 {
      MemberFound(b, p + |one| + 1, rest, i - 1);
      assert ms[0].key != ms[i].key;
    }
  }
}
