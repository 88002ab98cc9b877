/**
 Bounded JSON documents: the RFC 8259 grammar as a located tree, the recursive
 descent over it, and that the descent accepts exactly the documents within the
 limits on size, depth, tokens and strings whose objects repeat no key.
 */
module Json {
  import opened Bytes
  import opened JsonText
  import opened JsonNumber

  const MAX_TOKENS := 96
  const MAX_DEPTH := 8
  const MAX_SIZE := 4096

  const COLON: byte := 0x3a
  const COMMA: byte := 0x2c

  datatype Kind = Object | Array | String | Numeral | Boolean | Null

  /** A value with the span it was read from; members and elements in order. */
  datatype Node = Leaf(kind: Kind, start: nat, end: nat) | Group(obj: bool, start: nat, end: nat, kids: Kids)

  /** Object members, or array elements, whose key spans are unused. */
  datatype Kids = NoMore | Kid(keyStart: nat, keyEnd: nat, value: Node, rest: Kids)

  predicate Space(b: byte) {
    b == 0x20 || b == 0x09 || b == 0x0d || b == 0x0a
  }

  /** The first position from p on that is not whitespace. */
  function Skip(b: seq<byte>, p: nat): (q: nat)
    ensures p <= q && (p <= |b| ==> q <= |b|) && (q < |b| ==> !Space(b[q]))
    ensures forall i :: p <= i < q ==> i < |b| && Space(b[i])
    decreases |b| - p
  {
    if p < |b| && Space(b[p]) then Skip(b, p + 1) else p
  }

  predicate At(b: seq<byte>, p: nat, c: byte) {
    p < |b| && b[p] == c
  }

  function Opener(obj: bool): byte {
    if obj then 0x7b else 0x5b
  }

  function Closer(obj: bool): byte {
    if obj then 0x7d else 0x5d
  }

  function LiteralText(c: byte): seq<byte> {
    if c == 0x74 then [0x74, 0x72, 0x75, 0x65]
    else if c == 0x66 then [0x66, 0x61, 0x6c, 0x73, 0x65]
    else [0x6e, 0x75, 0x6c, 0x6c]
  }

  predicate LiteralStart(c: byte) {
    c == 0x74 || c == 0x66 || c == 0x6e
  }

  function LiteralKind(c: byte): Kind {
    if c == 0x6e then Null else Boolean
  }

  // ---- The grammar ----

  ghost predicate IsNumber(s: seq<byte>) {
    exists n :: ValidNumber(n) && s == Written(n)
  }

  /** A quoted run of proper spellings that encodes to at most 64 bytes. */
  ghost predicate IsString(s: seq<byte>) {
    exists gs :: Proper(gs) && s == [QUOTE] + Spelled(gs) + [QUOTE] && |Encoded(gs)| <= MAX_STRING
  }

  ghost predicate IsLeaf(s: seq<byte>, kind: Kind) {
    match kind
    case String => IsString(s)
    case Numeral => IsNumber(s)
    case Boolean => s == LiteralText(0x74) || s == LiteralText(0x66)
    case Null => s == LiteralText(0x6e)
    case _ => false
  }

  /** The span of the node is the text of its value. */
  ghost predicate IsValue(b: seq<byte>, n: Node)
    decreases n
  {
    && n.start < n.end <= |b|
    && match n
       case Leaf(kind, s, e) => IsLeaf(b[s..e], kind)
       case Group(obj, s, e, kids) =>
         && b[s] == Opener(obj)
         && if kids.NoMore? then At(b, Skip(b, s + 1), Closer(obj)) && e == Skip(b, s + 1) + 1
            else IsKids(b, obj, Skip(b, s + 1), e, kids)
  }

  /** Members or elements from p, separated by commas and closed at e. */
  ghost predicate IsKids(b: seq<byte>, obj: bool, p: nat, e: nat, kids: Kids)
    decreases kids
  {
    && kids.Kid?
    && (if obj then IsKey(b, p, kids) else kids.keyStart == kids.keyEnd == 0 && kids.value.start == p)
    && IsValue(b, kids.value)
    && (var q := Skip(b, kids.value.end);
        if kids.rest.NoMore? then At(b, q, Closer(obj)) && e == q + 1
        else At(b, q, COMMA) && IsKids(b, obj, Skip(b, q + 1), e, kids.rest))
  }

  /** A key at p, its colon, and the start of its value. */
  ghost predicate IsKey(b: seq<byte>, p: nat, k: Kids)
    requires k.Kid?
  {
    && k.keyStart == p < k.keyEnd <= |b| && IsString(b[p..k.keyEnd])
    && At(b, Skip(b, k.keyEnd), COLON) && k.value.start == Skip(b, Skip(b, k.keyEnd) + 1)
  }

  /** JSON-text = ws value ws */
  ghost predicate IsDocument(b: seq<byte>, n: Node) {
    IsValue(b, n) && n.start == Skip(b, 0) && Skip(b, n.end) == |b|
  }

  // ---- The limits ----

  /** Tokens: one per value and one per key. */
  function Size(n: Node): (s: nat)
    ensures s > 0
    decreases n
  {
    match n case Leaf(_, _, _) => 1 case Group(obj, _, _, kids) => 1 + KidsSize(obj, kids)
  }

  function KidsSize(obj: bool, kids: Kids): nat
    decreases kids
  {
    match kids
    case NoMore => 0
    case Kid(_, _, value, rest) => (if obj then 1 else 0) + Size(value) + KidsSize(obj, rest)
  }

  predicate Nested(n: Node, depth: nat)
    decreases n
  {
    match n
    case Leaf(_, _, _) => depth <= MAX_DEPTH
    case Group(_, _, _, kids) => depth < MAX_DEPTH && KidsNested(kids, depth + 1)
  }

  predicate KidsNested(kids: Kids, depth: nat)
    decreases kids
  {
    kids.Kid? ==> Nested(kids.value, depth) && KidsNested(kids.rest, depth)
  }

  /** A decoded key. */
  function KeyText(b: seq<byte>, keyStart: nat): seq<byte> {
    match Text(b, keyStart, MAX_STRING) case None => [] case Some(r) => r.decoded
  }

  /** No object repeats a decoded key. */
  predicate Unrepeated(b: seq<byte>, n: Node)
    decreases n
  {
    n.Group? ==> KidsUnrepeated(b, n.obj, n.kids, {})
  }

  predicate KidsUnrepeated(b: seq<byte>, obj: bool, kids: Kids, seen: set<seq<byte>>)
    decreases kids
  {
    kids.Kid? ==>
      && (obj ==> KeyText(b, kids.keyStart) !in seen) && Unrepeated(b, kids.value)
      && KidsUnrepeated(b, obj, kids.rest, if obj then seen + {KeyText(b, kids.keyStart)} else seen)
  }

  // ---- The parser ----

  datatype Parsed = Parsed(node: Node, count: nat)
  datatype ParsedKids = ParsedKids(kids: Kids, end: nat, count: nat)

  function ParseLeaf(b: seq<byte>, p: nat): (r: Option<Node>)
    requires p < |b|
    ensures r.Some? ==> r.value.Leaf? && r.value.start == p < r.value.end <= |b|
  {
    var c := b[p];
    if c == QUOTE then match Text(b, p, MAX_STRING) case None => None case Some(r) => Some(Leaf(String, p, r.end))
    else if LiteralStart(c) then
      var s := LiteralText(c);
      if p + |s| <= |b| && b[p..p + |s|] == s then Some(Leaf(LiteralKind(c), p, p + |s|)) else None
    else match NumberEnd(b, p) case None => None case Some(e) => Some(Leaf(Numeral, p, e))
  }

  /** value(): the value after whitespace from p, at this depth, with `count` tokens used before it. */
  function ParseValue(b: seq<byte>, p: nat, depth: nat, count: nat): (r: Option<Parsed>)
    ensures r.Some? ==> p <= r.value.node.start < r.value.node.end <= |b| && r.value.node.start == Skip(b, p)
    decreases |b| - p, 0
  {
    var start := Skip(b, p);
    if depth > MAX_DEPTH || start >= |b| || count >= MAX_TOKENS then None
    else if b[start] == Opener(true) || b[start] == Opener(false) then
      var obj := b[start] == Opener(true);
      var q := Skip(b, start + 1);
      if depth == MAX_DEPTH then None
      else if At(b, q, Closer(obj)) then Some(Parsed(Group(obj, start, q + 1, NoMore), count + 1))
      else
        match ParseKids(b, obj, q, depth, count + 1, {})
        case None => None
        case Some(r) => Some(Parsed(Group(obj, start, r.end, r.kids), r.count))
    else match ParseLeaf(b, start) case None => None case Some(n) => Some(Parsed(n, count + 1))
  }

  datatype ParsedKey = ParsedKey(end: nat, text: seq<byte>, value: nat, count: nat)

  /** A key at p and its colon: where its value may start. An array element has no key. */
  function ParseKey(b: seq<byte>, obj: bool, p: nat, count: nat, seen: set<seq<byte>>): (r: Option<ParsedKey>)
    ensures r.Some? ==> p <= r.value.value
  {
    if !obj then Some(ParsedKey(0, [], p, count))
    else if count >= MAX_TOKENS then None
    else
      match Text(b, p, MAX_STRING)
      case None => None
      case Some(r) =>
        var q := Skip(b, r.end);
        if r.decoded in seen || !At(b, q, COLON) then None else Some(ParsedKey(r.end, r.decoded, q + 1, count + 1))
  }

  function ParseKids(b: seq<byte>, obj: bool, p: nat, depth: nat, count: nat, seen: set<seq<byte>>):
      (r: Option<ParsedKids>)
    ensures r.Some? ==> p < r.value.end <= |b| && r.value.kids.Kid?
    decreases |b| - p, 1
  {
    match ParseKey(b, obj, p, count, seen)
    case None => None
    case Some(key) =>
      if key.value > |b| then None
      else
        match ParseValue(b, key.value, depth + 1, key.count)
        case None => None
        case Some(v) =>
          var start := if obj then p else 0;
          var q := Skip(b, v.node.end);
          if At(b, q, Closer(obj)) then Some(ParsedKids(Kid(start, key.end, v.node, NoMore), q + 1, v.count))
          else if !At(b, q, COMMA) then None
          else
            match ParseKids(b, obj, Skip(b, q + 1), depth, v.count, if obj then seen + {key.text} else seen)
            case None => None
            case Some(r) => Some(ParsedKids(Kid(start, key.end, v.node, r.kids), r.end, r.count))
  }

  /** parse(). */
  function Parse(b: seq<byte>): Option<Parsed> {
    if b == [] || |b| > MAX_SIZE then None
    else
      match ParseValue(b, 0, 0, 0)
      case None => None
      case Some(r) => if Skip(b, r.node.end) == |b| then Some(r) else None
  }

  // ---- Everything accepted is a document within the limits ----

  lemma {:induction false} SkipAgain(b: seq<byte>, p: nat)
    ensures Skip(b, Skip(b, p)) == Skip(b, p)
    decreases |b| - p
  {
    if p < |b| && Space(b[p]) {
      SkipAgain(b, p + 1);
    }
  }

  lemma StringSound(b: seq<byte>, p: nat)
    requires Text(b, p, MAX_STRING).Some?
    ensures IsString(b[p..Text(b, p, MAX_STRING).value.end])
  {
    hide Text, Proper, Spelled, Encoded;
    TextSound(b, p, MAX_STRING);
    var gs :| Accounts(b, p, Text(b, p, MAX_STRING).value, gs);
  }

  lemma LiteralSound(b: seq<byte>, p: nat)
    requires p < |b| && LiteralStart(b[p]) && ParseLeaf(b, p).Some?
    ensures IsValue(b, ParseLeaf(b, p).value)
  {
    hide Text, NumberEnd, IsString, IsNumber;
    var n := ParseLeaf(b, p).value;
    assert b[p..n.end] == LiteralText(b[p]);
  }

  lemma LeafSound(b: seq<byte>, p: nat)
    requires p < |b| && ParseLeaf(b, p).Some?
    ensures IsValue(b, ParseLeaf(b, p).value)
  {
    hide Text, NumberEnd, IsString, IsNumber, LiteralText;
    if b[p] == QUOTE {
      StringSound(b, p);
    } else if LiteralStart(b[p]) {
      hide ParseLeaf, IsLeaf;
      LiteralSound(b, p);
    } else {
      NumberSound(b, p);
      NumberIs(b[p..NumberEnd(b, p).value], PartsOf(b, p));
    }
  }

  lemma NumberIs(s: seq<byte>, n: Number)
    requires ValidNumber(n) && s == Written(n)
    ensures IsNumber(s)
  {
  }

  lemma KeySound(b: seq<byte>, p: nat, count: nat, seen: set<seq<byte>>, v: Node, rest: Kids)
    requires ParseKey(b, true, p, count, seen).Some?
    requires v.start == Skip(b, ParseKey(b, true, p, count, seen).value.value)
    ensures var key := ParseKey(b, true, p, count, seen).value;
      && IsKey(b, p, Kid(p, key.end, v, rest)) && key.text == KeyText(b, p) && key.text !in seen && key.count == count + 1
  {
    hide Text, IsString;
    StringSound(b, p);
  }

  lemma {:induction false} ValueSound(b: seq<byte>, p: nat, depth: nat, count: nat)
    requires ParseValue(b, p, depth, count).Some?
    ensures var r := ParseValue(b, p, depth, count).value;
      && IsValue(b, r.node) && Unrepeated(b, r.node) && Nested(r.node, depth) && r.count == count + Size(r.node) <= MAX_TOKENS
    decreases |b| - p, 0
  {
    hide ParseLeaf, ParseKids, IsKids, IsLeaf;
    var start := Skip(b, p);
    if b[start] == Opener(true) || b[start] == Opener(false) {
      var obj := b[start] == Opener(true);
      var q := Skip(b, start + 1);
      if !At(b, q, Closer(obj)) {
        SkipAgain(b, start + 1);
        KidsSound(b, obj, q, depth, count + 1, {});
      }
    } else {
      LeafSound(b, start);
    }
  }

  /** ParseKids, one member at a time. */
  lemma MemberParsed(b: seq<byte>, obj: bool, p: nat, depth: nat, count: nat, seen: set<seq<byte>>, key: ParsedKey, v: Parsed)
    requires ParseKey(b, obj, p, count, seen) == Some(key) && key.value <= |b|
    requires ParseValue(b, key.value, depth + 1, key.count) == Some(v)
    ensures var start := if obj then p else 0; var q := Skip(b, v.node.end);
      ParseKids(b, obj, p, depth, count, seen) ==
        if At(b, q, Closer(obj)) then Some(ParsedKids(Kid(start, key.end, v.node, NoMore), q + 1, v.count))
        else if !At(b, q, COMMA) then None
        else
          match ParseKids(b, obj, Skip(b, q + 1), depth, v.count, if obj then seen + {key.text} else seen)
          case None => None
          case Some(r) => Some(ParsedKids(Kid(start, key.end, v.node, r.kids), r.end, r.count))
  {
    hide ParseKey, ParseValue, Skip, At, Closer;
  }

  lemma MemberNeeded(b: seq<byte>, obj: bool, p: nat, depth: nat, count: nat, seen: set<seq<byte>>)
    requires ParseKids(b, obj, p, depth, count, seen).Some?
    ensures var r := ParseKey(b, obj, p, count, seen);
      r.Some? && r.value.value <= |b| && ParseValue(b, r.value.value, depth + 1, r.value.count).Some?
  {
    hide ParseKey, ParseValue, Skip, At, Closer;
  }

  /** What a list of members must satisfy, given its first member and the rest. */
  predicate ListOk(b: seq<byte>, obj: bool, kids: Kids, seen: set<seq<byte>>, depth: nat, room: int) {
    KidsUnrepeated(b, obj, kids, seen) && KidsNested(kids, depth) && KidsSize(obj, kids) <= room
  }

  lemma ListOne(b: seq<byte>, obj: bool, kids: Kids, seen: set<seq<byte>>, depth: nat, room: int)
    requires kids.Kid?
    ensures ListOk(b, obj, kids, seen, depth, room) <==>
      && (obj ==> KeyText(b, kids.keyStart) !in seen) && Unrepeated(b, kids.value) && Nested(kids.value, depth)
      && ListOk(b, obj, kids.rest, if obj then seen + {KeyText(b, kids.keyStart)} else seen, depth,
                room - Size(kids.value) - (if obj then 1 else 0))
    ensures KidsSize(obj, kids) == (if obj then 1 else 0) + Size(kids.value) + KidsSize(obj, kids.rest)
    ensures KidsSize(obj, NoMore) == 0
  {
    hide KeyText, Unrepeated, Nested, Size;
  }

  lemma ListNone(b: seq<byte>, obj: bool, seen: set<seq<byte>>, depth: nat, room: int)
    ensures ListOk(b, obj, NoMore, seen, depth, room) <==> room >= 0
    ensures KidsSize(obj, NoMore) == 0
  {
  }

  ghost predicate IsMember(b: seq<byte>, obj: bool, p: nat, kids: Kids)
    requires kids.Kid?
  {
    && (if obj then IsKey(b, p, kids) else kids.keyStart == kids.keyEnd == 0 && kids.value.start == p)
    && IsValue(b, kids.value)
  }

  lemma KidsOne(b: seq<byte>, obj: bool, p: nat, e: nat, kids: Kids)
    requires kids.Kid?
    ensures var q := Skip(b, kids.value.end);
      IsKids(b, obj, p, e, kids) <==>
        && IsMember(b, obj, p, kids)
        && if kids.rest.NoMore? then At(b, q, Closer(obj)) && e == q + 1
           else At(b, q, COMMA) && IsKids(b, obj, Skip(b, q + 1), e, kids.rest)
  {
    hide IsKey, IsValue, Skip, At, Closer;
  }

  /** The first member, as parsed, is one. */
  lemma MemberSound(b: seq<byte>, obj: bool, p: nat, count: nat, seen: set<seq<byte>>, v: Node, rest: Kids)
    requires ParseKey(b, obj, p, count, seen).Some? && Skip(b, p) == p && IsValue(b, v)
    requires v.start == Skip(b, ParseKey(b, obj, p, count, seen).value.value)
    ensures var key := ParseKey(b, obj, p, count, seen).value;
      && IsMember(b, obj, p, Kid(if obj then p else 0, key.end, v, rest))
      && (obj ==> key.text == KeyText(b, p) && key.text !in seen) && key.count == count + (if obj then 1 else 0)
  {
    hide IsValue, IsKey, ParseKey, KeyText;
    if obj {
      KeySound(b, p, count, seen, v, rest);
    } else {
      NoKey(b, p, count, seen);
    }
  }

  lemma {:induction false} KidsSound(b: seq<byte>, obj: bool, p: nat, depth: nat, count: nat, seen: set<seq<byte>>)
    requires ParseKids(b, obj, p, depth, count, seen).Some? && Skip(b, p) == p
    ensures var r := ParseKids(b, obj, p, depth, count, seen).value;
      && IsKids(b, obj, p, r.end, r.kids) && ListOk(b, obj, r.kids, seen, depth + 1, MAX_TOKENS - count)
      && r.count == count + KidsSize(obj, r.kids)
    decreases |b| - p, 1
  {
    hide ParseKids, IsKids, IsMember, ListOk, KidsSize, ParseValue, Unrepeated, Nested, KeyText, Size, Skip, At, ParseKey, IsValue;
    MemberNeeded(b, obj, p, depth, count, seen);
    var key := ParseKey(b, obj, p, count, seen).value;
    ValueSound(b, key.value, depth + 1, key.count);
    var v := ParseValue(b, key.value, depth + 1, key.count).value;
    var r := ParseKids(b, obj, p, depth, count, seen).value;
    var more := if obj then seen + {key.text} else seen;
    var q := Skip(b, v.node.end);
    MemberParsed(b, obj, p, depth, count, seen, key, v);
    MemberSound(b, obj, p, count, seen, v.node, r.kids.rest);
    KidsOne(b, obj, p, r.end, r.kids);
    ListOne(b, obj, r.kids, seen, depth + 1, MAX_TOKENS - count);
    ListNone(b, obj, more, depth + 1, MAX_TOKENS - v.count);
    if !At(b, q, Closer(obj)) {
      SkipAgain(b, q + 1);
      KidsSound(b, obj, Skip(b, q + 1), depth, v.count, more);
    }
  }

  // ---- Every document within the limits is accepted ----

  /** What may follow a value. */
  predicate Ends(b: seq<byte>, e: nat) {
    e >= |b| || Space(b[e]) || b[e] == COMMA || b[e] == Closer(true) || b[e] == Closer(false)
  }

  lemma StringReads(b: seq<byte>, p: nat, e: nat)
    requires p < e <= |b| && IsString(b[p..e])
    ensures b[p] == QUOTE && Text(b, p, MAX_STRING).Some? && Text(b, p, MAX_STRING).value.end == e
  {
    hide Text, Proper, Spelled, Encoded;
    var gs :| Proper(gs) && b[p..e] == [QUOTE] + Spelled(gs) + [QUOTE] && |Encoded(gs)| <= MAX_STRING;
    TextIff(b, p, e, MAX_STRING, gs);
    assert b[p] == b[p..e][0];
  }

  lemma NumberReads(b: seq<byte>, p: nat, e: nat)
    requires p < e <= |b| && IsNumber(b[p..e]) && Ends(b, e)
    ensures NumberEnd(b, p) == Some(e) && (b[p] == MINUS || Digit(b[p]))
  {
    hide NumberEnd;
    var n :| ValidNumber(n) && b[p..e] == Written(n);
    NumberComplete(b, p, e, n);
    Slices(b, p, e, n);
    WholeStart(n.whole);
  }

  lemma LiteralReads(b: seq<byte>, n: Node)
    requires n.start < n.end <= |b| && n.Leaf? && (n.kind.Boolean? || n.kind.Null?) && IsLeaf(b[n.start..n.end], n.kind)
    ensures ParseLeaf(b, n.start) == Some(n) && LiteralStart(b[n.start])
  {
    hide Text, NumberEnd;
    assert b[n.start] == b[n.start..n.end][0];
  }

  lemma LeafReads(b: seq<byte>, n: Node)
    requires IsValue(b, n) && n.Leaf? && Ends(b, n.end)
    ensures ParseLeaf(b, n.start) == Some(n) && b[n.start] != Opener(true) && b[n.start] != Opener(false)
  {
    hide Text, NumberEnd, IsString, IsNumber, LiteralText, Ends;
    if n.kind.String? {
      StringReads(b, n.start, n.end);
    } else if n.kind.Numeral? {
      NumberReads(b, n.start, n.end);
    } else if n.kind.Boolean? || n.kind.Null? {
      hide ParseLeaf;
      LiteralReads(b, n);
    }
  }

  lemma StartChar(b: seq<byte>, n: Node)
    requires IsValue(b, n)
    ensures b[n.start] != Closer(true) && b[n.start] != Closer(false) && !Space(b[n.start])
  {
    hide IsString, IsNumber, IsKids;
    if n.Leaf? {
      var s := b[n.start..n.end];
      assert b[n.start] == s[0];
      match n.kind
      case String => StringStart(s);
      case Numeral => NumberStart(s);
      case _ =>
    }
  }

  lemma StringStart(s: seq<byte>)
    requires IsString(s)
    ensures |s| > 0 && s[0] == QUOTE
  {
    hide Proper, Spelled, Encoded;
  }

  lemma NumberStart(s: seq<byte>)
    requires IsNumber(s)
    ensures |s| > 0 && (s[0] == MINUS || Digit(s[0]))
  {
    var n :| ValidNumber(n) && s == Written(n);
    WholeStart(n.whole);
  }

  lemma {:induction false} ValueComplete(b: seq<byte>, p: nat, depth: nat, count: nat, n: Node)
    requires IsValue(b, n) && n.start == Skip(b, p) && Unrepeated(b, n) && Nested(n, depth) && count + Size(n) <= MAX_TOKENS
    requires Ends(b, n.end)
    ensures ParseValue(b, p, depth, count) == Some(Parsed(n, count + Size(n)))
    decreases n
  {
    hide ParseLeaf, ParseKids, IsKids, IsLeaf;
    if n.Leaf? {
      LeafReads(b, n);
    } else if n.kids.Kid? {
      var q := Skip(b, n.start + 1);
      SkipAgain(b, n.start + 1);
      KidsComplete(b, n.obj, q, depth, count + 1, {}, n.end, n.kids);
      KidsStart(b, n.obj, q, n.end, n.kids);
    }
  }

  lemma KidsStart(b: seq<byte>, obj: bool, p: nat, e: nat, kids: Kids)
    requires IsKids(b, obj, p, e, kids)
    ensures !At(b, p, Closer(obj))
  {
    hide IsString;
    if obj {
      StringStart(b[p..kids.keyEnd]);
    } else {
      StartChar(b, kids.value);
    }
  }

  lemma KeyComplete(b: seq<byte>, p: nat, count: nat, seen: set<seq<byte>>, k: Kids)
    requires k.Kid? && IsKey(b, p, k) && KeyText(b, p) !in seen && count < MAX_TOKENS
    ensures ParseKey(b, true, p, count, seen) == Some(ParsedKey(k.keyEnd, KeyText(b, p), Skip(b, k.keyEnd) + 1, count + 1))
  {
    hide Text, IsString;
    StringReads(b, p, k.keyEnd);
  }

  /** The key of the first member, if any, is read as it stands. */
  lemma MemberComplete(b: seq<byte>, obj: bool, p: nat, count: nat, seen: set<seq<byte>>, kids: Kids)
    requires kids.Kid? && IsMember(b, obj, p, kids) && (obj ==> KeyText(b, kids.keyStart) !in seen && count < MAX_TOKENS)
    requires Skip(b, p) == p
    requires At(b, Skip(b, kids.value.end), COMMA) || At(b, Skip(b, kids.value.end), Closer(obj))
    ensures var r := ParseKey(b, obj, p, count, seen);
      && r.Some? && r.value.end == kids.keyEnd && kids.keyStart == (if obj then p else 0) && r.value.value <= |b|
      && Skip(b, r.value.value) == kids.value.start && r.value.count == (if obj then count + 1 else count)
      && (obj ==> r.value.text == KeyText(b, p)) && Ends(b, kids.value.end)
  {
    hide IsValue, ParseKey, Skip, At, KeyText, IsKey;
    if obj {
      KeyPlace(b, p, kids);
      KeyComplete(b, p, count, seen, kids);
    } else {
      NoKey(b, p, count, seen);
      Inside(b, kids.value);
    }
    EndsAt(b, kids.value.end, obj);
  }

  lemma Inside(b: seq<byte>, n: Node)
    requires IsValue(b, n)
    ensures n.start < |b|
  {
  }

  lemma {:induction false} KidsComplete(b: seq<byte>, obj: bool, p: nat, depth: nat, count: nat, seen: set<seq<byte>>, e: nat,
                                        kids: Kids)
    requires kids.Kid? && IsKids(b, obj, p, e, kids) && ListOk(b, obj, kids, seen, depth + 1, MAX_TOKENS - count) && Skip(b, p) == p
    ensures ParseKids(b, obj, p, depth, count, seen) == Some(ParsedKids(kids, e, count + KidsSize(obj, kids)))
    decreases kids
  {
    hide ParseKids, IsKids, ListOk, KidsSize, ParseValue, Unrepeated, Nested, KeyText, Size, Skip, At, ParseKey, IsMember, Ends, Closer, IsValue;
    MemberValue(b, obj, p, kids);
    KidsOne(b, obj, p, e, kids);
    ListOne(b, obj, kids, seen, depth + 1, MAX_TOKENS - count);
    ListSize(b, obj, kids, seen, depth + 1, MAX_TOKENS - count);
    MemberComplete(b, obj, p, count, seen, kids);
    var key := ParseKey(b, obj, p, count, seen).value;
    ValueComplete(b, key.value, depth + 1, key.count, kids.value);
    var v := Parsed(kids.value, key.count + Size(kids.value));
    MemberParsed(b, obj, p, depth, count, seen, key, v);
    var q := Skip(b, kids.value.end);
    if kids.rest.Kid? {
      SkipAgain(b, q + 1);
      NotCloser(b, q, obj);
      KidsComplete(b, obj, Skip(b, q + 1), depth, v.count, if obj then seen + {key.text} else seen, e, kids.rest);
    }
  }

  lemma MemberValue(b: seq<byte>, obj: bool, p: nat, kids: Kids)
    requires kids.Kid?
    ensures IsMember(b, obj, p, kids) ==> IsValue(b, kids.value)
  {
    hide IsValue, IsKey;
  }

  lemma ListSize(b: seq<byte>, obj: bool, kids: Kids, seen: set<seq<byte>>, depth: nat, room: int)
    requires ListOk(b, obj, kids, seen, depth, room)
    ensures KidsSize(obj, kids) <= room
  {
  }

  lemma NotCloser(b: seq<byte>, q: nat, obj: bool)
    requires At(b, q, COMMA)
    ensures !At(b, q, Closer(obj))
  {
  }

  lemma NoKey(b: seq<byte>, p: nat, count: nat, seen: set<seq<byte>>)
    ensures ParseKey(b, false, p, count, seen) == Some(ParsedKey(0, [], p, count))
  {
  }

  lemma KeyPlace(b: seq<byte>, p: nat, k: Kids)
    requires k.Kid? && IsKey(b, p, k)
    ensures k.keyStart == p && k.value.start == Skip(b, Skip(b, k.keyEnd) + 1) && Skip(b, k.keyEnd) < |b|
  {
    hide IsString;
  }

  lemma EndsAt(b: seq<byte>, e: nat, obj: bool)
    requires At(b, Skip(b, e), COMMA) || At(b, Skip(b, e), Closer(obj))
    ensures Ends(b, e)
  {
  }

  // ---- The theorem ----

  /** A document within every limit. */
  ghost predicate Acceptable(b: seq<byte>, n: Node) {
    |b| <= MAX_SIZE && IsDocument(b, n) && Unrepeated(b, n) && Nested(n, 0) && Size(n) <= MAX_TOKENS
  }

  /** parse() accepts exactly the acceptable documents, and finds their one tree. */
  lemma ParseIff(b: seq<byte>, n: Node)
    ensures Acceptable(b, n) <==> Parse(b).Some? && Parse(b).value.node == n
    ensures Parse(b).Some? ==> Parse(b).value.count == Size(Parse(b).value.node) && Acceptable(b, Parse(b).value.node)
  {
    hide IsValue, ParseValue, Unrepeated, Nested, Size;
    if Acceptable(b, n) {
      ValueComplete(b, 0, 0, 0, n);
      NotEmpty(b, n);
    }
    if Parse(b).Some? {
      ValueSound(b, 0, 0, 0);
    }
  }

  lemma NotEmpty(b: seq<byte>, n: Node)
    requires IsValue(b, n)
    ensures b != []
  {
  }
}
