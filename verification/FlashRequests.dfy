/** dispatch_upload(): what a parsed document asks of the flash service. */
module FlashRequests {
  import opened Bytes
  import opened Json
  import opened JsonTokens
  import opened JsonDocument
  import JsonText
  import JsonNumber
  import UploadText
  import Image = StatefulImage
  import S = Session

  /** What a begin request must name. */
  datatype Site = Site(board: seq<byte>, format: seq<byte>)

  const METHODS: seq<string> := ["flash.begin", "flash.status", "flash.finish", "flash.commit", "flash.abort"]
  const FIELDS: seq<string> := ["op", "target_id", "board_id", "format", "size", "sha256", "upload_id"]

  // ---- What the members of the root object say ----

  function Root(b: seq<byte>): Option<Kids> {
    match Parse(b)
    case None => None
    case Some(r) => if r.node.Group? && r.node.obj then Some(r.node.kids) else None
  }

  function Keys(b: seq<byte>, kids: Kids): set<seq<byte>> {
    match kids case NoMore => {} case Kid(ks, _, _, rest) => {KeyText(b, ks)} + Keys(b, rest)
  }

  /** The text under this key, when it is a string of at most `room` bytes. */
  function WordUnder(b: seq<byte>, kids: Kids, key: string, room: nat): Option<seq<byte>> {
    match MemberWith(b, kids, Ascii(key))
    case None => None
    case Some(n) => if n.Leaf? && n.kind.String? && |KeyText(b, n.start)| <= room then Some(KeyText(b, n.start)) else None
  }

  /** The number under this key, when it is a plain run of digits from 1 to 2^32 - 1. */
  function NumberUnder(b: seq<byte>, kids: Kids, key: string): Option<uint32> {
    match MemberWith(b, kids, Ascii(key))
    case None => None
    case Some(n) =>
      if !(n.Leaf? && n.kind.Numeral? && n.start <= n.end <= |b|) then None
      else
        var s := b[n.start..n.end];
        if JsonNumber.Digits(s) && 0 < Decimal(s) < WORD_SPAN then Some(Decimal(s)) else None
  }

  predicate HexText(s: seq<byte>) {
    |s| == 64 && forall i :: 0 <= i < 64 ==> UploadText.Nibble(s[i]) < 16
  }

  function Pair(s: seq<byte>, i: nat): byte
    requires HexText(s) && i < 32
  {
    16 * UploadText.Nibble(s[2 * i]) + UploadText.Nibble(s[2 * i + 1])
  }

  function DigestOf(s: seq<byte>): Image.Digest
    requires HexText(s)
  {
    seq(32, i requires 0 <= i < 32 => Pair(s, i))
  }

  function VerbOf(op: seq<byte>): Option<S.Verb> {
    if op == Ascii("flash.begin") then Some(S.FlashBegin)
    else if op == Ascii("flash.status") then Some(S.FlashStatus)
    else if op == Ascii("flash.finish") then Some(S.FlashFinish)
    else if op == Ascii("flash.commit") then Some(S.FlashCommit)
    else if op == Ascii("flash.abort") then Some(S.FlashAbort)
    else None
  }

  /** Exactly these members must be present. */
  function Required(v: S.Verb): set<seq<byte>> {
    if v.FlashBegin? then
      {Ascii("op"), Ascii("target_id"), Ascii("board_id"), Ascii("format"), Ascii("size"), Ascii("sha256")}
    else {Ascii("op"), Ascii("target_id"), Ascii("upload_id")}
  }

  const NO_DIGEST: Image.Digest := Fill(32, 0)

  /** What dispatch_upload() looks at. */
  datatype Members = Members(keys: set<seq<byte>>, op: Option<seq<byte>>, target: Option<uint32>, id: Option<uint32>,
                             size: Option<uint32>, board: Option<seq<byte>>, format: Option<seq<byte>>, hash: Option<seq<byte>>)

  function MembersOf(b: seq<byte>, kids: Kids): Members {
    Members(Keys(b, kids), WordUnder(b, kids, "op", 32), NumberUnder(b, kids, "target_id"), NumberUnder(b, kids, "upload_id"),
            NumberUnder(b, kids, "size"), WordUnder(b, kids, "board_id", 32), WordUnder(b, kids, "format", 32),
            WordUnder(b, kids, "sha256", 64))
  }

  /** Every required member is there and readable, and no other member is there. */
  predicate Complete(m: Members, v: S.Verb) {
    && m.keys == Required(v) && m.target.Some?
    && if v.FlashBegin? then
         && m.size.Some? && m.board.Some? && m.board.value != [] && m.format.Some? && m.format.value != []
         && m.hash.Some? && HexText(m.hash.value)
       else m.id.Some?
  }

  function CallOf(m: Members, v: S.Verb, site: Site): S.Call {
    if !Complete(m, v) then S.Flash(v, false, 0, false, 0, 0, NO_DIGEST)
    else if v.FlashBegin? then
      S.Flash(v, true, m.target.value, m.board.value == site.board && m.format.value == site.format, 0, m.size.value,
              DigestOf(m.hash.value))
    else S.Flash(v, true, m.target.value, false, m.id.value, 0, NO_DIGEST)
  }

  /** The flash call that these members ask for, if they name one of the five methods. */
  function Asked(m: Members, site: Site): Option<S.Call> {
    match m.op
    case None => None
    case Some(op) => match VerbOf(op) case None => None case Some(v) => Some(CallOf(m, v, site))
  }

  function FlashOf(b: seq<byte>, site: Site): Option<S.Call> {
    match Root(b) case None => None case Some(kids) => Asked(MembersOf(b, kids), site)
  }

  // ---- Tokens and members ----

  /** The keys that a scan of the token array sees are the members' keys. */
  lemma {:induction false} ScannedKeys(b: seq<byte>, done: seq<Token>, kids: Kids)
    requires done != []
    ensures KeySet(b, done + KidTokens(true, kids, 0, |done|), 0) == KeySet(b, done, 0) + Keys(b, kids)
    decreases kids
  {
    hide Tokens, KidTokens, Size, KeyText, KeySet;
    if kids.Kid? {
      var from := |done|;
      var k := Token(String, kids.keyStart, kids.keyEnd, 0, from + 1, true);
      var v := Tokens(kids.value, 0, from + 1);
      var rest := KidTokens(true, kids.rest, 0, from + 1 + Size(kids.value));
      TokensCons(true, kids, 0, from);
      var head := done + [k] + v;
      assert done + KidTokens(true, kids, 0, from) == done + ([k] + v + rest) == head + rest;
      KeySetSnoc(b, done, k, 0);
      SubtreeKeys(kids.value, 0, from + 1);
      KeySetSame(b, done + [k], v, 0);
      ScannedKeys(b, head, kids.rest);
    } else {
      NoTokens(true, 0, |done|);
      assert done + [] == done;
    }
  }

  lemma RootKeys(b: seq<byte>)
    requires Root(b).Some?
    ensures KeySet(b, DocumentTokens(b), 0) == Keys(b, Root(b).value)
  {
    hide Parse, KidTokens, Size, Keys, KeySet;
    RootToken(b);
    var ts, kids := DocumentTokens(b), Root(b).value;
    assert ts == [ts[0]] + ts[1..];
    RootFirst(b);
    assert KeySet(b, [ts[0]], 0) == {} by { KeySetNone(b, [ts[0]], 0); }
    ScannedKeys(b, [ts[0]], kids);
  }

  lemma RootFirst(b: seq<byte>)
    requires Root(b).Some?
    ensures DocumentTokens(b) != [] && !DocumentTokens(b)[0].key
  {
    hide Parse, KidTokens, Size;
  }

  /** A found member is the token of its own value, and its text is the value's. */
  lemma FoundToken(b: seq<byte>, key: seq<byte>)
    requires Root(b).Some?
    ensures FindRoot(b, key).Some? <==> MemberWith(b, Root(b).value, key).Some?
    ensures FindRoot(b, key).Some? ==>
      var at, n, ts := FindRoot(b, key).value, MemberWith(b, Root(b).value, key).value, DocumentTokens(b);
      && at < |ts| && ts[at].start == n.start && ts[at].end == n.end && IsValue(b, n)
      && (if n.Leaf? then ts[at].kind == n.kind else ts[at].kind == GroupKind(n.obj))
  {
    hide Parse, Tokens, FindKid, MemberWith, StandsAt, IsValue, IsDocument, Nested, Unrepeated;
    RootMember(b, key);
    var n := Parse(b).value.node;
    ParseIff(b, n);
    RootIs(b, n);
    MemberIsValue(b, n.kids, Skip(b, n.start + 1), n.end, key);
    if FindRoot(b, key).Some? {
      var at, m := FindRoot(b, key).value, MemberWith(b, n.kids, key).value;
      FirstToken(b, Tokens(n, NO_PARENT, 0), at, m, key);
    }
  }

  lemma RootIs(b: seq<byte>, n: Node)
    requires IsDocument(b, n) && n.Group? && n.obj
    ensures n.kids.Kid? ==> IsKids(b, true, Skip(b, n.start + 1), n.end, n.kids)
  {
    hide IsKids;
  }

  lemma FirstToken(b: seq<byte>, ts: seq<Token>, at: nat, n: Node, key: seq<byte>)
    requires StandsAt(b, ts, at, n, key, 0, 0)
    ensures at < |ts| && ts[at].start == n.start && ts[at].end == n.end
    ensures if n.Leaf? then ts[at].kind == n.kind else ts[at].kind == GroupKind(n.obj)
  {
    hide KidTokens, KeyText;
    assert ts[at] == ts[at..at + Size(n)][0] == Tokens(n, 0, at)[0];
  }

  lemma {:induction false} MemberIsValue(b: seq<byte>, kids: Kids, p: nat, e: nat, key: seq<byte>)
    requires kids.Kid? ==> IsKids(b, true, p, e, kids)
    ensures MemberWith(b, kids, key).Some? ==> IsValue(b, MemberWith(b, kids, key).value)
    decreases kids
  {
    hide IsValue, KeyText, IsKey;
    if kids.Kid? && kids.rest.Kid? {
      MemberIsValue(b, kids.rest, Skip(b, Skip(b, kids.value.end) + 1), e, key);
    }
  }

  /** string() into a buffer of `size` bytes: the text, when it fits with its terminator. */
  lemma StringFits(b: seq<byte>, n: Node, size: nat)
    requires IsValue(b, n) && n.Leaf? && n.kind.String? && 0 < size
    ensures var r := JsonText.Text(b[..n.end], n.start, JsonText.Limit(Some(size)));
      && (r.Some? <==> |KeyText(b, n.start)| <= size - 1)
      && (r.Some? ==> r.value.decoded == KeyText(b, n.start))
  {
    hide JsonText.Text, JsonText.Proper, JsonText.Spelled, JsonText.Encoded;
    StringReads(b, n.start, n.end);
    JsonText.TextSound(b, n.start, JsonText.MAX_STRING);
    var whole := JsonText.Text(b, n.start, JsonText.MAX_STRING).value;
    var gs :| JsonText.Accounts(b, n.start, whole, gs);
    assert b[..n.end][n.start..n.end] == b[n.start..n.end];
    JsonText.TextIff(b[..n.end], n.start, n.end, JsonText.Limit(Some(size)), gs);
  }

  // ---- The reader ----

  /** find() and string(). */
  method Word(d: Document, key: string, size: nat) returns (w: Option<seq<byte>>)
    requires d.Holds() && 0 < size
    ensures w == match Root(d.bytes) case None => None case Some(kids) => WordUnder(d.bytes, kids, key, size - 1)
  {
    hide Parse, FindKid, MemberWith, KeyText, JsonText.Text, KeysOk, IsValue, Ascii;
    ghost var b := d.bytes;
    var at := d.Find(Ascii(key));
    if at < 0 {
      if Root(b).Some? {
        FoundToken(b, Ascii(key));
      }
      return None;
    }
    FoundToken(b, Ascii(key));
    ghost var n := MemberWith(b, Root(b).value, Ascii(key)).value;
    assert d.tokens[..d.count][at] == d.tokens[at];
    ValueSpan(b, n);
    var out := new byte[size];
    var ok, length := d.StringAt(at, out);
    if n.Leaf? && n.kind.String? {
      StringFits(b, n, size);
    }
    w := if ok then Some(out[..length]) else None;
  }

  lemma ValueSpan(b: seq<byte>, n: Node)
    requires IsValue(b, n)
    ensures n.start < n.end <= |b|
  {
  }

  /** find() and uint32(); zero is no number here. */
  method Number(d: Document, key: string) returns (r: Option<uint32>)
    requires d.Holds()
    ensures r == match Root(d.bytes) case None => None case Some(kids) => NumberUnder(d.bytes, kids, key)
  {
    hide Parse, FindKid, MemberWith, KeysOk, IsValue, Ascii, Decimal, JsonNumber.Digits;
    ghost var b := d.bytes;
    var at := d.Find(Ascii(key));
    if at < 0 {
      if Root(b).Some? {
        FoundToken(b, Ascii(key));
      }
      return None;
    }
    FoundToken(b, Ascii(key));
    ghost var n := MemberWith(b, Root(b).value, Ascii(key)).value;
    assert d.tokens[..d.count][at] == d.tokens[at];
    ValueSpan(b, n);
    r := d.Uint32(at);
    if r == Some(0) {
      r := None;
    }
  }

  /** The place of a key among the known fields; seven when it is none of them. */
  function FieldOf(key: seq<byte>): (f: nat)
    ensures f <= 7 && (f < 7 ==> key == Ascii(FIELDS[f]))
  {
    if key == Ascii("op") then 0 else if key == Ascii("target_id") then 1 else if key == Ascii("board_id") then 2
    else if key == Ascii("format") then 3 else if key == Ascii("size") then 4 else if key == Ascii("sha256") then 5
    else if key == Ascii("upload_id") then 6 else 7
  }

  /** Which fields the root object has; known only when it has no other member. */
  method Fields(d: Document) returns (known: bool, present: set<nat>)
    requires d.Holds() && Root(d.bytes).Some?
    ensures known <==> forall k :: k in Keys(d.bytes, Root(d.bytes).value) ==> FieldOf(k) < 7
    ensures known ==> present == set k | k in Keys(d.bytes, Root(d.bytes).value) :: FieldOf(k)
  {
    hide Root, DocumentTokens, KeyText, JsonText.Text, FieldOf, KeyToken;
    ghost var b := d.bytes;
    RootKeys(b);
    known, present := true, {};
    var name := new byte[NAME_SIZE];
    RootFirst(b);
    assert d.tokens[..d.count][0] == d.tokens[0];
    assert KeySet(b, d.tokens[..1], 0) == {} by { KeySetNone(b, d.tokens[..1], 0); }
    for i := 1 to d.count
      invariant known && present == set k | k in KeySet(b, d.tokens[..i], 0) :: FieldOf(k)
      invariant forall k :: k in KeySet(b, d.tokens[..i], 0) ==> FieldOf(k) < 7
    {
      assert d.tokens[..i + 1] == d.tokens[..i] + [d.tokens[i]];
      KeySetSnoc(b, d.tokens[..i], d.tokens[i], 0);
      assert d.tokens[..d.count][i] == d.tokens[i];
      if d.tokens[i].key && d.tokens[i].parent == 0 {
        KeyOkAt(b, d.tokens[..d.count], i);
        NameAgain(b, d.tokens[i]);
        KeyBounds(b, d.tokens[i]);
        var ok, n := d.StringAt(i, name);
        var key := name[..n];
        if !ok || FieldOf(key) == 7 {
          KeySetGrows(b, d.tokens[..i + 1], d.tokens[i + 1..d.count], 0);
          assert d.tokens[..i + 1] + d.tokens[i + 1..d.count] == d.tokens[..d.count];
          return false, {};
        }
        present := present + {FieldOf(key)};
      }
    }
  }

  /** Byte j of the digest after the first i nibbles. */
  function Filled(hash: seq<byte>, i: nat, j: nat): int
    requires |hash| == 64 && i <= 64 && j < 32
  {
    if 2 * j + 1 < i then 16 * UploadText.Nibble(hash[2 * j]) + UploadText.Nibble(hash[2 * j + 1])
    else if 2 * j < i then UploadText.Nibble(hash[2 * j]) else 0
  }

  predicate HexUpTo(hash: seq<byte>, i: nat)
    requires i <= |hash|
  {
    forall j :: 0 <= j < i ==> UploadText.Nibble(hash[j]) < 16
  }

  lemma FilledStep(hash: seq<byte>, i: nat, j: nat)
    requires |hash| == 64 && i < 64 && j < 32 && HexUpTo(hash, i + 1)
    ensures Filled(hash, i + 1, j) == if j == i / 2 then Filled(hash, i, j) * 16 % 256 + UploadText.Nibble(hash[i]) else Filled(hash, i, j)
  {
    NibbleRange(hash[i]);
    NibbleRange(hash[2 * j]);
  }

  lemma NibbleRange(x: byte)
    ensures 0 <= UploadText.Nibble(x) <= 16
  {
  }

  /** The hash text, nibble by nibble into the digest; none at the first character that is no digit. */
  method Unhex(hash: seq<byte>) returns (r: Option<Image.Digest>)
    requires |hash| == 64
    ensures r == if HexText(hash) then Some(DigestOf(hash)) else None
  {
    hide UploadText.Nibble, Filled;
    var digest := new byte[32](_ => 0);
    assert forall j :: 0 <= j < 32 ==> Filled(hash, 0, j) == 0 by { FilledNone(hash); }
    for i := 0 to 64
      invariant HexUpTo(hash, i)
      invariant forall j :: 0 <= j < 32 ==> digest[j] == Filled(hash, i, j)
    {
      NibbleRange(hash[i]);
      var nibble := UploadText.Nibble(hash[i]);
      if nibble == 16 {
        return None;
      }
      forall j | 0 <= j < 32 ensures Filled(hash, i + 1, j) == if j == i / 2 then Filled(hash, i, j) * 16 % 256 + nibble else Filled(hash, i, j) {
        FilledStep(hash, i, j);
      }
      Shifted(digest[i / 2], nibble);
      digest[i / 2] := digest[i / 2] * 16 % 256 + nibble;
    }
    forall j | 0 <= j < 32 ensures digest[j] == DigestOf(hash)[j] {
      FilledAll(hash, j);
    }
    assert digest[..] == DigestOf(hash);
    return Some(digest[..]);
  }

  lemma Shifted(x: byte, nibble: int)
    requires 0 <= nibble < 16
    ensures 0 <= x * 16 % 256 + nibble < 256
  {
    assert x * 16 % 256 == 16 * (x % 16);
  }

  lemma FilledNone(hash: seq<byte>)
    requires |hash| == 64
    ensures forall j :: 0 <= j < 32 ==> Filled(hash, 0, j) == 0
  {
  }

  lemma FilledAll(hash: seq<byte>, j: nat)
    requires HexText(hash) && j < 32
    ensures Filled(hash, 64, j) == DigestOf(hash)[j]
  {
  }

  /** The bits that must be set: 63 for begin, 67 for the others. */
  function Mask(v: S.Verb): set<nat> {
    if v.FlashBegin? then {0, 1, 2, 3, 4, 5} else {0, 1, 6}
  }

  lemma FieldNames(f: nat)
    requires f < 7
    ensures FieldOf(Ascii(FIELDS[f])) == f
  {
    forall g: nat | g < f ensures Ascii(FIELDS[g]) != Ascii(FIELDS[f]) {
      NamesDiffer(g, f);
    }
  }

  lemma NamesDiffer(g: nat, f: nat)
    requires g < f < 7
    ensures Ascii(FIELDS[g]) != Ascii(FIELDS[f])
  {
    var x, y := Ascii(FIELDS[g]), Ascii(FIELDS[f]);
    assert |x| == |FIELDS[g]| && |y| == |FIELDS[f]|;
    assert x[0] == FIELDS[g][0] as int && y[0] == FIELDS[f][0] as int;
    assert x[1] == FIELDS[g][1] as int && y[1] == FIELDS[f][1] as int;
  }

  /** The set bits are the required ones exactly when the keys are. */
  lemma MaskIff(keys: set<seq<byte>>, v: S.Verb)
    requires forall k :: k in keys ==> FieldOf(k) < 7
    ensures (set k | k in keys :: FieldOf(k)) == Mask(v) <==> keys == Required(v)
  {
    hide FieldOf, Ascii;
    var present := set k | k in keys :: FieldOf(k);
    forall f: nat | f < 7 ensures f in present <==> Ascii(FIELDS[f]) in keys {
      FieldNames(f);
    }
    RequiredFields(v);
    if present == Mask(v) {
      forall k ensures k in keys <==> k in Required(v) {
        if k in keys {
          assert FieldOf(k) in present;
        }
      }
    }
    if keys == Required(v) {
      forall f: nat ensures f in present <==> f in Mask(v) {
        if f in present {
          var k :| k in keys && FieldOf(k) == f;
        }
      }
    }
  }

  lemma RequiredFields(v: S.Verb)
    ensures forall f: nat :: f < 7 ==> (Ascii(FIELDS[f]) in Required(v) <==> f in Mask(v))
    ensures forall k :: k in Required(v) ==> FieldOf(k) < 7
  {
    assert FIELDS[0] == "op" && FIELDS[1] == "target_id" && FIELDS[2] == "board_id" && FIELDS[3] == "format"
      && FIELDS[4] == "size" && FIELDS[5] == "sha256" && FIELDS[6] == "upload_id";
    forall f: nat | f < 7 ensures Ascii(FIELDS[f]) in Required(v) <==> f in Mask(v) {
      forall g: nat | g < 7 ensures Ascii(FIELDS[g]) == Ascii(FIELDS[f]) <==> g == f {
        if g < f { NamesDiffer(g, f); } else if f < g { NamesDiffer(f, g); }
      }
    }
  }

  lemma DigestReads(d: Image.Digest)
    ensures HexText(UploadText.Hex(d)) && DigestOf(UploadText.Hex(d)) == d
  {
    hide UploadText.Hex, UploadText.Nibble;
    var hash := UploadText.Hex(d);
    forall i | 0 <= i < 32 ensures Pairs(hash, d, i) {
      UploadText.HexReads(d, i);
    }
    forall j | 0 <= j < 64 ensures UploadText.Nibble(hash[j]) < 16 {
      assert Pairs(hash, d, j / 2);
    }
    forall i | 0 <= i < 32 ensures DigestOf(hash)[i] == d[i] {
      assert Pairs(hash, d, i);
    }
  }

  /** A digest's text is read as that digest, and nothing else is. */
  lemma DigestIff(hash: seq<byte>, d: Image.Digest)
    ensures HexText(hash) && DigestOf(hash) == d <==> hash == UploadText.Hex(d)
  {
    hide UploadText.Hex, UploadText.Nibble;
    DigestReads(d);
    if HexText(hash) && DigestOf(hash) == d {
      forall i | 0 <= i < 32 ensures hash[2 * i] == UploadText.Hex(d)[2 * i] && hash[2 * i + 1] == UploadText.Hex(d)[2 * i + 1] {
        assert d[i] == DigestOf(hash)[i] == Pair(hash, i) == DigestOf(UploadText.Hex(d))[i] == Pair(UploadText.Hex(d), i);
        SamePair(hash[2 * i], hash[2 * i + 1], UploadText.Hex(d)[2 * i], UploadText.Hex(d)[2 * i + 1]);
      }
      forall j | 0 <= j < 64 ensures hash[j] == UploadText.Hex(d)[j] {
        assert j == 2 * (j / 2) || j == 2 * (j / 2) + 1;
      }
    }
  }

  predicate Pairs(hash: seq<byte>, d: Image.Digest, i: nat)
    requires |hash| == 64 && i < 32
  {
    && UploadText.Nibble(hash[2 * i]) < 16 && UploadText.Nibble(hash[2 * i + 1]) < 16
    && d[i] == 16 * UploadText.Nibble(hash[2 * i]) + UploadText.Nibble(hash[2 * i + 1])
  }

  lemma SamePair(x: byte, y: byte, v: byte, w: byte)
    requires UploadText.Nibble(x) < 16 && UploadText.Nibble(y) < 16 && UploadText.Nibble(v) < 16 && UploadText.Nibble(w) < 16
    requires 16 * UploadText.Nibble(x) + UploadText.Nibble(y) == 16 * UploadText.Nibble(v) + UploadText.Nibble(w)
    ensures x == v && y == w
  {
    assert UploadText.Nibble(x) == UploadText.Nibble(v);
  }

  /** dispatch_upload() up to the checks that need the session: none when the document is not for it. */
  method ReadFlash(d: Document, site: Site) returns (r: Option<S.Call>)
    requires d.Holds()
    ensures r == FlashOf(d.bytes, site)
  {
    hide Root, WordUnder, NumberUnder, Keys, CallOf, VerbOf;
    var op := Word(d, "op", 33);
    if op.None? {
      return None;
    }
    var verb := VerbOf(op.value);
    if verb.None? {
      return None;
    }
    var c := ReadFields(d, verb.value, site);
    return Some(c);
  }

  method ReadFields(d: Document, v: S.Verb, site: Site) returns (c: S.Call)
    requires d.Holds() && Root(d.bytes).Some?
    ensures c == CallOf(MembersOf(d.bytes, Root(d.bytes).value), v, site)
  {
    hide Root, WordUnder, NumberUnder, Keys, FieldOf, Required, Mask, HexText, DigestOf;
    ghost var keys := Keys(d.bytes, Root(d.bytes).value);
    var known, present := Fields(d);
    if known {
      MaskIff(keys, v);
    } else {
      RequiredFields(v);
    }
    var target := Number(d, "target_id");
    var valid := known && present == Mask(v) && target.Some?;
    c := S.Flash(v, false, 0, false, 0, 0, NO_DIGEST);
    if v.FlashBegin? {
      var named, size, digest := ReadBegin(d, site);
      if valid && digest.Some? {
        c := S.Flash(v, true, target.value, named, 0, size, digest.value);
      }
    } else {
      var id := Number(d, "upload_id");
      if valid && id.Some? {
        c := S.Flash(v, true, target.value, false, id.value, 0, NO_DIGEST);
      }
    }
  }

  /** The members of a begin request; a digest only when all of them are readable. */
  method ReadBegin(d: Document, site: Site) returns (named: bool, size: uint32, digest: Option<Image.Digest>)
    requires d.Holds() && Root(d.bytes).Some?
    ensures var m := MembersOf(d.bytes, Root(d.bytes).value);
      && (digest.Some? <==>
            && m.size.Some? && m.board.Some? && m.board.value != [] && m.format.Some? && m.format.value != []
            && m.hash.Some? && HexText(m.hash.value))
      && (digest.Some? ==>
            && size == m.size.value && digest.value == DigestOf(m.hash.value)
            && (named <==> m.board.value == site.board && m.format.value == site.format))
  {
    hide Root, WordUnder, NumberUnder, HexText, DigestOf, Keys;
    var length := Number(d, "size");
    var board := Word(d, "board_id", 33);
    var format := Word(d, "format", 33);
    var hash := Word(d, "sha256", 65);
    named, size, digest := false, 0, None;
    if length.Some? && board.Some? && board.value != [] && format.Some? && format.value != [] && hash.Some? {
      HexLength(hash.value);
      named, size := board.value == site.board && format.value == site.format, length.value;
      if |hash.value| == 64 {
        digest := Unhex(hash.value);
      }
    }
  }

  lemma HexLength(s: seq<byte>)
    ensures HexText(s) ==> |s| == 64
  {
  }
}
