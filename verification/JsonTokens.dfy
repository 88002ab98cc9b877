/** The token array of a document: the preorder of its tree. */
module JsonTokens {
  import opened Bytes
  import opened JsonText
  import opened JsonNumber
  import opened Json

  const NO_PARENT := 0xffff

  datatype Token = Token(kind: Kind, start: nat, end: nat, parent: nat, next: nat, key: bool)

  function GroupKind(obj: bool): Kind {
    if obj then Object else Array
  }

  /** A value's own token, then those of its members; `next` is the end of the subtree. */
  function Tokens(n: Node, parent: nat, index: nat): (ts: seq<Token>)
    ensures |ts| == Size(n)
    decreases n
  {
    match n
    case Leaf(kind, s, e) => [Token(kind, s, e, parent, index + 1, false)]
    case Group(obj, s, e, kids) =>
      [Token(GroupKind(obj), s, e, parent, index + Size(n), false)] + KidTokens(obj, kids, index, index + 1)
  }

  /** Each key token is immediately followed by its value. */
  function KidTokens(obj: bool, kids: Kids, parent: nat, index: nat): (ts: seq<Token>)
    ensures |ts| == KidsSize(obj, kids)
    decreases kids
  {
    match kids
    case NoMore => []
    case Kid(ks, ke, value, rest) =>
      var at := ValueAt(obj, index);
      KeyTokens(obj, ks, ke, parent, index) + Tokens(value, parent, at) + KidTokens(obj, rest, parent, at + Size(value))
  }

  function ValueAt(obj: bool, index: nat): nat {
    if obj then index + 1 else index
  }

  function KeyTokens(obj: bool, ks: nat, ke: nat, parent: nat, index: nat): (ts: seq<Token>)
    ensures |ts| == if obj then 1 else 0
  {
    if obj then [Token(String, ks, ke, parent, index + 1, true)] else []
  }

  // ---- Appending members ----

  function Append(kids: Kids, more: Kids): Kids {
    match kids case NoMore => more case Kid(ks, ke, value, rest) => Kid(ks, ke, value, Append(rest, more))
  }

  function One(ks: nat, ke: nat, value: Node): Kids {
    Kid(ks, ke, value, NoMore)
  }

  lemma {:induction false} AppendMore(kids: Kids, k: Kids, more: Kids)
    requires k.Kid? && k.rest.NoMore?
    ensures Append(Append(kids, k), more) == Append(kids, k.(rest := more))
    decreases kids
  {
    if kids.Kid? {
      AppendMore(kids.rest, k, more);
    }
  }

  lemma {:induction false} SizeAppend(obj: bool, kids: Kids, more: Kids)
    ensures KidsSize(obj, Append(kids, more)) == KidsSize(obj, kids) + KidsSize(obj, more)
    decreases kids
  {
    if kids.Kid? {
      SizeAppend(obj, kids.rest, more);
    }
  }

  lemma TokensCons(obj: bool, kids: Kids, parent: nat, index: nat)
    requires kids.Kid?
    ensures var at := ValueAt(obj, index);
      && KidTokens(obj, kids, parent, index) ==
           KeyTokens(obj, kids.keyStart, kids.keyEnd, parent, index) + Tokens(kids.value, parent, at) +
           KidTokens(obj, kids.rest, parent, at + Size(kids.value))
      && index + KidsSize(obj, kids) == at + Size(kids.value) + KidsSize(obj, kids.rest)
  {
    hide Tokens, Size, KeyTokens;
  }

  lemma Regroup(a: seq<Token>, b: seq<Token>, c: seq<Token>)
    ensures a + (b + c) == a + b + c
  {
  }

  lemma {:induction false} TokensAppend(obj: bool, kids: Kids, more: Kids, parent: nat, index: nat)
    ensures KidTokens(obj, Append(kids, more), parent, index) ==
      KidTokens(obj, kids, parent, index) + KidTokens(obj, more, parent, index + KidsSize(obj, kids))
    decreases kids
  {
    hide Tokens, Size, KidTokens, KidsSize, KeyTokens;
    if kids.Kid? {
      var at := ValueAt(obj, index);
      TokensAppend(obj, kids.rest, more, parent, at + Size(kids.value));
      TokensCons(obj, kids, parent, index);
      TokensCons(obj, Append(kids, more), parent, index);
      Regroup(KeyTokens(obj, kids.keyStart, kids.keyEnd, parent, index) + Tokens(kids.value, parent, at),
              KidTokens(obj, kids.rest, parent, at + Size(kids.value)),
              KidTokens(obj, more, parent, index + KidsSize(obj, kids)));
    } else {
      NoTokens(obj, parent, index);
      assert [] + KidTokens(obj, more, parent, index) == KidTokens(obj, more, parent, index);
    }
  }

  lemma NoTokens(obj: bool, parent: nat, index: nat)
    ensures KidTokens(obj, NoMore, parent, index) == [] && KidsSize(obj, NoMore) == 0
  {
  }

  // ---- Every token is a slice of the text ----

  predicate WithinText(b: seq<byte>, ts: seq<Token>) {
    forall i :: 0 <= i < |ts| ==> ts[i].start < ts[i].end <= |b|
  }

  lemma {:induction false} ValueInside(b: seq<byte>, n: Node, parent: nat, index: nat)
    requires IsValue(b, n)
    ensures WithinText(b, Tokens(n, parent, index))
    decreases n
  {
    hide Size, IsLeaf, KidTokens;
    if n.Group? {
      KidsInside(b, n.obj, Skip(b, n.start + 1), n.end, n.kids, index, index + 1);
    }
  }

  lemma {:induction false} KidsInside(b: seq<byte>, obj: bool, p: nat, e: nat, kids: Kids, parent: nat, index: nat)
    requires kids.Kid? ==> IsKids(b, obj, p, e, kids)
    ensures WithinText(b, KidTokens(obj, kids, parent, index))
    decreases kids
  {
    hide Tokens, Size, IsValue, IsString, KidTokens;
    if kids.Kid? {
      var at := ValueAt(obj, index);
      ValueInside(b, kids.value, parent, at);
      KidsInside(b, obj, Skip(b, Skip(b, kids.value.end) + 1), e, kids.rest, parent, at + Size(kids.value));
      TokensCons(obj, kids, parent, index);
    } else {
      NoTokens(obj, parent, index);
    }
  }

  lemma DocumentInside(b: seq<byte>)
    ensures WithinText(b, DocumentTokens(b))
  {
    hide Parse, IsValue, Tokens, WithinText;
    if Parse(b).Some? {
      ParseIff(b, Parse(b).value.node);
      ValueInside(b, Parse(b).value.node, NO_PARENT, 0);
    } else {
      assert WithinText(b, []) by { NoneInside(b); }
    }
  }

  lemma NoneInside(b: seq<byte>)
    ensures WithinText(b, [])
  {
  }

  // ---- Finding a member ----

  /** The token index of the value of the first member with this key. */
  function FindKid(b: seq<byte>, kids: Kids, key: seq<byte>, index: nat): Option<nat> {
    match kids
    case NoMore => None
    case Kid(ks, _, value, rest) =>
      if KeyText(b, ks) == key then Some(index + 1) else FindKid(b, rest, key, index + 1 + Size(value))
  }

  /** The token array left by parse(): empty unless the text is accepted. */
  function DocumentTokens(b: seq<byte>): (ts: seq<Token>)
    ensures ts == [] <==> Parse(b).None?
  {
    match Parse(b) case None => [] case Some(r) => Tokens(r.node, NO_PARENT, 0)
  }

  /** Where the value of a root member stands in that array. */
  function FindRoot(b: seq<byte>, key: seq<byte>): Option<nat> {
    match Parse(b)
    case None => None
    case Some(r) => if r.node.Group? && r.node.obj then FindKid(b, r.node.kids, key, 1) else None
  }

  /** The member with this key, if any. */
  function MemberWith(b: seq<byte>, kids: Kids, key: seq<byte>): Option<Node> {
    match kids
    case NoMore => None
    case Kid(ks, _, value, rest) => if KeyText(b, ks) == key then Some(value) else MemberWith(b, rest, key)
  }

  function CountKey(b: seq<byte>, kids: Kids, key: seq<byte>): nat {
    match kids
    case NoMore => 0
    case Kid(ks, _, _, rest) => (if KeyText(b, ks) == key then 1 else 0) + CountKey(b, rest, key)
  }

  lemma {:induction false} SeenKey(b: seq<byte>, kids: Kids, key: seq<byte>, seen: set<seq<byte>>)
    requires KidsUnrepeated(b, true, kids, seen)
    ensures CountKey(b, kids, key) <= 1 && (key in seen ==> CountKey(b, kids, key) == 0)
    decreases kids
  {
    hide KeyText, Unrepeated;
    if kids.Kid? {
      SeenKey(b, kids.rest, key, seen + {KeyText(b, kids.keyStart)});
    }
  }

  /** The found token starts the one member's own subtree, right after its key token. */
  predicate StandsAt(b: seq<byte>, ts: seq<Token>, at: int, n: Node, key: seq<byte>, parent: nat, index: nat) {
    && 0 < at && at + Size(n) <= |ts| && ts[at..at + Size(n)] == Tokens(n, parent, index + at)
    && ts[at - 1].key && ts[at - 1].parent == parent && KeyText(b, ts[at - 1].start) == key
  }

  lemma StandsFirst(b: seq<byte>, k: Token, n: Node, rest: seq<Token>, key: seq<byte>, parent: nat, index: nat)
    requires k.key && k.parent == parent && KeyText(b, k.start) == key
    ensures StandsAt(b, [k] + Tokens(n, parent, index + 1) + rest, 1, n, key, parent, index)
  {
    hide Tokens, KeyText, Size;
    var ts := [k] + Tokens(n, parent, index + 1) + rest;
    assert ts[1..1 + Size(n)] == Tokens(n, parent, index + 1);
  }

  lemma StandsLater(b: seq<byte>, head: seq<Token>, rest: seq<Token>, at: int, n: Node, key: seq<byte>, parent: nat, index: nat)
    requires StandsAt(b, rest, at, n, key, parent, index + |head|)
    ensures StandsAt(b, head + rest, at + |head|, n, key, parent, index)
  {
    hide Tokens, KeyText, Size;
    var ts := head + rest;
    var off := |head|;
    assert ts[at + off..at + off + Size(n)] == rest[at..at + Size(n)];
    assert ts[at + off - 1] == rest[at - 1];
  }

  /** A member is found exactly when it exists, at the place of its own subtree. */
  lemma {:induction false} FoundIsMember(b: seq<byte>, kids: Kids, key: seq<byte>, parent: nat, index: nat)
    ensures FindKid(b, kids, key, index).Some? <==> CountKey(b, kids, key) > 0
    ensures FindKid(b, kids, key, index).Some? <==> MemberWith(b, kids, key).Some?
    ensures FindKid(b, kids, key, index).Some? ==>
      StandsAt(b, KidTokens(true, kids, parent, index), FindKid(b, kids, key, index).value - index,
               MemberWith(b, kids, key).value, key, parent, index)
    decreases kids
  {
    hide Tokens, KeyText, KidTokens, Size, StandsAt;
    if kids.Kid? {
      TokensCons(true, kids, parent, index);
      var k := Token(String, kids.keyStart, kids.keyEnd, parent, index + 1, true);
      var rest := KidTokens(true, kids.rest, parent, index + 1 + Size(kids.value));
      if KeyText(b, kids.keyStart) == key {
        StandsFirst(b, k, kids.value, rest, key, parent, index);
      } else {
        FoundIsMember(b, kids.rest, key, parent, index + 1 + Size(kids.value));
        var r := FindKid(b, kids, key, index);
        if r.Some? {
          var head := [k] + Tokens(kids.value, parent, index + 1);
          StandsLater(b, head, rest, r.value - index - |head|, MemberWith(b, kids, key).value, key, parent, index);
        }
      }
    }
  }

  /** Of an accepted object, find() returns the value of the one root member with the decoded key, right
      after its key token and with its whole subtree; and nothing exactly when no member has that key. */
  lemma RootMember(b: seq<byte>, key: seq<byte>)
    requires Parse(b).Some? && Parse(b).value.node.Group? && Parse(b).value.node.obj
    ensures var n := Parse(b).value.node; var r := FindKid(b, n.kids, key, 1);
      && CountKey(b, n.kids, key) == (if r.Some? then 1 else 0)
      && (r.Some? <==> MemberWith(b, n.kids, key).Some?)
      && (r.Some? ==> StandsAt(b, Tokens(n, NO_PARENT, 0), r.value, MemberWith(b, n.kids, key).value, key, 0, 0))
  {
    hide Parse, KidTokens, FindKid, MemberWith, StandsAt, IsDocument, Nested, KidsUnrepeated, CountKey;
    var n := Parse(b).value.node;
    ParseIff(b, n);
    SeenKey(b, n.kids, key, {});
    FoundIsMember(b, n.kids, key, 0, 1);
    var r := FindKid(b, n.kids, key, 1);
    if r.Some? {
      var at: int := r.value;
      var root := Token(GroupKind(true), n.start, n.end, NO_PARENT, Size(n), false);
      assert Tokens(n, NO_PARENT, 0) == [root] + KidTokens(true, n.kids, 0, 1);
      StandsLater(b, [root], KidTokens(true, n.kids, 0, 1), at - 1, MemberWith(b, n.kids, key).value, key, 0, 0);
    }
  }
}
