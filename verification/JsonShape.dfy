/** The shape of a token array: subtrees are intervals, nested like the text they stand for, and the members of an
    object are keys with their values. */
module JsonShape {
  import opened Bytes
  import opened Json
  import opened JsonTokens

  /** Tokens base .. base + |ts| of an array, whose outermost tokens have the parent `outer`. Token i's subtree ends at
      its `next`: a later token lies inside it, with its parent, its own subtree and its text, or after all of it. */
  predicate Nests(ts: seq<Token>, base: nat, outer: nat) {
    && (forall i :: 0 <= i < |ts| ==>
          && base + i < ts[i].next <= base + |ts| && ts[i].start < ts[i].end
          && (ts[i].parent == outer || base <= ts[i].parent < base + i))
    && (forall i, j :: 0 <= i < j < |ts| ==> if base + j < ts[i].next then Inside(ts[i], base + i, ts[j]) else Beyond(ts[i], base + i, ts[j], outer))
  }

  predicate Inside(t: Token, at: nat, u: Token) {
    at <= u.parent < t.next && u.next <= t.next && t.start < u.start && u.end < t.end
  }

  predicate Beyond(t: Token, at: nat, u: Token, outer: nat) {
    (u.parent == outer || u.parent < at || t.next <= u.parent) && t.end <= u.start
  }

  /** Every token's text within these bounds. */
  predicate Between(ts: seq<Token>, lo: int, hi: int) {
    forall i :: 0 <= i < |ts| ==> lo <= ts[i].start && ts[i].end <= hi
  }

  lemma BetweenWider(ts: seq<Token>, lo: int, hi: int, lo': int, hi': int)
    requires Between(ts, lo, hi) && lo' <= lo && hi <= hi'
    ensures Between(ts, lo', hi')
  {
  }

  lemma BetweenBoth(x: seq<Token>, y: seq<Token>, lo: int, hi: int)
    requires Between(x, lo, hi) && Between(y, lo, hi)
    ensures Between(x + y, lo, hi)
  {
  }

  /** Two runs of siblings, one after the other. */
  lemma NestsBoth(x: seq<Token>, y: seq<Token>, base: nat, outer: nat, lo: int, mid: int, hi: int)
    requires Nests(x, base, outer) && Nests(y, base + |x|, outer) && outer < base
    requires Between(x, lo, mid) && Between(y, mid, hi) && lo <= mid <= hi
    ensures Nests(x + y, base, outer) && Between(x + y, lo, hi)
  {
    hide Inside, Beyond;
    var ts := x + y;
    BetweenWider(x, lo, mid, lo, hi);
    BetweenWider(y, mid, hi, lo, hi);
    BetweenBoth(x, y, lo, hi);
    forall i | 0 <= i < |ts|
      ensures base + i < ts[i].next <= base + |ts| && ts[i].start < ts[i].end && (ts[i].parent == outer || base <= ts[i].parent < base + i) {
      if i < |x| {
        assert ts[i] == x[i];
      } else {
        assert ts[i] == y[i - |x|];
      }
    }
    forall i, j | 0 <= i < j < |ts|
      ensures if base + j < ts[i].next then Inside(ts[i], base + i, ts[j]) else Beyond(ts[i], base + i, ts[j], outer) {
      if j < |x| {
        assert ts[i] == x[i] && ts[j] == x[j];
      } else if i < |x| {
        assert ts[i] == x[i] && ts[j] == y[j - |x|];
        BeyondRun(x[i], base + i, y[j - |x|], outer);
      } else {
        assert ts[i] == y[i - |x|] && ts[j] == y[j - |x|];
      }
    }
  }

  lemma BeyondRun(t: Token, at: nat, u: Token, outer: nat)
    requires (u.parent == outer || t.next <= u.parent) && t.end <= u.start
    ensures Beyond(t, at, u, outer)
  {
  }

  /** A group around its members. */
  lemma NestsGroup(t: Token, kids: seq<Token>, base: nat, outer: nat)
    requires Nests(kids, base + 1, base) && t.next == base + 1 + |kids| && t.parent == outer && t.start < t.end
    requires Between(kids, t.start + 1, t.end - 1)
    ensures Nests([t] + kids, base, outer)
  {
    var ts := [t] + kids;
    forall i | 0 <= i < |ts|
      ensures base + i < ts[i].next <= base + |ts| && ts[i].start < ts[i].end && (ts[i].parent == outer || base <= ts[i].parent < base + i) {
      if i > 0 {
        assert ts[i] == kids[i - 1];
      }
    }
    forall i, j | 0 <= i < j < |ts|
      ensures if base + j < ts[i].next then Inside(ts[i], base + i, ts[j]) else Beyond(ts[i], base + i, ts[j], outer) {
      assert ts[j] == kids[j - 1];
      if i > 0 {
        assert ts[i] == kids[i - 1];
      }
    }
  }

  lemma NestsOne(t: Token, base: nat, outer: nat)
    requires t.next == base + 1 && t.parent == outer && t.start < t.end
    ensures Nests([t], base, outer)
  {
  }

  // ---- Every value's tokens ----

  lemma {:induction false} ValueNests(b: seq<byte>, n: Node, parent: nat, index: nat)
    requires IsValue(b, n)
    ensures Nests(Tokens(n, parent, index), index, parent) && Between(Tokens(n, parent, index), n.start, n.end)
    decreases n
  {
    hide Nests, IsLeaf, IsKids, KidTokens, Size, Skip;
    if n.Leaf? {
      NestsOne(Tokens(n, parent, index)[0], index, parent);
    } else {
      var first := Skip(b, n.start + 1);
      SkipOn(b, n.start + 1);
      KidsNest(b, n.obj, first, n.end, n.kids, index, index + 1);
      var kids := KidTokens(n.obj, n.kids, index, index + 1);
      var t := Token(GroupKind(n.obj), n.start, n.end, parent, index + Size(n), false);
      assert Tokens(n, parent, index) == [t] + kids;
      SizeOf(n);
      BetweenWider(kids, first, n.end - 1, n.start + 1, n.end - 1);
      NestsGroup(t, kids, index, parent);
      BetweenWider(kids, n.start + 1, n.end - 1, n.start, n.end);
      BetweenBoth([t], kids, n.start, n.end);
    }
  }

  lemma SizeOf(n: Node)
    requires n.Group?
    ensures Size(n) == 1 + KidsSize(n.obj, n.kids)
  {
  }

  lemma {:induction false} SkipOn(b: seq<byte>, p: nat)
    ensures p <= Skip(b, p)
    decreases |b| - p
  {
  }

  /** Where the parts of the first member lie. */
  lemma MemberSpans(b: seq<byte>, obj: bool, p: nat, e: nat, kids: Kids)
    requires kids.Kid? && IsKids(b, obj, p, e, kids)
    ensures var q := Skip(b, kids.value.end);
      && IsValue(b, kids.value) && kids.value.end <= q <= e - 1
      && (if obj then kids.keyStart == p < kids.keyEnd <= kids.value.start else kids.value.start == p)
      && (kids.rest.Kid? ==> IsKids(b, obj, Skip(b, q + 1), e, kids.rest) && q < Skip(b, q + 1))
      && p < e
  {
    hide IsValue, IsString, Skip;
    KidsEnd(b, obj, p, e, kids);
    var q := Skip(b, kids.value.end);
    SkipOn(b, kids.value.end);
    SkipOn(b, q + 1);
    SkipOn(b, kids.keyEnd);
    SkipOn(b, Skip(b, kids.keyEnd) + 1);
  }

  lemma {:induction false} KidsEnd(b: seq<byte>, obj: bool, p: nat, e: nat, kids: Kids)
    requires kids.Kid? && IsKids(b, obj, p, e, kids)
    ensures p < e && Skip(b, kids.value.end) < e
    decreases kids
  {
    hide IsValue, IsString, Skip;
    var q := Skip(b, kids.value.end);
    SkipOn(b, kids.value.end);
    SkipOn(b, kids.keyEnd);
    SkipOn(b, Skip(b, kids.keyEnd) + 1);
    ValueEnds(b, kids.value);
    if kids.rest.Kid? {
      SkipOn(b, q + 1);
      KidsEnd(b, obj, Skip(b, q + 1), e, kids.rest);
    }
  }

  lemma ValueEnds(b: seq<byte>, n: Node)
    requires IsValue(b, n)
    ensures n.start < n.end
  {
  }

  lemma {:induction false} KidsNest(b: seq<byte>, obj: bool, p: nat, e: nat, kids: Kids, parent: nat, index: nat)
    requires (kids.Kid? ==> IsKids(b, obj, p, e, kids)) && parent < index
    ensures Nests(KidTokens(obj, kids, parent, index), index, parent) && Between(KidTokens(obj, kids, parent, index), p, e - 1)
    decreases kids
  {
    hide Nests, IsValue, IsKids, IsString, Tokens, KidTokens, Size, Skip;
    if kids.Kid? {
      var v, q, at := kids.value, Skip(b, kids.value.end), ValueAt(obj, index);
      MemberSpans(b, obj, p, e, kids);
      ValueEnds(b, v);
      TokensCons(obj, kids, parent, index);
      var key := KeyTokens(obj, kids.keyStart, kids.keyEnd, parent, index);
      var value, rest := Tokens(v, parent, at), KidTokens(obj, kids.rest, parent, at + Size(v));
      ValueNests(b, v, parent, at);
      KidsNest(b, obj, Skip(b, q + 1), e, kids.rest, parent, at + Size(v));
      KeyNests(obj, kids.keyStart, kids.keyEnd, parent, index, p, v.start);
      NestsBoth(key, value, index, parent, p, v.start, v.end);
      RestBetween(obj, kids, rest, Skip(b, q + 1), e - 1, v.end);
      NestsBoth(key + value, rest, index, parent, p, v.end, e - 1);
    } else {
      NoTokens(obj, parent, index);
      NestsNone(index, parent);
    }
  }

  lemma RestBetween(obj: bool, kids: Kids, rest: seq<Token>, lo: int, hi: int, end: int)
    requires kids.Kid? && Between(rest, lo, hi) && (kids.rest.NoMore? ==> rest == []) && (kids.rest.Kid? ==> end <= lo)
    ensures Between(rest, end, hi)
  {
  }

  lemma NestsNone(base: nat, outer: nat)
    ensures Nests([], base, outer)
  {
  }

  lemma KeyNests(obj: bool, ks: nat, ke: nat, parent: nat, index: nat, lo: int, hi: int)
    requires lo <= hi && (obj ==> lo == ks < ke <= hi)
    ensures Nests(KeyTokens(obj, ks, ke, parent, index), index, parent) && Between(KeyTokens(obj, ks, ke, parent, index), lo, hi)
  {
  }

  // ---- Keys and values ----

  /** Whether token i belongs directly to an object; `obj` says so for the outermost tokens. */
  predicate Member(ts: seq<Token>, base: nat, outer: nat, obj: bool, i: nat)
    requires i < |ts|
  {
    if ts[i].parent == outer then obj else base <= ts[i].parent < base + |ts| && ts[ts[i].parent - base].kind.Object?
  }

  /** A key is a string of its own, belongs to an object, and its value comes next; and every other token that belongs
      directly to an object comes right after its key. */
  predicate Paired(ts: seq<Token>, base: nat, outer: nat, obj: bool, i: nat)
    requires i < |ts|
  {
    if ts[i].key then
      && ts[i].kind.String? && ts[i].next == base + i + 1 && Member(ts, base, outer, obj, i)
      && i + 1 < |ts| && !ts[i + 1].key && ts[i + 1].parent == ts[i].parent
    else Member(ts, base, outer, obj, i) ==> i > 0 && ts[i - 1].key && ts[i - 1].parent == ts[i].parent
  }

  predicate Keyed(ts: seq<Token>, base: nat, outer: nat, obj: bool) {
    forall i :: 0 <= i < |ts| ==> Paired(ts, base, outer, obj, i)
  }

  /** Parents lie in the run itself, or are the outer one. */
  predicate Closed(ts: seq<Token>, base: nat, outer: nat) {
    forall i :: 0 <= i < |ts| ==> ts[i].parent == outer || base <= ts[i].parent < base + |ts|
  }

  lemma NestsClosed(ts: seq<Token>, base: nat, outer: nat)
    requires Nests(ts, base, outer)
    ensures Closed(ts, base, outer)
  {
  }

  lemma PairedLeft(x: seq<Token>, y: seq<Token>, base: nat, outer: nat, obj: bool, i: nat)
    requires i < |x| && Paired(x, base, outer, obj, i) && Closed(x, base, outer)
    ensures Paired(x + y, base, outer, obj, i)
  {
    var ts := x + y;
    assert ts[i] == x[i] && (i > 0 ==> ts[i - 1] == x[i - 1]) && (i + 1 < |x| ==> ts[i + 1] == x[i + 1]);
    if x[i].parent != outer {
      assert ts[x[i].parent - base] == x[x[i].parent - base];
    }
  }

  lemma PairedRight(x: seq<Token>, y: seq<Token>, base: nat, outer: nat, obj: bool, i: nat)
    requires i < |y| && Paired(y, base + |x|, outer, obj, i) && Closed(y, base + |x|, outer)
    ensures Paired(x + y, base, outer, obj, |x| + i)
  {
    var ts, k := x + y, |x| + i;
    assert ts[k] == y[i] && (i > 0 ==> ts[k - 1] == y[i - 1]) && (i + 1 < |y| ==> ts[k + 1] == y[i + 1]);
    if y[i].parent != outer {
      assert ts[y[i].parent - base] == y[y[i].parent - base - |x|];
    }
  }

  lemma KeyedBoth(x: seq<Token>, y: seq<Token>, base: nat, outer: nat, obj: bool)
    requires Keyed(x, base, outer, obj) && Keyed(y, base + |x|, outer, obj) && Closed(x, base, outer) && Closed(y, base + |x|, outer)
    ensures Keyed(x + y, base, outer, obj)
  {
    hide Paired, Closed;
    forall i | 0 <= i < |x + y| ensures Paired(x + y, base, outer, obj, i) {
      if i < |x| {
        PairedLeft(x, y, base, outer, obj, i);
      } else {
        PairedRight(x, y, base, outer, obj, i - |x|);
      }
    }
  }

  /** A value behind its key, or on its own in an array. */
  lemma KeyedMember(obj: bool, ks: nat, ke: nat, value: seq<Token>, outer: nat, index: nat)
    requires value != [] && !value[0].key && value[0].parent == outer < index && Keyed(value, ValueAt(obj, index), outer, false)
    requires forall i :: 1 <= i < |value| ==> ValueAt(obj, index) <= value[i].parent < ValueAt(obj, index) + |value|
    ensures Keyed(KeyTokens(obj, ks, ke, outer, index) + value, index, outer, obj)
  {
    var key, at := KeyTokens(obj, ks, ke, outer, index), ValueAt(obj, index);
    var ts := key + value;
    forall i | 0 <= i < |ts| ensures Paired(ts, index, outer, obj, i) {
      if i >= |key| {
        var k := i - |key|;
        assert Paired(value, at, outer, false, k);
        assert ts[i] == value[k];
        if k > 0 {
          assert ts[i - 1] == value[k - 1] && ts[value[k].parent - index] == value[value[k].parent - at];
          assert k + 1 < |value| ==> ts[i + 1] == value[k + 1];
        }
      } else {
        assert ts[1] == value[0];
      }
    }
  }

  lemma KeyedGroup(t: Token, kids: seq<Token>, base: nat, outer: nat)
    requires !t.key && t.parent == outer && Keyed(kids, base + 1, base, t.kind.Object?)
    requires Closed(kids, base + 1, base) && (outer < base || outer > base + |kids|)
    ensures Keyed([t] + kids, base, outer, false)
  {
    var ts := [t] + kids;
    forall i | 0 <= i < |ts| ensures Paired(ts, base, outer, false, i) {
      if i > 0 {
        var k := i - 1;
        assert Paired(kids, base + 1, base, t.kind.Object?, k);
        assert ts[i] == kids[k] && (k > 0 ==> ts[i - 1] == kids[k - 1]) && (k + 1 < |kids| ==> ts[i + 1] == kids[k + 1]);
        if kids[k].parent != base {
          assert ts[kids[k].parent - base] == kids[kids[k].parent - base - 1];
        }
      }
    }
  }

  lemma RootFacts(n: Node, parent: nat, index: nat)
    requires Nests(Tokens(n, parent, index), index, parent)
    ensures var ts := Tokens(n, parent, index);
      && ts != [] && !ts[0].key && ts[0].parent == parent && ts[0].next == index + |ts|
      && (forall i :: 1 <= i < |ts| ==> index <= ts[i].parent < index + |ts|)
  {
    hide KidTokens, KidsSize;
    var ts := Tokens(n, parent, index);
    forall i | 1 <= i < |ts| ensures index <= ts[i].parent < index + |ts| {
      assert Inside(ts[0], index, ts[i]);
    }
  }

  lemma {:induction false} ValueKeyed(b: seq<byte>, n: Node, parent: nat, index: nat)
    requires IsValue(b, n) && (parent < index || parent >= index + Size(n))
    ensures Keyed(Tokens(n, parent, index), index, parent, false)
    decreases n
  {
    hide Nests, Keyed, IsLeaf, IsKids, KidTokens, Size, Skip, Closed;
    if n.Leaf? {
      KeyedLeaf(Tokens(n, parent, index)[0], index, parent);
    } else {
      var first := Skip(b, n.start + 1);
      KidsNest(b, n.obj, first, n.end, n.kids, index, index + 1);
      KidsKeyed(b, n.obj, first, n.end, n.kids, index, index + 1);
      var kids := KidTokens(n.obj, n.kids, index, index + 1);
      var t := Token(GroupKind(n.obj), n.start, n.end, parent, index + Size(n), false);
      assert Tokens(n, parent, index) == [t] + kids;
      SizeOf(n);
      NestsClosed(kids, index + 1, index);
      KeyedGroup(t, kids, index, parent);
    }
  }

  lemma KeyedLeaf(t: Token, base: nat, outer: nat)
    requires !t.key && t.parent == outer
    ensures Keyed([t], base, outer, false)
  {
  }

  lemma {:induction false} KidsKeyed(b: seq<byte>, obj: bool, p: nat, e: nat, kids: Kids, parent: nat, index: nat)
    requires (kids.Kid? ==> IsKids(b, obj, p, e, kids)) && parent < index
    ensures Keyed(KidTokens(obj, kids, parent, index), index, parent, obj)
    decreases kids
  {
    hide Nests, Keyed, IsValue, IsKids, IsString, Tokens, KidTokens, Size, Skip, Closed;
    if kids.Kid? {
      var v, q, at := kids.value, Skip(b, kids.value.end), ValueAt(obj, index);
      MemberSpans(b, obj, p, e, kids);
      ValueEnds(b, v);
      TokensCons(obj, kids, parent, index);
      var key := KeyTokens(obj, kids.keyStart, kids.keyEnd, parent, index);
      var value, rest := Tokens(v, parent, at), KidTokens(obj, kids.rest, parent, at + Size(v));
      ValueNests(b, v, parent, at);
      ValueKeyed(b, v, parent, at);
      RootFacts(v, parent, at);
      KeyedMember(obj, kids.keyStart, kids.keyEnd, value, parent, index);
      KidsNest(b, obj, Skip(b, q + 1), e, kids.rest, parent, at + Size(v));
      KidsKeyed(b, obj, Skip(b, q + 1), e, kids.rest, parent, at + Size(v));
      KeyNests(obj, kids.keyStart, kids.keyEnd, parent, index, p, v.start);
      NestsBoth(key, value, index, parent, p, v.start, v.end);
      NestsClosed(key + value, index, parent);
      NestsClosed(rest, at + Size(v), parent);
      KeyedBoth(key + value, rest, index, parent, obj);
    } else {
      NoTokens(obj, parent, index);
      KeyedNone(index, parent, obj);
    }
  }

  lemma KeyedNone(base: nat, outer: nat, obj: bool)
    ensures Keyed([], base, outer, obj)
  {
  }

  /** The token array of every accepted document: the first token is the root and spans the whole array, subtrees are
      intervals nested like their text, and objects are keys with their values. */
  lemma DocumentShape(b: seq<byte>)
    requires Parse(b).Some?
    ensures var ts := DocumentTokens(b);
      && ts != [] && |ts| <= 96 && ts[0].parent == 0xffff && ts[0].next == |ts| && !ts[0].key
      && Nests(ts, 0, 0xffff) && Keyed(ts, 0, 0xffff, false) && Between(ts, 0, |b|)
  {
    hide Parse, Nests, Keyed, Between, IsValue, Tokens, Nested, Unrepeated;
    var n := Parse(b).value.node;
    ParseIff(b, n);
    ValueNests(b, n, NO_PARENT, 0);
    ValueKeyed(b, n, NO_PARENT, 0);
    RootFacts(n, NO_PARENT, 0);
    RootEnds(b, n);
    BetweenWider(Tokens(n, NO_PARENT, 0), n.start, n.end, 0, |b|);
  }

  lemma RootEnds(b: seq<byte>, n: Node)
    requires IsValue(b, n)
    ensures 0 <= n.start && n.end <= |b|
  {
  }
}
