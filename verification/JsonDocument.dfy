/** Document as the firmware runs it: one position, one bounded token array, filled in place. */
module JsonDocument {
  import opened Bytes
  import opened JsonText
  import opened JsonNumber
  import opened Json
  import opened JsonTokens

  const NAME_SIZE := 65

  predicate KeyToken(b: seq<byte>, t: Token) {
    && t.kind.String? && t.start < t.end <= |b|
    && Text(b, t.start, MAX_STRING).Some? && Text(b, t.start, MAX_STRING).value.end == t.end
  }

  /** Key tokens come after their object and hold strings. */
  predicate KeysOk(b: seq<byte>, ts: seq<Token>) {
    forall i :: 0 <= i < |ts| && ts[i].key ==> ts[i].parent < i && KeyToken(b, ts[i])
  }

  /** The decoded keys of one object. */
  function KeySet(b: seq<byte>, ts: seq<Token>, parent: nat): set<seq<byte>> {
    if ts == [] then {}
    else
      var t := ts[|ts| - 1];
      KeySet(b, ts[..|ts| - 1], parent) + (if t.key && t.parent == parent then {KeyText(b, t.start)} else {})
  }

  lemma KeySetSnoc(b: seq<byte>, ts: seq<Token>, t: Token, parent: nat)
    ensures KeySet(b, ts + [t], parent) ==
      KeySet(b, ts, parent) + (if t.key && t.parent == parent then {KeyText(b, t.start)} else {})
  {
    assert (ts + [t])[..|ts|] == ts;
  }

  /** Tokens whose keys belong to other objects add none. */
  lemma {:induction false} KeySetSame(b: seq<byte>, ts: seq<Token>, more: seq<Token>, parent: nat)
    requires forall i :: 0 <= i < |more| && more[i].key ==> more[i].parent != parent
    ensures KeySet(b, ts + more, parent) == KeySet(b, ts, parent)
    decreases |more|
  {
    if more == [] {
      assert ts + more == ts;
    } else {
      var n := |more| - 1;
      KeySetSame(b, ts, more[..n], parent);
      KeySetSnoc(b, ts + more[..n], more[n], parent);
      assert ts + more[..n] + [more[n]] == ts + more;
    }
  }

  lemma {:induction false} KeySetNone(b: seq<byte>, ts: seq<Token>, parent: nat)
    requires forall i :: 0 <= i < |ts| && ts[i].key ==> ts[i].parent != parent
    ensures KeySet(b, ts, parent) == {}
    decreases |ts|
  {
    if ts != [] {
      KeySetNone(b, ts[..|ts| - 1], parent);
    }
  }

  lemma KeysSnoc(b: seq<byte>, ts: seq<Token>, t: Token)
    requires KeysOk(b, ts) && (t.key ==> t.parent < |ts| && KeyToken(b, t))
    ensures KeysOk(b, ts + [t])
  {
    hide KeyToken;
    var all := ts + [t];
    forall i | 0 <= i < |all| && all[i].key ensures all[i].parent < i && KeyToken(b, all[i]) {
      if i < |ts| {
        assert all[i] == ts[i];
      }
    }
  }

  /** The name of a key token, read back from its own slice. */
  lemma NameAgain(b: seq<byte>, t: Token)
    requires KeyToken(b, t)
    ensures Text(b[..t.end], t.start, MAX_STRING) == Text(b, t.start, MAX_STRING)
    ensures KeyText(b, t.start) == Text(b, t.start, MAX_STRING).value.decoded
  {
    hide Text;
    Redecoded(b, t.start, MAX_STRING);
  }

  class Document {
    var bytes: seq<byte>
    var position: nat
    var count: nat
    const tokens: array<Token>

    ghost predicate Valid()
      reads this, tokens
    {
      tokens.Length == MAX_TOKENS && count <= MAX_TOKENS && position <= |bytes| && KeysOk(bytes, tokens[..count])
    }

    /** Between calls: the tokens of the last text given to parse(), or none. */
    ghost predicate Holds()
      reads this, tokens
    {
      Valid() && tokens[..count] == DocumentTokens(bytes)
    }

    constructor ()
      ensures Holds() && fresh(tokens) && count == 0
    {
      bytes, position, count := [], 0, 0;
      tokens := new Token[MAX_TOKENS];
    }

    method Whitespace()
      requires position <= |bytes|
      modifies this`position
      ensures position == Skip(bytes, old(position))
    {
      while position < |bytes| && Space(bytes[position])
        invariant old(position) <= position <= |bytes| && Skip(bytes, old(position)) == Skip(bytes, position)
        decreases |bytes| - position
      {
        position := position + 1;
      }
    }

    /** string(): decodes the string of a token again, from its own slice. */
    method StringAt(index: nat, out: array<byte>) returns (ok: bool, n: nat)
      requires count <= tokens.Length && (index < count ==> tokens[index].end <= |bytes|)
      modifies out
      ensures n <= out.Length
      ensures index >= count ==> !ok
      ensures index < count ==>
        var t := tokens[index]; var r := Text(bytes[..t.end], t.start, Limit(Some(out.Length)));
        (ok <==> t.kind.String? && r.Some?) && (ok ==> out[..n] == r.value.decoded)
    {
      ok, n := false, 0;
      if index >= count || !tokens[index].kind.String? {
        return;
      }
      var end;
      ok, end, n := ReadText(bytes[..tokens[index].end], tokens[index].start, out);
      if !ok {
        n := 0;
      }
    }

    /** Whether a key of this object, before `index`, decodes to `name`. */
    method Repeats(index: nat, parent: nat, name: seq<byte>) returns (found: bool)
      requires index <= count <= tokens.Length == MAX_TOKENS && KeysOk(bytes, tokens[..index])
      ensures found <==> name in KeySet(bytes, tokens[..index], parent)
    {
      hide KeyToken, KeyText, Text;
      var previous := new byte[NAME_SIZE];
      for i := 0 to index
        invariant name !in KeySet(bytes, tokens[..i], parent)
      {
        assert tokens[..i + 1] == tokens[..i] + [tokens[i]];
        KeySetSnoc(bytes, tokens[..i], tokens[i], parent);
        if tokens[i].key && tokens[i].parent == parent {
          assert tokens[..index][i] == tokens[i];
          NameAgain(bytes, tokens[i]);
          KeyBounds(bytes, tokens[i]);
          var ok, n := StringAt(i, previous);
          if !ok || previous[..n] == name {
            KeySetGrows(bytes, tokens[..i + 1], tokens[i + 1..index], parent);
            assert tokens[..i + 1] + tokens[i + 1..index] == tokens[..index];
            return true;
          }
        }
      }
      return false;
    }

    /** quoted(): one string token; a key must not repeat another of its object. */
    method Quoted(parent: nat, key: bool) returns (ok: bool)
      requires Valid() && (key ==> parent < count)
      modifies this`position, this`count, tokens
      ensures ok ==> Valid()
      ensures position <= |bytes|
      ensures var r := Text(bytes, old(position), MAX_STRING);
        ok <==> old(count) < MAX_TOKENS && r.Some? && (key ==> r.value.decoded !in old(KeySet(bytes, tokens[..count], parent)))
      ensures ok ==> count == old(count) + 1 && position == Text(bytes, old(position), MAX_STRING).value.end
      ensures ok ==> tokens[..count] == old(tokens[..count]) + [Token(String, old(position), position, parent, count, key)]
    {
      hide KeyToken, KeyText, Text, KeySet, KeysOk;
      if count == MAX_TOKENS {
        return false;
      }
      ghost var before := tokens[..count];
      var index := count;
      count := count + 1;
      tokens[index] := Token(String, position, 0, parent, index + 1, key);
      var fine, end, used := ReadText(bytes, position, null);
      if !fine {
        return false;
      }
      TextSpan(bytes, position);
      tokens[index] := Token(String, position, end, parent, index + 1, key);
      ghost var t := tokens[index];
      assert tokens[..index] == before && tokens[..count] == before + [t];
      TokenOfText(bytes, t);
      NameAgain(bytes, t);
      if key {
        var name := new byte[NAME_SIZE];
        var named, n := StringAt(index, name);
        var repeated := Repeats(index, parent, name[..n]);
        if !named || repeated {
          position := end;
          return false;
        }
      }
      KeysSnoc(bytes, before, t);
      position := end;
      return true;
    }

    /** Literals and numbers: the value's end, or nothing. */
    method Scalar() returns (r: Option<Node>)
      requires position < |bytes| && bytes[position] != QUOTE
      ensures r == ParseLeaf(bytes, position)
    {
      hide Text, NumberEnd;
      var c := bytes[position];
      if LiteralStart(c) {
        var literal := LiteralText(c);
        if |bytes| - position < |literal| || bytes[position..position + |literal|] != literal {
          return None;
        }
        return Some(Leaf(LiteralKind(c), position, position + |literal|));
      }
      var e := ScanNumber(bytes, position);
      return if e.None? then None else Some(Leaf(Numeral, position, e.value));
    }

    /** A key and its colon. */
    method Key(index: nat) returns (ok: bool)
      requires Valid() && index < count
      modifies this`position, this`count, tokens
      ensures var key := ParseKey(bytes, true, old(position), old(count), old(KeySet(bytes, tokens[..count], index)));
        && (ok <==> key.Some?)
        && (ok ==>
              && Valid() && position == key.value.value && count == key.value.count == old(count) + 1
              && tokens[..count] == old(tokens[..count]) + KeyTokens(true, old(position), key.value.end, index, old(count))
              && KeySet(bytes, tokens[..count], index) == old(KeySet(bytes, tokens[..count], index)) + {key.value.text})
    {
      hide KeysOk, Skip, At, Text, KeySet, KeyText, ParseKey;
      ghost var p0, c0, before := position, count, tokens[..count];
      KeyEquation(bytes, p0, c0, KeySet(bytes, before, index));
      ok := Quoted(index, true);
      if !ok {
        return;
      }
      KeySetSnoc(bytes, before, Token(String, p0, position, index, count, true), index);
      Whitespace();
      if position == |bytes| || bytes[position] != COLON {
        NotAt(bytes, position, COLON);
        return false;
      }
      IsAt(bytes, position, COLON);
      position := position + 1;
    }

    /** One member or element: key and colon for an object, then the value. */
    method Member(index: nat, obj: bool, depth: nat) returns (ok: bool)
      requires Valid() && index < count
      modifies this`position, this`count, tokens
      ensures ok <==> MemberReads(bytes, obj, old(position), depth, old(count), old(KeySet(bytes, tokens[..count], index)))
      ensures ok ==> Valid() && old(position) < position
      ensures ok ==>
        var seen := old(KeySet(bytes, tokens[..count], index));
        var key := ParseKey(bytes, obj, old(position), old(count), seen).value;
        var v := ParseValue(bytes, key.value, depth + 1, key.count).value;
        && position == v.node.end && count == v.count
        && tokens[..count] == old(tokens[..count]) + MemberTokens(obj, old(position), key.end, v.node, index, old(count))
        && KeySet(bytes, tokens[..count], index) == (if obj then seen + {key.text} else seen)
      ensures ok ==> OwnedBy(tokens[..count], old(count), index)
      decreases |bytes| - position, 2
    {
      hide KeysOk, OwnKeys, Skip, At, Tokens, Text, ParseValue, KeySet, KeyText, ParseKey, KeyTokens, OwnedBy;
      ghost var p0, c0, before := position, count, tokens[..count];
      ghost var seen := KeySet(bytes, before, index);
      NoKey(bytes, p0, c0, seen);
      if obj {
        ok := Key(index);
        if !ok {
          return;
        }
      }
      ghost var middle, cm := tokens[..count], count;
      KeyShape(bytes, obj, p0, c0, seen, index, before);
      ok := Value(index, depth + 1);
      if ok {
        ghost var key := ParseKey(bytes, obj, p0, c0, seen).value;
        ghost var v := ParseValue(bytes, key.value, depth + 1, key.count).value;
        OwnSame(bytes, middle, Tokens(v.node, index, cm), index);
        OwnedMember(before, KeyTokens(obj, p0, key.end, index, c0), Tokens(v.node, index, cm), index);
      }
    }

    /** After a member: the closing bracket, or a comma and whatever whitespace follows it. */
    method Separator(obj: bool) returns (closed: bool, more: bool)
      requires position <= |bytes|
      modifies this`position
      ensures position <= |bytes|
      ensures var q := Skip(bytes, old(position));
        && closed == At(bytes, q, Closer(obj)) && more == (!closed && At(bytes, q, COMMA))
        && (closed ==> position == q + 1) && (more ==> position == Skip(bytes, q + 1) && old(position) < position)
    {
      hide Skip;
      Whitespace();
      closed, more := false, false;
      if position == |bytes| {
        return;
      }
      if bytes[position] == Closer(obj) {
        position := position + 1;
        return true, false;
      }
      if bytes[position] != COMMA {
        return;
      }
      position := position + 1;
      Whitespace();
      return false, true;
    }

    /** The comma-separated members up to the closing bracket. */
    method Members(index: nat, obj: bool, depth: nat) returns (ok: bool)
      requires Valid() && index < count && KeySet(bytes, tokens[..count], index) == {}
      modifies this`position, this`count, tokens
      ensures ok <==> ParseKids(bytes, obj, old(position), depth, old(count), {}).Some?
      ensures ok ==> Valid()
      ensures ok ==>
        var r := ParseKids(bytes, obj, old(position), depth, old(count), {}).value;
        && position == r.end && count == r.count
        && tokens[..count] == old(tokens[..count]) + KidTokens(obj, r.kids, index, old(count))
      ensures ok ==> OwnedBy(tokens[..count], old(count), index)
      decreases |bytes| - position, 3
    {
      hide KeysOk, Skip, At, Tokens, ParseValue, KeySet, KeyText, ParseKey, ParseKids, KidTokens, KidsSize, Size, Closer, KeyTokens, Append,
        OwnedBy, MemberReads, MemberTokens, After;
      ghost var p0, c0, before := position, count, tokens[..count];
      ghost var done, seen := NoMore, {};
      AfterNothing(ParseKids(bytes, obj, p0, depth, c0, {}));
      NothingOwned(obj, before, index);
      var more := true;
      while more
        invariant Valid() && index < c0 <= count && p0 <= position && more
        invariant ParseKids(bytes, obj, p0, depth, c0, {}) == After(done, ParseKids(bytes, obj, position, depth, count, seen))
        invariant KeySet(bytes, tokens[..count], index) == seen
        invariant tokens[..count] == before + KidTokens(obj, done, index, c0) && count == c0 + KidsSize(obj, done)
        invariant OwnedBy(tokens[..count], c0, index)
        decreases |bytes| - position
      {
        ghost var p, c, now := position, count, tokens[..count];
        ok := Member(index, obj, depth);
        if !ok {
          MemberFails(bytes, obj, p, depth, c, seen, done);
          return false;
        }
        MemberFits(bytes, obj, p, depth, c, seen);
        ghost var key := ParseKey(bytes, obj, p, c, seen).value;
        ghost var v := ParseValue(bytes, key.value, depth + 1, key.count).value;
        ghost var one := One(if obj then p else 0, key.end, v.node);
        OneTokens(bytes, obj, p, c, seen, index, depth);
        Extended(obj, done, one, before, index, c0);
        OwnedOn(now, tokens[..count], c0, index);
        MemberThen(bytes, obj, p, depth, c, seen, key, v, done);
        seen := if obj then seen + {key.text} else seen;
        done := Append(done, one);
        var closed;
        closed, more := Separator(obj);
        if !more {
          return closed;
        }
      }
    }

    /** An object or array, from its opening bracket. */
    method Bracketed(parent: nat, depth: nat) returns (ok: bool)
      requires Valid() && Open(bytes, position, depth, count) && depth < MAX_DEPTH && Skip(bytes, position) == position
      requires bytes[position] == Opener(true) || bytes[position] == Opener(false)
      modifies this`position, this`count, tokens
      ensures ok <==> ParseValue(bytes, old(position), depth, old(count)).Some?
      ensures ok ==> Valid()
      ensures ok ==>
        var r := ParseValue(bytes, old(position), depth, old(count)).value;
        && position == r.node.end && count == r.count
        && tokens[..count] == old(tokens[..count]) + Tokens(r.node, parent, old(count))
      ensures ok ==> OwnKeys(tokens[..count], old(count))
      decreases |bytes| - position, 0
    {
      hide KeysOk, OwnKeys, Skip, At, ParseKids, Tokens, KidTokens, Closer, ParseValue, OwnedBy, KeySet, KidsSize, Opener;
      ghost var c0, before := count, tokens[..count];
      var obj := bytes[position] == Opener(true);
      var index, start := count, position;
      tokens[index] := Token(GroupKind(obj), start, 0, parent, 0, false);
      count, position := count + 1, position + 1;
      assert tokens[..count] == before + [tokens[index]];
      ghost var temporary := tokens[index];
      KeysSnoc(bytes, before, temporary);
      NoKeysYet(bytes, before, temporary);
      Whitespace();
      if position < |bytes| && bytes[position] == Closer(obj) {
        IsAt(bytes, position, Closer(obj));
        ValueEmpty(bytes, start, depth, c0, obj, parent);
        position := position + 1;
        tokens[index] := Token(GroupKind(obj), start, position, parent, count, false);
        assert tokens[..count] == before + [tokens[index]];
        KeysSnoc(bytes, before, tokens[index]);
        OwnSnoc(before, tokens[index]);
        return true;
      }
      NotAt(bytes, position, Closer(obj));
      ValueGroup(bytes, start, depth, c0, obj);
      ok := Members(index, obj, depth);
      if !ok {
        return;
      }
      ghost var r := ParseKids(bytes, obj, Skip(bytes, start + 1), depth, c0 + 1, {}).value;
      ghost var kids := KidTokens(obj, r.kids, c0, c0 + 1);
      assert tokens[..count] == before + [temporary] + kids;
      tokens[index] := Token(GroupKind(obj), start, position, parent, count, false);
      assert tokens[..count] == before + [tokens[index]] + kids;
      Replaced(bytes, before, temporary, tokens[index], kids);
      GroupTokens(obj, start, position, r.kids, parent, c0);
      Regroup(before, [tokens[index]], kids);
      return true;
    }

    /** value(): one value with its subtree of tokens. */
    method Value(parent: nat, depth: nat) returns (ok: bool)
      requires Valid()
      modifies this`position, this`count, tokens
      ensures ok <==> ParseValue(bytes, old(position), depth, old(count)).Some?
      ensures ok ==> Valid()
      ensures ok ==>
        var r := ParseValue(bytes, old(position), depth, old(count)).value;
        && position == r.node.end && count == r.count
        && tokens[..count] == old(tokens[..count]) + Tokens(r.node, parent, old(count))
      ensures ok ==> OwnKeys(tokens[..count], old(count))
      decreases |bytes| - position, 1
    {
      hide KeysOk, OwnKeys, Skip, ParseLeaf, Tokens, Text, ParseValue, Opener;
      ghost var p0, c0, before := position, count, tokens[..count];
      Whitespace();
      SkipAgain(bytes, p0);
      ValueSkips(bytes, p0, depth, c0);
      if depth > MAX_DEPTH || position == |bytes| || count == MAX_TOKENS {
        ValueRefused(bytes, p0, depth, c0);
        return false;
      }
      var c := bytes[position];
      if c == QUOTE {
        ok := Quoted(parent, false);
        ValueQuoted(bytes, p0, depth, c0, parent, before);
        return;
      }
      if c == Opener(true) || c == Opener(false) {
        if depth == MAX_DEPTH {
          ValueRefused(bytes, p0, depth, c0);
          return false;
        }
        ok := Bracketed(parent, depth);
        return;
      }
      var leaf := Scalar();
      ValueLeaf(bytes, p0, depth, c0);
      if leaf.None? {
        return false;
      }
      var index := count;
      position, count := leaf.value.end, count + 1;
      tokens[index] := Token(leaf.value.kind, leaf.value.start, position, parent, count, false);
      LeafTokens(leaf.value, parent, index);
      assert tokens[..count] == before + [tokens[index]];
      KeysSnoc(bytes, before, tokens[index]);
      OwnSnoc(before, tokens[index]);
      return true;
    }

    /** parse(): the token array of an accepted document is the preorder of its tree. */
    method ParseText(input: seq<byte>) returns (ok: bool)
      requires tokens.Length == MAX_TOKENS
      modifies this, tokens
      ensures Holds() && bytes == input && WithinText(bytes, tokens[..count])
      ensures ok <==> Parse(input).Some?
      ensures ok <==> count > 0
    {
      DocumentInside(input);
      hide ParseValue, Tokens, Skip;
      count, position, bytes := 0, 0, input;
      if |input| == 0 || |input| > MAX_SIZE {
        return false;
      }
      assert tokens[..0] == [];
      ok := Value(NO_PARENT, 0);
      if !ok {
        count, position := 0, 0;
        assert tokens[..0] == [];
        return;
      }
      ghost var n := ParseValue(input, 0, 0, 0).value.node;
      assert [] + Tokens(n, NO_PARENT, 0) == Tokens(n, NO_PARENT, 0);
      Whitespace();
      ok := position == |input|;
      if !ok {
        count, position := 0, 0;
        assert tokens[..0] == [];
      }
    }

    /** find(): the value token of the root member with this key. */
    method Find(key: seq<byte>) returns (at: int)
      requires Holds()
      ensures at == match FindRoot(bytes, key) case None => -1 case Some(i) => i
    {
      hide KeysOk, KidTokens, KeyText, Text, FindKid, Parse, Size;
      RootToken(bytes);
      if count > 0 {
        assert tokens[..count][0] == tokens[0];
      }
      if count == 0 || !tokens[0].kind.Object? {
        return -1;
      }
      ghost var ts := tokens[1..count];
      assert ts == tokens[..count][1..];
      ScanAll(bytes, Parse(bytes).value.node.kids, key, ts);
      var name := new byte[NAME_SIZE];
      for i := 1 to count
        invariant FirstKey(bytes, ts, key, 0) == FirstKey(bytes, ts, key, i - 1)
      {
        assert ts[i - 1] == tokens[i] == tokens[..count][i];
        if tokens[i].parent == 0 && tokens[i].key {
          KeyOkAt(bytes, tokens[..count], i);
          NameAgain(bytes, tokens[i]);
          KeyBounds(bytes, tokens[i]);
          var ok, n := StringAt(i, name);
          if ok && name[..n] == key {
            return i + 1;
          }
        }
      }
      return -1;
    }

    /** uint32(): a plain run of digits below 2^32. */
    method Uint32(index: nat) returns (r: Option<uint32>)
      requires count <= tokens.Length && (index < count ==> tokens[index].start <= tokens[index].end <= |bytes|)
      ensures index >= count ==> r.None?
      ensures index < count ==>
        var t := tokens[index]; var s := bytes[t.start..t.end];
        && (r.Some? <==> t.kind.Numeral? && Digits(s) && Decimal(s) < WORD_SPAN)
        && (r.Some? ==> r.value == Decimal(s))
    {
      hide Decimal, Digits;
      if index >= count || !tokens[index].kind.Numeral? {
        return None;
      }
      r := ReadDecimal(bytes[tokens[index].start..tokens[index].end]);
    }
  }

  /** The first token of an accepted text is its root, and says whether that is an object. */
  lemma RootToken(b: seq<byte>)
    ensures Parse(b).Some? ==>
      var n := Parse(b).value.node; var ts := DocumentTokens(b);
      && ts != [] && (ts[0].kind.Object? <==> n.Group? && n.obj)
      && (n.Group? && n.obj ==> ts[1..] == KidTokens(true, n.kids, 0, 1))
  {
    hide Parse, Size, KidTokens;
    if Parse(b).Some? {
      ParseIff(b, Parse(b).value.node);
    }
  }

  predicate Overflows(value: int, n: int) {
    value > (WORD_SPAN - 1 - n) / 10
  }

  lemma OverflowsIff(value: int, n: int)
    requires 0 <= n <= 9
    ensures Overflows(value, n) <==> value * 10 + n >= WORD_SPAN
  {
  }

  method ReadDecimal(s: seq<byte>) returns (r: Option<uint32>)
    ensures r.Some? <==> Digits(s) && Decimal(s) < WORD_SPAN
    ensures r.Some? ==> r.value == Decimal(s)
  {
    hide Decimal, Overflows;
    var value: int := 0;
    NoDecimal();
    assert s[..0] == [];
    for i := 0 to |s|
      invariant Digits(s[..i]) && value == Decimal(s[..i]) && 0 <= value < WORD_SPAN
    {
      if !Digit(s[i]) {
        return None;
      }
      var n: int := s[i] - 0x30;
      assert s[..i + 1] == s[..i] + [s[i]];
      DecimalSnoc(s[..i], s[i]);
      OverflowsIff(value, n);
      if Overflows(value, n) {
        DecimalGrows(s, i + 1);
        return None;
      }
      value := value * 10 + n;
    }
    assert s[..|s|] == s;
    return Some(value);
  }

  lemma NoDecimal()
    ensures Decimal([]) == 0
  {
  }

  // ---- Finding ----

  /** The first direct key with this text, as find() scans for it. */
  function FirstKey(b: seq<byte>, ts: seq<Token>, key: seq<byte>, from: nat): Option<nat>
    decreases |ts| - from
  {
    if from >= |ts| then None
    else if ts[from].key && ts[from].parent == 0 && KeyText(b, ts[from].start) == key then Some(from)
    else FirstKey(b, ts, key, from + 1)
  }

  lemma KeyOkAt(b: seq<byte>, ts: seq<Token>, i: nat)
    requires KeysOk(b, ts) && i < |ts| && ts[i].key
    ensures KeyToken(b, ts[i])
  {
  }

  lemma {:induction false} FirstSkips(b: seq<byte>, ts: seq<Token>, key: seq<byte>, lo: nat, hi: nat)
    requires lo <= hi <= |ts| && forall i :: lo <= i < hi ==> !(ts[i].key && ts[i].parent == 0)
    ensures FirstKey(b, ts, key, lo) == FirstKey(b, ts, key, hi)
    decreases |ts| - lo
  {
    hide KeyText;
    if lo < hi {
      FirstSkips(b, ts, key, lo + 1, hi);
    }
  }

  /** A subtree's key tokens belong to objects inside it. */
  lemma {:induction false} SubtreeKeys(n: Node, parent: nat, index: nat)
    ensures forall i :: 0 <= i < |Tokens(n, parent, index)| && Tokens(n, parent, index)[i].key ==>
      Tokens(n, parent, index)[i].parent >= index
    decreases n
  {
    if n.Group? {
      KidKeys(n.obj, n.kids, index, index + 1);
      GroupTokens(n.obj, n.start, n.end, n.kids, parent, index);
      var t := Token(GroupKind(n.obj), n.start, n.end, parent, index + 1 + KidsSize(n.obj, n.kids), false);
      var kids := KidTokens(n.obj, n.kids, index, index + 1);
      hide Tokens, KidTokens, KidsSize;
      assert Tokens(n, parent, index) == [t] + kids;
      forall i | 0 <= i < |[t] + kids| && ([t] + kids)[i].key ensures ([t] + kids)[i].parent >= index {
        assert ([t] + kids)[i] == kids[i - 1];
      }
    }
  }

  lemma {:induction false} KidKeys(obj: bool, kids: Kids, parent: nat, index: nat)
    requires parent < index
    ensures var ts := KidTokens(obj, kids, parent, index); forall i :: 0 <= i < |ts| && ts[i].key ==> ts[i].parent >= parent
    decreases kids
  {
    hide Tokens, KidTokens, Size;
    if kids.Kid? {
      var at := ValueAt(obj, index);
      TokensCons(obj, kids, parent, index);
      SubtreeKeys(kids.value, parent, at);
      KidKeys(obj, kids.rest, parent, at + Size(kids.value));
      Appended(KeyTokens(obj, kids.keyStart, kids.keyEnd, parent, index), Tokens(kids.value, parent, at),
               KidTokens(obj, kids.rest, parent, at + Size(kids.value)), parent);
    } else {
      NoTokens(obj, parent, index);
    }
  }

  lemma Appended(a: seq<Token>, b: seq<Token>, c: seq<Token>, parent: nat)
    requires forall i :: 0 <= i < |a| && a[i].key ==> a[i].parent >= parent
    requires forall i :: 0 <= i < |b| && b[i].key ==> b[i].parent >= parent
    requires forall i :: 0 <= i < |c| && c[i].key ==> c[i].parent >= parent
    ensures forall i :: 0 <= i < |a + b + c| && (a + b + c)[i].key ==> (a + b + c)[i].parent >= parent
  {
    var all := a + b + c;
    forall i | 0 <= i < |all| && all[i].key ensures all[i].parent >= parent {
      if i < |a| {
        assert all[i] == a[i];
      } else if i < |a| + |b| {
        assert all[i] == b[i - |a|];
      } else {
        assert all[i] == c[i - |a| - |b|];
      }
    }
  }

  lemma ScanAll(b: seq<byte>, kids: Kids, key: seq<byte>, ts: seq<Token>)
    requires ts == KidTokens(true, kids, 0, 1)
    ensures (match FirstKey(b, ts, key, 0) case None => None case Some(i) => Some(i + 2)) == FindKid(b, kids, key, 1)
  {
    hide KidTokens, FindKid, FirstKey;
    assert [] + ts == ts;
    ScanFrom(b, [], kids, key);
  }

  /** Scanning the tokens finds what walking the members finds. */
  lemma {:induction false} ScanFrom(b: seq<byte>, done: seq<Token>, kids: Kids, key: seq<byte>)
    ensures var ts := done + KidTokens(true, kids, 0, |done| + 1);
      (match FirstKey(b, ts, key, |done|) case None => None case Some(i) => Some(i + 2)) == FindKid(b, kids, key, |done| + 1)
    decreases kids
  {
    hide Tokens, KidTokens, Size, KeyText;
    var from := |done|;
    if kids.Kid? {
      var k := Token(String, kids.keyStart, kids.keyEnd, 0, from + 2, true);
      var v := Tokens(kids.value, 0, from + 2);
      var rest := KidTokens(true, kids.rest, 0, from + 2 + Size(kids.value));
      TokensCons(true, kids, 0, from + 1);
      var ts := done + KidTokens(true, kids, 0, from + 1);
      var head := done + [k] + v;
      assert ts == done + ([k] + v + rest) == head + rest;
      assert ts[from] == k;
      if KeyText(b, kids.keyStart) != key {
        SubtreeKeys(kids.value, 0, from + 2);
        forall i | from + 1 <= i < |head| ensures !(ts[i].key && ts[i].parent == 0) {
          assert ts[i] == v[i - from - 1];
        }
        FirstSkips(b, ts, key, from + 1, |head|);
        ScanFrom(b, head, kids.rest, key);
      }
    } else {
      NoTokens(true, 0, from + 1);
      assert done + [] == done;
    }
  }

  // ---- Decimals ----

  function Decimal(s: seq<byte>): int {
    if s == [] then 0 else Decimal(s[..|s| - 1]) * 10 + (s[|s| - 1] as int - 0x30)
  }

  lemma DecimalSnoc(s: seq<byte>, d: byte)
    ensures Decimal(s + [d]) == Decimal(s) * 10 + (d as int - 0x30)
  {
    assert (s + [d])[..|s|] == s;
  }

  /** More digits never make a number smaller. */
  lemma {:induction false} DecimalGrows(s: seq<byte>, k: nat)
    requires k <= |s| && Decimal(s[..k]) >= 0
    ensures Digits(s) ==> Decimal(s) >= Decimal(s[..k])
    decreases |s| - k
  {
    if k < |s| {
      assert s[..k + 1] == s[..k] + [s[k]];
      DecimalSnoc(s[..k], s[k]);
      if Digits(s) {
        DecimalGrows(s, k + 1);
      }
    } else {
      assert s[..k] == s;
    }
  }

  /** Key tokens from `index` on belong to objects from `index` on. */
  predicate OwnKeys(ts: seq<Token>, index: nat) {
    forall i :: index <= i < |ts| && ts[i].key ==> ts[i].parent >= index
  }

  lemma KeyBounds(b: seq<byte>, t: Token)
    requires KeyToken(b, t)
    ensures t.kind.String? && t.end <= |b| && Text(b, t.start, MAX_STRING).Some?
  {
  }

  lemma TextSpan(b: seq<byte>, p: nat)
    requires Text(b, p, MAX_STRING).Some?
    ensures p < Text(b, p, MAX_STRING).value.end <= |b|
  {
  }

  lemma TokenOfText(b: seq<byte>, t: Token)
    requires t.kind.String? && Text(b, t.start, MAX_STRING).Some? && Text(b, t.start, MAX_STRING).value.end == t.end
    ensures KeyToken(b, t)
  {
  }

  lemma {:induction false} KeySetGrows(b: seq<byte>, ts: seq<Token>, more: seq<Token>, parent: nat)
    ensures KeySet(b, ts, parent) <= KeySet(b, ts + more, parent)
    decreases |more|
  {
    hide KeyText;
    if more == [] {
      assert ts + more == ts;
    } else {
      var n := |more| - 1;
      KeySetGrows(b, ts, more[..n], parent);
      KeySetSnoc(b, ts + more[..n], more[n], parent);
      assert ts + more[..n] + [more[n]] == ts + more;
    }
  }

  // ---- value(), branch by branch ----

  lemma ValueRefused(b: seq<byte>, p: nat, depth: nat, count: nat)
    requires !Open(b, p, depth, count) ||
      (depth == MAX_DEPTH && (b[Skip(b, p)] == Opener(true) || b[Skip(b, p)] == Opener(false)))
    ensures ParseValue(b, p, depth, count).None?
  {
    hide ParseKids, ParseLeaf;
  }

  predicate Open(b: seq<byte>, p: nat, depth: nat, count: nat) {
    depth <= MAX_DEPTH && Skip(b, p) < |b| && count < MAX_TOKENS
  }

  lemma ValueQuoted(b: seq<byte>, p: nat, depth: nat, count: nat, parent: nat, before: seq<Token>)
    requires Open(b, p, depth, count) && b[Skip(b, p)] == QUOTE && |before| == count
    ensures var q := Skip(b, p); var r := Text(b, q, MAX_STRING);
      && ParseValue(b, p, depth, count) ==
           (match r case None => None case Some(t) => Some(Parsed(Leaf(String, q, t.end), count + 1)))
      && (r.Some? ==>
            var t := Token(String, q, r.value.end, parent, count + 1, false);
            Tokens(Leaf(String, q, r.value.end), parent, count) == [t] && OwnKeys(before + [t], count))
  {
    hide ParseKids, Text;
  }

  lemma ValueEmpty(b: seq<byte>, p: nat, depth: nat, count: nat, obj: bool, parent: nat)
    requires Open(b, p, depth, count) && depth < MAX_DEPTH && b[Skip(b, p)] == Opener(obj)
    requires At(b, Skip(b, Skip(b, p) + 1), Closer(obj))
    ensures var q := Skip(b, p); var n := Group(obj, q, Skip(b, q + 1) + 1, NoMore);
      && ParseValue(b, p, depth, count) == Some(Parsed(n, count + 1))
      && Tokens(n, parent, count) == [Token(GroupKind(obj), q, n.end, parent, count + 1, false)]
  {
    hide ParseKids, ParseLeaf;
  }

  lemma ValueGroup(b: seq<byte>, p: nat, depth: nat, count: nat, obj: bool)
    requires Open(b, p, depth, count) && depth < MAX_DEPTH && b[Skip(b, p)] == Opener(obj)
    requires !At(b, Skip(b, Skip(b, p) + 1), Closer(obj))
    ensures var q := Skip(b, p);
      ParseValue(b, p, depth, count) ==
        match ParseKids(b, obj, Skip(b, q + 1), depth, count + 1, {})
        case None => None
        case Some(r) => Some(Parsed(Group(obj, q, r.end, r.kids), r.count))
  {
    hide ParseKids, ParseLeaf;
  }

  lemma ValueLeaf(b: seq<byte>, p: nat, depth: nat, count: nat)
    requires Open(b, p, depth, count) && b[Skip(b, p)] != Opener(true) && b[Skip(b, p)] != Opener(false)
    ensures ParseValue(b, p, depth, count) ==
      match ParseLeaf(b, Skip(b, p)) case None => None case Some(n) => Some(Parsed(n, count + 1))
  {
    hide ParseKids, ParseLeaf;
  }

  lemma LeafTokens(n: Node, parent: nat, index: nat)
    requires n.Leaf?
    ensures Tokens(n, parent, index) == [Token(n.kind, n.start, n.end, parent, index + 1, false)]
  {
  }

  lemma GroupTokens(obj: bool, s: nat, e: nat, kids: Kids, parent: nat, index: nat)
    ensures Tokens(Group(obj, s, e, kids), parent, index) ==
      [Token(GroupKind(obj), s, e, parent, index + 1 + KidsSize(obj, kids), false)] + KidTokens(obj, kids, index, index + 1)
  {
    hide KidTokens, KidsSize;
  }

  lemma OwnSnoc(ts: seq<Token>, t: Token)
    requires !t.key
    ensures OwnKeys(ts + [t], |ts|)
  {
  }

  lemma NoKeysYet(b: seq<byte>, before: seq<Token>, t: Token)
    requires KeysOk(b, before) && !t.key
    ensures KeySet(b, before + [t], |before|) == {}
  {
    hide KeyToken, KeyText;
    var ts := before + [t];
    assert forall i :: 0 <= i < |before| ==> ts[i] == before[i];
    KeySetNone(b, ts, |before|);
  }

  lemma Replaced(b: seq<byte>, before: seq<Token>, t: Token, u: Token, more: seq<Token>)
    requires KeysOk(b, before + [t] + more) && !t.key && !u.key
    requires OwnedBy(before + [t] + more, |before| + 1, |before|)
    ensures KeysOk(b, before + [u] + more) && OwnKeys(before + [u] + more, |before|)
  {
    hide KeyToken;
    var x, y := before + [t] + more, before + [u] + more;
    assert forall i :: 0 <= i < |x| && i != |before| ==> y[i] == x[i];
    assert y[|before|] == u;
  }

  // ---- Members ----

  lemma KeyEquation(b: seq<byte>, p: nat, count: nat, seen: set<seq<byte>>)
    ensures ParseKey(b, true, p, count, seen) ==
      (if count >= MAX_TOKENS || Text(b, p, MAX_STRING).None? then None
       else
         var r := Text(b, p, MAX_STRING).value;
         var q := Skip(b, r.end);
         if r.decoded in seen || !At(b, q, COLON) then None else Some(ParsedKey(r.end, r.decoded, q + 1, count + 1)))
    ensures Text(b, p, MAX_STRING).Some? ==> KeyText(b, p) == Text(b, p, MAX_STRING).value.decoded
  {
    hide Text;
  }

  lemma IsAt(b: seq<byte>, p: nat, c: byte)
    requires p < |b| && b[p] == c
    ensures At(b, p, c)
  {
  }

  lemma NotAt(b: seq<byte>, p: nat, c: byte)
    requires p >= |b| || b[p] != c
    ensures !At(b, p, c)
  {
  }

  lemma OwnSame(b: seq<byte>, ts: seq<Token>, more: seq<Token>, index: nat)
    requires OwnKeys(ts + more, |ts|) && index < |ts|
    ensures KeySet(b, ts + more, index) == KeySet(b, ts, index)
  {
    hide KeyText;
    var all := ts + more;
    forall i | 0 <= i < |more| && more[i].key ensures more[i].parent != index {
      assert all[|ts| + i] == more[i];
    }
    KeySetSame(b, ts, more, index);
  }

  /** Key tokens from `from` on belong to `index` or to objects after it. */
  predicate OwnedBy(ts: seq<Token>, from: nat, index: nat) {
    forall i :: from <= i < |ts| && ts[i].key ==> ts[i].parent >= index
  }

  lemma OwnedOn(now: seq<Token>, all: seq<Token>, from: nat, index: nat)
    requires OwnedBy(now, from, index) && now <= all && OwnedBy(all, |now|, index)
    ensures OwnedBy(all, from, index)
  {
    forall i | from <= i < |all| && all[i].key ensures all[i].parent >= index {
      if i < |now| {
        assert all[i] == now[i];
      }
    }
  }

  lemma OwnedMember(before: seq<Token>, ks: seq<Token>, more: seq<Token>, index: nat)
    requires OwnKeys(before + ks + more, |before + ks|) && index < |before|
    requires forall i :: 0 <= i < |ks| ==> ks[i].parent == index
    ensures OwnedBy(before + ks + more, |before|, index) && before + ks + more == before + (ks + more)
  {
    var all := before + ks + more;
    forall i | |before| <= i < |all| && all[i].key ensures all[i].parent >= index {
      if i < |before + ks| {
        assert all[i] == ks[i - |before|];
      }
    }
  }

  lemma NothingOwned(obj: bool, before: seq<Token>, index: nat)
    ensures KidTokens(obj, NoMore, index, |before|) == [] && KidsSize(obj, NoMore) == 0
    ensures before + KidTokens(obj, NoMore, index, |before|) == before && OwnedBy(before, |before|, index)
  {
  }

  predicate MemberReads(b: seq<byte>, obj: bool, p: nat, depth: nat, count: nat, seen: set<seq<byte>>) {
    var key := ParseKey(b, obj, p, count, seen);
    key.Some? && key.value.value <= |b| && ParseValue(b, key.value.value, depth + 1, key.value.count).Some?
  }

  lemma MemberFits(b: seq<byte>, obj: bool, p: nat, depth: nat, count: nat, seen: set<seq<byte>>)
    requires MemberReads(b, obj, p, depth, count, seen)
    ensures var key := ParseKey(b, obj, p, count, seen);
      key.Some? && key.value.value <= |b| && ParseValue(b, key.value.value, depth + 1, key.value.count).Some?
  {
  }

  lemma MemberFails(b: seq<byte>, obj: bool, p: nat, depth: nat, count: nat, seen: set<seq<byte>>, done: Kids)
    requires !MemberReads(b, obj, p, depth, count, seen)
    ensures After(done, ParseKids(b, obj, p, depth, count, seen)).None?
  {
    hide ParseKey, ParseValue, ParseKids;
    if ParseKids(b, obj, p, depth, count, seen).Some? {
      MemberNeeded(b, obj, p, depth, count, seen);
    }
  }

  function MemberTokens(obj: bool, ks: nat, ke: nat, v: Node, parent: nat, index: nat): seq<Token> {
    KeyTokens(obj, ks, ke, parent, index) + Tokens(v, parent, ValueAt(obj, index))
  }

  /** What reading the key did to the tokens. */
  lemma KeyShape(b: seq<byte>, obj: bool, p: nat, count: nat, seen: set<seq<byte>>, index: nat, before: seq<Token>)
    ensures ParseKey(b, obj, p, count, seen).Some? ==>
      var key := ParseKey(b, obj, p, count, seen).value;
      var ks := KeyTokens(obj, p, key.end, index, count);
      && key.count == ValueAt(obj, count) && (!obj ==> before + ks == before && key.value == p)
      && (forall i :: 0 <= i < |ks| ==> ks[i].parent == index)
  {
    hide Text, Skip, At;
  }

  lemma ValueSkips(b: seq<byte>, p: nat, depth: nat, count: nat)
    ensures ParseValue(b, Skip(b, p), depth, count) == ParseValue(b, p, depth, count)
  {
    hide ParseKids, ParseLeaf, Skip;
    SkipAgain(b, p);
  }

  function After(done: Kids, r: Option<ParsedKids>): Option<ParsedKids> {
    match r case None => None case Some(v) => Some(ParsedKids(Append(done, v.kids), v.end, v.count))
  }

  lemma AfterNothing(r: Option<ParsedKids>)
    ensures After(NoMore, r) == r
  {
  }

  lemma AfterMore(done: Kids, one: Kids, r: Option<ParsedKids>)
    requires one.Kid? && one.rest.NoMore?
    ensures After(Append(done, one), r) ==
      After(done, match r case None => None case Some(v) => Some(ParsedKids(one.(rest := v.kids), v.end, v.count)))
  {
    hide Append;
    if r.Some? {
      AppendMore(done, one, r.value.kids);
    }
  }

  /** What comes after a member decides what the whole list gives. */
  lemma MemberThen(b: seq<byte>, obj: bool, p: nat, depth: nat, count: nat, seen: set<seq<byte>>, key: ParsedKey, v: Parsed, done: Kids)
    requires ParseKey(b, obj, p, count, seen) == Some(key) && key.value <= |b|
    requires ParseValue(b, key.value, depth + 1, key.count) == Some(v)
    ensures var q := Skip(b, v.node.end); var all := Append(done, One(if obj then p else 0, key.end, v.node));
      var r := After(done, ParseKids(b, obj, p, depth, count, seen));
      && (At(b, q, Closer(obj)) ==> r == Some(ParsedKids(all, q + 1, v.count)))
      && (!At(b, q, Closer(obj)) && !At(b, q, COMMA) ==> r.None?)
      && (!At(b, q, Closer(obj)) && At(b, q, COMMA) ==>
            r == After(all, ParseKids(b, obj, Skip(b, q + 1), depth, v.count, if obj then seen + {key.text} else seen)))
  {
    hide ParseKey, ParseValue, Skip, At, Closer, ParseKids, Append;
    MemberParsed(b, obj, p, depth, count, seen, key, v);
    var q := Skip(b, v.node.end);
    AfterMore(done, One(if obj then p else 0, key.end, v.node),
              ParseKids(b, obj, Skip(b, q + 1), depth, v.count, if obj then seen + {key.text} else seen));
  }

  /** The tokens and size of one parsed member. */
  lemma OneTokens(b: seq<byte>, obj: bool, p: nat, count: nat, seen: set<seq<byte>>, index: nat, depth: nat)
    requires MemberReads(b, obj, p, depth, count, seen)
    ensures MemberReads(b, obj, p, depth, count, seen) ==>
      var key := ParseKey(b, obj, p, count, seen).value;
      var v := ParseValue(b, key.value, depth + 1, key.count).value;
      var one := One(if obj then p else 0, key.end, v.node);
      && KidTokens(obj, one, index, count) == MemberTokens(obj, p, key.end, v.node, index, count)
      && v.count == count + KidsSize(obj, one)
  {
    hide Tokens, ParseValue, Text, Size, IsValue, Unrepeated, Nested, Skip, At, ParseKey, KeyTokens;
    var key := ParseKey(b, obj, p, count, seen).value;
    var v := ParseValue(b, key.value, depth + 1, key.count).value;
    var one := One(if obj then p else 0, key.end, v.node);
    ValueSound(b, key.value, depth + 1, key.count);
    KeyShape(b, obj, p, count, seen, index, []);
    TokensCons(obj, one, index, count);
    NoTokens(obj, index, count + KidsSize(obj, one));
    SameKeys(obj, p, key.end, index, count);
    var ts := MemberTokens(obj, p, key.end, v.node, index, count);
    assert ts + [] == ts;
  }

  lemma SameKeys(obj: bool, p: nat, e: nat, index: nat, count: nat)
    ensures KeyTokens(obj, if obj then p else 0, e, index, count) == KeyTokens(obj, p, e, index, count)
  {
  }

  lemma Extended(obj: bool, done: Kids, one: Kids, before: seq<Token>, index: nat, c0: nat)
    ensures before + KidTokens(obj, Append(done, one), index, c0) ==
      before + KidTokens(obj, done, index, c0) + KidTokens(obj, one, index, c0 + KidsSize(obj, done))
    ensures KidsSize(obj, Append(done, one)) == KidsSize(obj, done) + KidsSize(obj, one)
  {
    hide KidTokens, KidsSize, Append;
    TokensAppend(obj, done, one, index, c0);
    SizeAppend(obj, done, one);
    Regroup(before, KidTokens(obj, done, index, c0), KidTokens(obj, one, index, c0 + KidsSize(obj, done)));
  }
}
