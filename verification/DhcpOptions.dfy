/** DHCP option streams: the bounded parser, what it accepts, and that order and padding do not matter. */
module DhcpOptions {
  import opened Bytes

  const OPTIONS := 240
  const MAX_PACKET := 548
  const CLIENT_ID_MAX := 32
  const PAD: byte := 0
  const END: byte := 255
  const REQUESTED: byte := 50
  const OVERLOAD: byte := 52
  const MESSAGE_TYPE: byte := 53
  const SERVER: byte := 54
  const CLIENT: byte := 61

  /** One option of a stream; PAD is one byte. */
  datatype Item = Pad | Item(code: byte, data: seq<byte>)

  predicate ValidItem(it: Item) {
    it.Item? ==> it.code != PAD && it.code != END && |it.data| <= 255
  }

  predicate ValidItems(items: seq<Item>) {
    forall i :: 0 <= i < |items| ==> ValidItem(items[i])
  }

  function WireItem(it: Item): seq<byte>
    requires ValidItem(it)
  {
    if it.Pad? then [PAD] else [it.code, |it.data|] + it.data
  }

  function Wire(items: seq<Item>): seq<byte>
    requires ValidItems(items)
  {
    if items == [] then [] else WireItem(items[0]) + Wire(items[1..])
  }

  /** The items before END; nothing when the stream runs out first. */
  function Split(b: seq<byte>): (r: Option<seq<Item>>)
    ensures r.Some? ==> ValidItems(r.value)
    decreases |b|
  {
    if b == [] then None
    else if b[0] == PAD then match Split(b[1..]) case None => None case Some(items) => Some([Pad] + items)
    else if b[0] == END then Some([])
    else if |b| < 2 || b[1] > |b| - 2 then None
    else
      match Split(b[2 + b[1]..])
      case None => None
      case Some(items) => Some([Item(b[0], b[2..2 + b[1]])] + items)
  }

  lemma SplitItem(it: Item, rest: seq<byte>)
    requires ValidItem(it)
    ensures Split(WireItem(it) + rest) ==
      match Split(rest) case None => None case Some(items) => Some([it] + items)
  {
    var b := WireItem(it) + rest;
    if it.Pad? {
      assert b[1..] == rest;
    } else {
      assert b[2 + b[1]..] == rest && b[2..2 + b[1]] == it.data;
    }
  }

  lemma {:induction false} SplitAppend(items: seq<Item>, rest: seq<byte>)
    requires ValidItems(items)
    ensures Split(Wire(items) + rest) == match Split(rest) case None => None case Some(more) => Some(items + more)
    decreases |items|
  {
    hide Split, WireItem, ValidItem;
    if items == [] {
      assert Wire(items) + rest == rest;
      assert Split(rest).Some? ==> items + Split(rest).value == Split(rest).value;
    } else {
      SplitAppend(items[1..], rest);
      SplitItem(items[0], Wire(items[1..]) + rest);
      assert WireItem(items[0]) + Wire(items[1..]) + rest == WireItem(items[0]) + (Wire(items[1..]) + rest);
      assert Split(rest).Some? ==> [items[0]] + (items[1..] + Split(rest).value) == items + Split(rest).value;
    }
  }

  /** Splitting undoes writing, whatever follows END. */
  lemma SplitWire(items: seq<Item>, tail: seq<byte>)
    requires ValidItems(items)
    ensures Split(Wire(items) + ([END] + tail)) == Some(items)
  {
    hide Wire, WireItem, ValidItem;
    SplitAppend(items, [END] + tail);
    assert items + [] == items;
  }

  lemma WireCons(it: Item, items: seq<Item>)
    requires ValidItem(it) && ValidItems(items)
    ensures ValidItems([it] + items) && Wire([it] + items) == WireItem(it) + Wire(items)
  {
    hide WireItem, ValidItem;
    assert ([it] + items)[1..] == items;
  }

  lemma PrefixCons(a: seq<byte>, b: seq<byte>, rest: seq<byte>)
    requires b + [END] <= rest
    ensures a + b + [END] <= a + rest
  {
    assert a + b + [END] == a + (b + [END]);
  }

  /** Only END-terminated, in-bounds streams split. */
  lemma {:induction false} SplitSound(b: seq<byte>)
    requires Split(b).Some?
    ensures Wire(Split(b).value) + [END] <= b
    decreases |b|
  {
    if b[0] == END {
      assert Wire([]) + [END] == [END];
    } else {
      var size: int := if b[0] == PAD then -1 else b[1];
      var n := 2 + size;
      var it := if b[0] == PAD then Pad else Item(b[0], b[2..n]);
      assert b == WireItem(it) + b[n..];
      SplitSound(b[n..]);
      var items := Split(b[n..]).value;
      assert Split(b).value == [it] + items;
      hide Split, WireItem, Wire;
      WireCons(it, items);
      PrefixCons(WireItem(it), Wire(items), b[n..]);
    }
  }

  // ---- What the options say ----

  datatype Fields = Fields(kind: byte, requested: Option<seq<byte>>, server: Option<seq<byte>>, client: Option<seq<byte>>)

  const NO_FIELDS := Fields(0, None, None, None)

  /** One option read into the fields; nothing when it is malformed, repeated or unsupported. */
  function Take(o: Fields, it: Item): Option<Fields> {
    match it
    case Pad => Some(o)
    case Item(code, data) =>
      if code == MESSAGE_TYPE then
        if |data| != 1 || o.kind != 0 || data[0] == 0 then None else Some(o.(kind := data[0]))
      else if code == REQUESTED then
        if |data| != 4 || o.requested.Some? then None else Some(o.(requested := Some(data)))
      else if code == SERVER then
        if |data| != 4 || o.server.Some? then None else Some(o.(server := Some(data)))
      else if code == CLIENT then
        if |data| < 2 || |data| > CLIENT_ID_MAX || o.client.Some? then None else Some(o.(client := Some(data)))
      else if code == OVERLOAD then None
      else Some(o)
  }

  function Fold(items: seq<Item>): Option<Fields> {
    if items == [] then Some(NO_FIELDS)
    else
      match Fold(items[..|items| - 1])
      case None => None
      case Some(o) => Take(o, items[|items| - 1])
  }

  /** parse_options(): the fields of an acceptable datagram that carries a message type. */
  function Parse(p: seq<byte>): Option<Fields> {
    if |p| < OPTIONS then None
    else
      match Split(p[OPTIONS..])
      case None => None
      case Some(items) =>
        match Fold(items) case None => None case Some(o) => if o.kind != 0 then Some(o) else None
  }

  // ---- An independent reading: a set of items ----

  predicate Recognised(code: byte) {
    code == MESSAGE_TYPE || code == REQUESTED || code == SERVER || code == CLIENT
  }

  predicate GoodItem(it: Item) {
    it.Item? ==>
      && it.code != OVERLOAD
      && (it.code == MESSAGE_TYPE ==> |it.data| == 1 && it.data[0] != 0)
      && (it.code == REQUESTED || it.code == SERVER ==> |it.data| == 4)
      && (it.code == CLIENT ==> 2 <= |it.data| <= CLIENT_ID_MAX)
  }

  predicate Clash(a: Item, b: Item) {
    a.Item? && b.Item? && a.code == b.code && Recognised(a.code)
  }

  predicate Distinct(items: seq<Item>) {
    forall i, j :: 0 <= i < j < |items| ==> !Clash(items[i], items[j])
  }

  predicate Acceptable(items: seq<Item>) {
    (forall i :: 0 <= i < |items| ==> GoodItem(items[i])) && Distinct(items)
  }

  predicate Carries(items: seq<Item>, code: byte, value: Option<seq<byte>>) {
    match value
    case None => forall i :: 0 <= i < |items| ==> !(items[i].Item? && items[i].code == code)
    case Some(data) => Item(code, data) in items
  }

  /** Each field is what the items carry. */
  predicate Describes(o: Fields, items: seq<Item>) {
    && Carries(items, MESSAGE_TYPE, if o.kind == 0 then None else Some([o.kind]))
    && Carries(items, REQUESTED, o.requested) && Carries(items, SERVER, o.server) && Carries(items, CLIENT, o.client)
  }

  lemma CarriesSnoc(items: seq<Item>, it: Item, code: byte, value: Option<seq<byte>>)
    requires Carries(items, code, value)
    ensures !(it.Item? && it.code == code) ==> Carries(items + [it], code, value)
    ensures it.Item? && it.code == code ==> Carries(items + [it], code, Some(it.data))
    ensures it.Item? && it.code == code && value.Some? && Recognised(code) ==> !Distinct(items + [it])
  {
    var all := items + [it];
    assert all[|items|] == it;
    if value.Some? {
      var i :| 0 <= i < |items| && items[i] == Item(code, value.value);
      assert all[i] == items[i];
    }
  }

  lemma DistinctSnoc(items: seq<Item>, it: Item)
    ensures Distinct(items + [it]) ==> Distinct(items)
    ensures Distinct(items) && !Distinct(items + [it]) ==> exists i :: 0 <= i < |items| && Clash(items[i], it)
  {
    var all := items + [it];
    assert forall i :: 0 <= i < |items| ==> all[i] == items[i];
  }

  /** The parser's running state accepts exactly the acceptable streams and holds what they carry. */
  lemma {:induction false} FoldIff(items: seq<Item>)
    ensures Fold(items).Some? <==> Acceptable(items)
    ensures Fold(items).Some? ==> Describes(Fold(items).value, items)
    decreases |items|
  {
    if items != [] {
      var n := |items| - 1;
      var init, it := items[..n], items[n];
      assert items == init + [it];
      FoldIff(init);
      DistinctSnoc(init, it);
      GoodSnoc(init, it);
      if Fold(init).Some? {
        TakeIff(init, it, Fold(init).value);
      }
    }
  }

  lemma GoodSnoc(items: seq<Item>, it: Item)
    ensures Acceptable(items + [it]) ==> Acceptable(items) && GoodItem(it)
    ensures Acceptable(items) && GoodItem(it) && Distinct(items + [it]) ==> Acceptable(items + [it])
  {
    var all := items + [it];
    DistinctSnoc(items, it);
    assert all[|items|] == it;
    assert forall i :: 0 <= i < |items| ==> all[i] == items[i];
  }

  lemma TakeIff(items: seq<Item>, it: Item, o: Fields)
    requires Acceptable(items) && Describes(o, items)
    ensures Take(o, it).Some? <==> GoodItem(it) && Distinct(items + [it])
    ensures Take(o, it).Some? ==> Describes(Take(o, it).value, items + [it])
  {
    hide Distinct;
    var kind := if o.kind == 0 then None else Some([o.kind]);
    CarriesSnoc(items, it, MESSAGE_TYPE, kind);
    CarriesSnoc(items, it, REQUESTED, o.requested);
    CarriesSnoc(items, it, SERVER, o.server);
    CarriesSnoc(items, it, CLIENT, o.client);
    DistinctSnoc(items, it);
    if it.Item? && it.code == MESSAGE_TYPE && |it.data| == 1 {
      assert it.data == [it.data[0]];
    }
  }

  // ---- Order and padding ----

  function Unpadded(items: seq<Item>): seq<Item> {
    if items == [] then []
    else (if items[0].Pad? then [] else [items[0]]) + Unpadded(items[1..])
  }

  lemma {:induction false} UnpaddedHas(items: seq<Item>, it: Item)
    requires it.Item?
    ensures it in Unpadded(items) <==> it in items
    decreases |items|
  {
    if items != [] {
      UnpaddedHas(items[1..], it);
      assert items == [items[0]] + items[1..];
    }
  }

  /** No two clash, counting repeats. */
  predicate Unique(m: multiset<Item>) {
    forall a, b :: a in m && b in m && Clash(a, b) ==> a == b && m[a] == 1
  }

  lemma UniqueCons(it: Item, m: multiset<Item>)
    ensures Unique(multiset{it} + m) <==> Unique(m) && (it.Item? && Recognised(it.code) ==> forall a :: a in m ==> !Clash(it, a))
  {
    var all := multiset{it} + m;
    assert it in all;
    if Unique(all) {
      forall a, b | a in m && b in m && Clash(a, b) ensures a == b && m[a] == 1 {
        assert a in all && b in all;
      }
      forall a | a in m && it.Item? && Recognised(it.code) ensures !Clash(it, a) {
        assert a in all;
      }
    }
  }

  lemma {:induction false} DistinctIff(items: seq<Item>)
    ensures Distinct(items) <==> Unique(multiset(Unpadded(items)))
    decreases |items|
  {
    hide Distinct, Unique, Clash, Recognised;
    if items == [] {
      NoneDistinct();
    } else {
      var it, rest := items[0], items[1..];
      DistinctIff(rest);
      DistinctCons(it, rest);
      assert items == [it] + rest;
      PadClash(it, rest);
      if it.Item? {
        UniqueCons(it, multiset(Unpadded(rest)));
        assert multiset([it] + Unpadded(rest)) == multiset{it} + multiset(Unpadded(rest));
      } else {
        assert [] + Unpadded(rest) == Unpadded(rest);
      }
    }
  }

  lemma NoneDistinct()
    ensures Distinct([]) && Unique(multiset(Unpadded([])))
  {
  }

  lemma PadClash(it: Item, rest: seq<Item>)
    ensures (forall a :: a in rest ==> !Clash(it, a)) <==>
      (it.Item? && Recognised(it.code) ==> forall a :: a in multiset(Unpadded(rest)) ==> !Clash(it, a))
  {
    hide Unpadded;
    forall a: Item | a.Item? ensures a in Unpadded(rest) <==> a in rest {
      UnpaddedHas(rest, a);
    }
    assert forall a: Item :: a in multiset(Unpadded(rest)) <==> a in Unpadded(rest);
  }

  lemma DistinctCons(it: Item, rest: seq<Item>)
    ensures Distinct([it] + rest) <==> Distinct(rest) && forall a :: a in rest ==> !Clash(it, a)
  {
    var all := [it] + rest;
    assert forall i :: 0 <= i < |rest| ==> all[i + 1] == rest[i];
    if Distinct(all) {
      forall i, j | 0 <= i < j < |rest| ensures !Clash(rest[i], rest[j]) {
        assert !Clash(all[i + 1], all[j + 1]);
      }
      forall a | a in rest ensures !Clash(it, a) {
        var i :| 0 <= i < |rest| && rest[i] == a;
        assert !Clash(all[0], all[i + 1]);
      }
    }
    if Distinct(rest) && forall a :: a in rest ==> !Clash(it, a) {
      forall i, j | 0 <= i < j < |all| ensures !Clash(all[i], all[j]) {
        if i > 0 {
          assert !Clash(rest[i - 1], rest[j - 1]);
        }
      }
    }
  }

  /** Streams with the same options, whatever their order and padding, parse alike. */
  lemma OrderAndPadding(a: seq<Item>, b: seq<Item>)
    requires multiset(Unpadded(a)) == multiset(Unpadded(b))
    ensures Fold(a) == Fold(b)
  {
    hide Distinct, Fold;
    FoldIff(a);
    FoldIff(b);
    DistinctIff(a);
    DistinctIff(b);
    SameItems(a, b);
    if Fold(a).Some? && Fold(b).Some? {
      DescribedAlike(a, b, Fold(a).value, Fold(b).value);
    }
  }

  lemma SameItems(a: seq<Item>, b: seq<Item>)
    requires multiset(Unpadded(a)) == multiset(Unpadded(b))
    ensures forall it: Item :: it.Item? ==> (it in a <==> it in b)
    ensures (forall i :: 0 <= i < |a| ==> GoodItem(a[i])) <==> (forall i :: 0 <= i < |b| ==> GoodItem(b[i]))
  {
    forall it: Item | it.Item? ensures it in a <==> it in b {
      UnpaddedHas(a, it);
      UnpaddedHas(b, it);
      assert it in Unpadded(a) <==> it in multiset(Unpadded(a));
      assert it in Unpadded(b) <==> it in multiset(Unpadded(b));
    }
    GoodMembers(a, b);
    GoodMembers(b, a);
  }

  lemma GoodMembers(a: seq<Item>, b: seq<Item>)
    requires forall it: Item :: it.Item? ==> (it in a <==> it in b)
    ensures (forall i :: 0 <= i < |a| ==> GoodItem(a[i])) ==> (forall i :: 0 <= i < |b| ==> GoodItem(b[i]))
  {
    if forall i :: 0 <= i < |a| ==> GoodItem(a[i]) {
      forall i | 0 <= i < |b| ensures GoodItem(b[i]) {
        if b[i].Item? {
          assert b[i] in b;
          var j :| 0 <= j < |a| && a[j] == b[i];
        }
      }
    }
  }

  lemma CarriedAlike(a: seq<Item>, b: seq<Item>, code: byte, v: Option<seq<byte>>, w: Option<seq<byte>>)
    requires forall it: Item :: it.Item? ==> (it in a <==> it in b)
    requires Distinct(a) && Recognised(code) && Carries(a, code, v) && Carries(b, code, w)
    ensures v == w
  {
    hide Distinct;
    if w.Some? {
      assert Item(code, w.value) in a;
      var i :| 0 <= i < |a| && a[i] == Item(code, w.value);
      if v.Some? {
        var j :| 0 <= j < |a| && a[j] == Item(code, v.value);
        NoClash(a, i, j);
      }
    }
  }

  lemma NoClash(a: seq<Item>, i: nat, j: nat)
    requires Distinct(a) && i < |a| && j < |a|
    ensures Clash(a[i], a[j]) ==> i == j
  {
    assert i < j || j < i || i == j;
  }

  lemma DescribedAlike(a: seq<Item>, b: seq<Item>, o: Fields, p: Fields)
    requires forall it: Item :: it.Item? ==> (it in a <==> it in b)
    requires Distinct(a) && Describes(o, a) && Describes(p, b)
    ensures o == p
  {
    hide Distinct, Carries;
    CarriedAlike(a, b, MESSAGE_TYPE, if o.kind == 0 then None else Some([o.kind]), if p.kind == 0 then None else Some([p.kind]));
    CarriedAlike(a, b, REQUESTED, o.requested, p.requested);
    CarriedAlike(a, b, SERVER, o.server, p.server);
    CarriedAlike(a, b, CLIENT, o.client, p.client);
    if o.kind != 0 && p.kind != 0 {
      assert [o.kind][0] == [p.kind][0];
    }
  }

  predicate Typed(items: seq<Item>) {
    exists i :: 0 <= i < |items| && items[i].Item? && items[i].code == MESSAGE_TYPE
  }

  /** Of an END-terminated stream, parse_options() accepts exactly the acceptable ones with a message
      type, and reads what they carry. */
  lemma ParseIff(p: seq<byte>, items: seq<Item>)
    requires |p| >= OPTIONS && ValidItems(items) && Wire(items) + [END] <= p[OPTIONS..]
    ensures Parse(p).Some? <==> Acceptable(items) && Typed(items)
    ensures Parse(p).Some? ==> Describes(Parse(p).value, items)
  {
    hide Wire, ValidItem, Split, Fold, Distinct;
    var b := p[OPTIONS..];
    var tail := b[|Wire(items)| + 1..];
    assert b == Wire(items) + ([END] + tail);
    SplitWire(items, tail);
    FoldIff(items);
    if Fold(items).Some? && Fold(items).value.kind != 0 {
      var i :| 0 <= i < |items| && items[i] == Item(MESSAGE_TYPE, [Fold(items).value.kind]);
      assert items[i].code == MESSAGE_TYPE;
    }
  }

  /** Nothing else is accepted. */
  lemma ParseTerminated(p: seq<byte>)
    requires Parse(p).Some?
    ensures exists items :: ValidItems(items) && Wire(items) + [END] <= p[OPTIONS..] && Acceptable(items) && Typed(items)
  {
    hide Wire, ValidItem, Distinct, Acceptable;
    SplitSound(p[OPTIONS..]);
    ParseIff(p, Split(p[OPTIONS..]).value);
  }

  // ---- The parser's loop ----

  lemma {:induction false} FoldStops(items: seq<Item>, more: seq<Item>)
    requires Fold(items).None?
    ensures Fold(items + more).None?
    decreases |more|
  {
    if more == [] {
      assert items + more == items;
    } else {
      var n := |more| - 1;
      FoldStops(items, more[..n]);
      assert (items + more)[..|items + more| - 1] == items + more[..n];
    }
  }

  /** After whole items `done`, the rest of the stream decides what the whole stream gives. */
  lemma ParseFrom(p: seq<byte>, i: nat, done: seq<Item>)
    requires OPTIONS <= i <= |p| && ValidItems(done) && p[OPTIONS..i] == Wire(done)
    ensures Split(p[OPTIONS..]) == match Split(p[i..]) case None => None case Some(more) => Some(done + more)
  {
    hide Split, Wire;
    SplitAppend(done, p[i..]);
    assert p[OPTIONS..] == p[OPTIONS..i] + p[i..];
  }

  lemma ParseStep(p: seq<byte>, i: nat, done: seq<Item>, it: Item, j: nat)
    requires OPTIONS <= i < j <= |p| && ValidItems(done) && p[OPTIONS..i] == Wire(done)
    requires ValidItem(it) && p[i..j] == WireItem(it)
    ensures ValidItems(done + [it]) && p[OPTIONS..j] == Wire(done + [it])
  {
    hide WireItem, ValidItem;
    WireSnoc(done, it);
    assert p[OPTIONS..j] == p[OPTIONS..i] + p[i..j];
  }

  lemma {:induction false} WireSnoc(items: seq<Item>, it: Item)
    requires ValidItems(items) && ValidItem(it)
    ensures ValidItems(items + [it]) && Wire(items + [it]) == Wire(items) + WireItem(it)
    decreases |items|
  {
    hide WireItem, ValidItem;
    if items == [] {
      assert items + [it] == [it] && [it][1..] == [];
      assert Wire([it]) == WireItem(it) + Wire([]);
    } else {
      WireSnoc(items[1..], it);
      assert (items + [it])[1..] == items[1..] + [it];
    }
  }

  lemma {:induction false} WireAppend(a: seq<Item>, b: seq<Item>)
    requires ValidItems(a) && ValidItems(b)
    ensures ValidItems(a + b) && Wire(a + b) == Wire(a) + Wire(b)
    decreases |b|
  {
    hide WireItem, ValidItem, Wire;
    if b == [] {
      assert a + b == a;
      NothingRead([]);
    } else {
      var n := |b| - 1;
      WireAppend(a, b[..n]);
      WireSnoc(a + b[..n], b[n]);
      WireSnoc(b[..n], b[n]);
      assert a + b == a + b[..n] + [b[n]] && b[..n] + [b[n]] == b;
      assert Wire(a) + Wire(b[..n]) + WireItem(b[n]) == Wire(a) + (Wire(b[..n]) + WireItem(b[n]));
    }
  }

  lemma FoldSnoc(items: seq<Item>, it: Item)
    ensures Fold(items + [it]) == match Fold(items) case None => None case Some(o) => Take(o, it)
  {
    hide Take;
    assert (items + [it])[..|items|] == items;
  }

  lemma ParseFails(p: seq<byte>, i: nat, done: seq<Item>)
    requires OPTIONS <= i <= |p| && ValidItems(done) && p[OPTIONS..i] == Wire(done)
    requires Fold(done).None? || Split(p[i..]).None?
    ensures Parse(p).None?
  {
    hide Fold, Split, Wire;
    ParseFrom(p, i, done);
    if Fold(done).None? && Split(p[i..]).Some? {
      FoldStops(done, Split(p[i..]).value);
    }
  }

  lemma ParseEnds(p: seq<byte>, i: nat, done: seq<Item>)
    requires OPTIONS <= i < |p| && p[i] == END && ValidItems(done) && p[OPTIONS..i] == Wire(done)
    ensures Parse(p) == match Fold(done) case None => None case Some(o) => if o.kind != 0 then Some(o) else None
  {
    hide Fold, Wire;
    ParseFrom(p, i, done);
    assert done + [] == done;
  }

  /** The items before position i are `done`, and the fields hold what they say. */
  ghost predicate ReadUpTo(p: seq<byte>, i: nat, done: seq<Item>, o: Fields) {
    OPTIONS <= i <= |p| && ValidItems(done) && p[OPTIONS..i] == Wire(done) && Fold(done) == Some(o)
  }

  lemma ReadNothing(p: seq<byte>)
    requires |p| >= OPTIONS
    ensures ReadUpTo(p, OPTIONS, [], NO_FIELDS)
  {
  }

  lemma ReadPad(p: seq<byte>, i: nat, done: seq<Item>, o: Fields)
    requires ReadUpTo(p, i, done, o) && i < |p| && p[i] == PAD
    ensures ReadUpTo(p, i + 1, done + [Pad], o)
  {
    hide Fold, Wire;
    ParseStep(p, i, done, Pad, i + 1);
    FoldSnoc(done, Pad);
  }

  lemma ReadItem(p: seq<byte>, i: nat, done: seq<Item>, o: Fields)
    requires ReadUpTo(p, i, done, o) && i + 1 < |p| && p[i] != PAD && p[i] != END && p[i + 1] <= |p| - (i + 2)
    ensures var it := Item(p[i], p[i + 2..i + 2 + p[i + 1]]);
      && (Take(o, it).Some? ==> ReadUpTo(p, i + 2 + p[i + 1], done + [it], Take(o, it).value))
      && (Take(o, it).None? ==> Parse(p).None?)
  {
    hide Fold, Wire, Take, Parse;
    var n := p[i + 1];
    var it := Item(p[i], p[i + 2..i + 2 + n]);
    assert p[i..i + 2 + n] == WireItem(it);
    ParseStep(p, i, done, it, i + 2 + n);
    FoldSnoc(done, it);
    if Take(o, it).None? {
      ParseFails(p, i + 2 + n, done + [it]);
    }
  }

  lemma ReadShort(p: seq<byte>, i: nat, done: seq<Item>, o: Fields)
    requires ReadUpTo(p, i, done, o)
    requires i == |p| || (p[i] != PAD && p[i] != END && (i + 1 == |p| || p[i + 1] > |p| - (i + 2)))
    ensures Parse(p).None?
  {
    hide Fold, Wire, Parse;
    ParseFails(p, i, done);
  }

  /** The switch of parse_options(): each field at most once, each with its own size. */
  method ReadField(o: Fields, code: byte, data: seq<byte>) returns (ok: bool, next: Fields)
    ensures ok <==> Take(o, Item(code, data)).Some?
    ensures ok ==> next == Take(o, Item(code, data)).value
  {
    next := o;
    match code {
      case 53 =>
        if |data| != 1 || o.kind != 0 || data[0] == 0 {
          return false, o;
        }
        next := next.(kind := data[0]);
      case 50 =>
        if |data| != 4 || o.requested.Some? {
          return false, o;
        }
        next := next.(requested := Some(data));
      case 54 =>
        if |data| != 4 || o.server.Some? {
          return false, o;
        }
        next := next.(server := Some(data));
      case 61 =>
        if |data| < 2 || |data| > CLIENT_ID_MAX || o.client.Some? {
          return false, o;
        }
        next := next.(client := Some(data));
      case 52 => return false, o;
      case _ =>
    }
    return true, next;
  }

  /** parse_options() as the firmware runs it. */
  method ParseOptions(p: seq<byte>) returns (ok: bool, o: Fields)
    ensures ok <==> Parse(p).Some?
    ensures ok ==> o == Parse(p).value
  {
    hide Take, ReadUpTo, Fold, Wire, Split;
    o := NO_FIELDS;
    if |p| < OPTIONS {
      return false, o;
    }
    hide Parse;
    var i := OPTIONS;
    ghost var done: seq<Item> := [];
    ReadNothing(p);
    while i < |p|
      invariant OPTIONS <= i <= |p| && ReadUpTo(p, i, done, o)
      decreases |p| - i
    {
      var code := p[i];
      if code == PAD {
        ReadPad(p, i, done, o);
        done, i := done + [Pad], i + 1;
      } else if code == END {
        ReadEnd(p, i, done, o);
        return o.kind != 0, o;
      } else if i + 1 == |p| || p[i + 1] > |p| - (i + 2) {
        ReadShort(p, i, done, o);
        return false, o;
      } else {
        ReadItem(p, i, done, o);
        var n := p[i + 1];
        var it := Item(code, p[i + 2..i + 2 + n]);
        var fine, next := ReadField(o, code, it.data);
        if !fine {
          return false, o;
        }
        done, i, o := done + [it], i + 2 + n, next;
      }
    }
    ReadShort(p, i, done, o);
    return false, o;
  }

  lemma ReadEnd(p: seq<byte>, i: nat, done: seq<Item>, o: Fields)
    requires ReadUpTo(p, i, done, o) && i < |p| && p[i] == END
    ensures Parse(p) == if o.kind != 0 then Some(o) else None
  {
    hide Fold, Wire, Parse;
    ParseEnds(p, i, done);
  }

  lemma NothingRead(p: seq<byte>)
    ensures Fold([]) == Some(NO_FIELDS) && Wire([]) == []
    ensures |p| >= OPTIONS ==> p[OPTIONS..OPTIONS] == []
  {
  }
}
