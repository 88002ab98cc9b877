/**
 The DHCP lease server: eight addresses, offers, bindings, quarantine and
 expiry, and the replies it builds (RFC 2131 section 4.3, RFC 2132).
 */
module Dhcp {
  import opened Bytes
  import opened DhcpOptions

  const BASE_IP := 16
  const SLOTS := 8
  const LEASE_MS := 600000
  const OFFER_MS := 30000
  const DECLINE_MS := 60000
  const MIN_REPLY := 300

  const DISCOVER: byte := 1
  const OFFER: byte := 2
  const REQUEST: byte := 3
  const DECLINE: byte := 4
  const ACK: byte := 5
  const NAK: byte := 6
  const RELEASE: byte := 7
  const INFORM: byte := 8

  const COOKIE: seq<byte> := [99, 130, 83, 99]
  const NO_ADDRESS: seq<byte> := [0, 0, 0, 0]
  const MASK: seq<byte> := [255, 255, 255, 0]

  type Address = a: seq<byte> | |a| == 4 witness [0, 0, 0, 0]

  // ---- State ----

  /** A client identifier option, or else the hardware address. */
  datatype Client = Client(key: seq<byte>, hasId: bool)

  datatype Stage = Offered | Bound | Declined

  datatype Lease = Free | Held(stage: Stage, client: Client, since: nat, duration: nat)

  type Leases = s: seq<Lease> | |s| == SLOTS witness seq(SLOTS, _ => Free)

  predicate Live(l: Lease, c: Client) {
    l.Held? && !l.stage.Declined? && l.client == c
  }

  predicate Expired(l: Lease, now: nat) {
    l.Held? && now - l.since >= l.duration
  }

  function Swept(leases: Leases, now: nat): Leases {
    seq(SLOTS, i requires 0 <= i < SLOTS => if Expired(leases[i], now) then Free else leases[i])
  }

  /** The last slot this client holds, -1 when none. */
  function OwnedIn(leases: seq<Lease>, c: Client): (i: int)
    ensures -1 <= i < |leases|
    ensures i >= 0 ==> Live(leases[i], c)
    ensures i < 0 ==> forall k :: 0 <= k < |leases| ==> !Live(leases[k], c)
  {
    if leases == [] then -1
    else
      var n := |leases| - 1;
      if Live(leases[n], c) then n else OwnedIn(leases[..n], c)
  }

  /** The first free slot, -1 when none. */
  function FreeIn(leases: seq<Lease>): (i: int)
    ensures -1 <= i < |leases|
    ensures i >= 0 ==> leases[i].Free? && forall k :: 0 <= k < i ==> !leases[k].Free?
    ensures i < 0 ==> forall k :: 0 <= k < |leases| ==> !leases[k].Free?
  {
    if leases == [] then -1
    else
      var n := |leases| - 1;
      var i := FreeIn(leases[..n]);
      if i >= 0 then i else if leases[n].Free? then n else -1
  }

  // ---- Datagrams ----

  datatype Datagram = Datagram(bytes: seq<byte>, port: nat, copied: bool)

  predicate Zero(b: seq<byte>) {
    forall i :: 0 <= i < |b| ==> b[i] == 0
  }

  predicate WellFormed(d: Datagram) {
    && d.port == 68 && OPTIONS + 4 <= |d.bytes| <= MAX_PACKET && d.copied
    && d.bytes[..4] == [1, 1, 6, 0] && Zero(d.bytes[24..28]) && !Zero(d.bytes[28..34]) && d.bytes[28] % 2 == 0
    && d.bytes[236..240] == COOKIE
  }

  function ClientOf(p: seq<byte>, o: Fields): Client
    requires |p| >= OPTIONS
  {
    if o.client.Some? then Client(o.client.value, true) else Client(p[28..34], false)
  }

  /** The slot of an address of this network, -1 when it has none. */
  function SlotOf(ip: Address, a: seq<byte>): (i: int)
    ensures -1 <= i < SLOTS
  {
    if |a| != 4 || a[..3] != ip[..3] || a[3] < BASE_IP || a[3] >= BASE_IP + SLOTS then -1 else a[3] - BASE_IP
  }

  function AddressOf(ip: Address, slot: int): Address
    requires 0 <= slot < SLOTS
  {
    ip[..3] + [BASE_IP + slot]
  }

  // ---- Decisions ----

  type MaybeSlot = i: int | -1 <= i < SLOTS witness -1

  datatype Decision = Ignore | Answer(response: byte, chosen: MaybeSlot) | Freeing | Quarantine

  function DecideDiscover(owned: MaybeSlot, free: MaybeSlot, ciaddr: seq<byte>, o: Fields): Decision {
    if !Zero(ciaddr) || o.server.Some? then Ignore
    else
      var chosen := if owned >= 0 then owned else free;
      if chosen < 0 then Ignore else Answer(OFFER, chosen)
  }

  function DecideRequest(ip: Address, owned: MaybeSlot, ciaddr: seq<byte>, o: Fields): Decision {
    if o.requested.Some? && !Zero(ciaddr) then Ignore
    else if o.server.Some? && o.requested.None? then Ignore
    else
      var wanted := if o.requested.Some? then o.requested.value else ciaddr;
      if Zero(wanted) then Ignore
      else
        var chosen := SlotOf(ip, wanted);
        if chosen < 0 || (owned >= 0 && chosen != owned) then Answer(NAK, chosen)
        else if chosen != owned then (if o.server.None? then Ignore else Answer(NAK, chosen))
        else Answer(ACK, chosen)
  }

  /** What receive() does about a message, given the client's slot and the first free one. */
  function Decide(ip: Address, owned: MaybeSlot, free: MaybeSlot, ciaddr: seq<byte>, o: Fields): (d: Decision)
    ensures d.Freeing? || d.Quarantine? ==> owned >= 0
    ensures d.Answer? && d.response != NAK && d.chosen >= 0 ==> d.chosen == owned || (owned < 0 && d.chosen == free && d.response == OFFER)
  {
    if o.kind == DISCOVER then DecideDiscover(owned, free, ciaddr, o)
    else if o.kind == REQUEST then DecideRequest(ip, owned, ciaddr, o)
    else if o.kind == RELEASE then
      if o.server.None? || o.requested.Some? || owned < 0 || SlotOf(ip, ciaddr) != owned then Ignore else Freeing
    else if o.kind == DECLINE then
      if o.server.None? || o.requested.None? || owned < 0 || SlotOf(ip, o.requested.value) != owned then Ignore
      else Quarantine
    else if o.kind == INFORM then
      if o.requested.Some? || Zero(ciaddr) || ciaddr[..Min(3, |ciaddr|)] != ip[..3] then Ignore else Answer(ACK, -1)
    else Ignore
  }

  // ---- Replies ----

  /** Lease time, renewal time and rebinding time in seconds. */
  function LeaseItems(): seq<Item> {
    [Item(51, Be32(LEASE_MS / 1000)), Item(58, Be32(LEASE_MS / 2000)), Item(59, Be32(LEASE_MS / 1000 * 7 / 8))]
  }

  function ReplyItems(ip: Address, response: byte, granted: bool, client: Option<seq<byte>>): seq<Item> {
    [Item(MESSAGE_TYPE, [response]), Item(SERVER, ip)] + Settings(response, granted) +
    (if client.Some? then [Item(CLIENT, client.value)] else [])
  }

  function Settings(response: byte, granted: bool): seq<Item> {
    if response == NAK then [] else [Item(1, MASK)] + (if granted then LeaseItems() else [])
  }

  function ReplyHeader(ip: Address, p: seq<byte>, response: byte, chosen: int): (h: seq<byte>)
    requires |p| >= OPTIONS && chosen < SLOTS
    ensures |h| == OPTIONS
  {
    [2, 1, 6, 0] + p[4..8] + [0, 0] + p[10..12] +
    (if response != NAK then p[12..16] else NO_ADDRESS) +
    (if response != NAK && chosen >= 0 then AddressOf(ip, chosen) else NO_ADDRESS) +
    Fill(8, 0) + p[28..44] + Fill(192, 0) + COOKIE
  }

  predicate ClientFits(client: Option<seq<byte>>) {
    client.Some? ==> 2 <= |client.value| <= CLIENT_ID_MAX
  }

  function Reply(ip: Address, p: seq<byte>, response: byte, chosen: int, client: Option<seq<byte>>): seq<byte>
    requires |p| >= OPTIONS && chosen < SLOTS && ClientFits(client)
  {
    ItemsValid(ip, response, chosen >= 0, client);
    var b := ReplyHeader(ip, p, response, chosen) + Wire(ReplyItems(ip, response, chosen >= 0, client)) + [END];
    b + Fill(Max(0, MIN_REPLY - |b|), 0)
  }

  lemma ItemsValid(ip: Address, response: byte, granted: bool, client: Option<seq<byte>>)
    requires ClientFits(client)
    ensures ValidItems(ReplyItems(ip, response, granted, client))
  {
  }

  /** Router, DNS, static route and classless route options. */
  predicate Routing(code: byte) {
    code == 3 || code == 6 || code == 33 || code == 121 || code == 249
  }

  predicate Plain(it: Item) {
    it.Item? && !Recognised(it.code) && it.code != OVERLOAD && !Routing(it.code)
  }

  lemma {:induction false} FoldPlain(items: seq<Item>, more: seq<Item>)
    requires forall i :: 0 <= i < |more| ==> Plain(more[i])
    ensures Fold(items + more) == Fold(items)
    decreases |more|
  {
    hide Fold;
    if more == [] {
      assert items + more == items;
    } else {
      var n := |more| - 1;
      FoldPlain(items, more[..n]);
      FoldSnoc(items + more[..n], more[n]);
      assert items + more[..n] + [more[n]] == items + more;
    }
  }

  lemma SettingsPlain(response: byte, granted: bool)
    ensures forall i :: 0 <= i < |Settings(response, granted)| ==> Plain(Settings(response, granted)[i])
  {
    hide Be32;
  }

  lemma OpeningMeans(ip: Address, response: byte)
    requires response != 0
    ensures Fold([Item(MESSAGE_TYPE, [response]), Item(SERVER, ip)]) == Some(Fields(response, None, Some(ip), None))
  {
    hide Fold;
    var a, b := Item(MESSAGE_TYPE, [response]), Item(SERVER, ip);
    NothingRead([]);
    FoldSnoc([], a);
    FoldSnoc([a], b);
    assert [] + [a] == [a] && [a] + [b] == [a, b];
  }

  /** The options of a reply say its type, this server and the client's own identifier, and route nothing. */
  lemma ItemsMean(ip: Address, response: byte, granted: bool, client: Option<seq<byte>>)
    requires ClientFits(client) && response != 0
    ensures var items := ReplyItems(ip, response, granted, client);
      && Fold(items) == Some(Fields(response, None, Some(ip), client))
      && (forall i :: 0 <= i < |items| ==> items[i].Item? && !Routing(items[i].code))
  {
    hide Fold, Settings;
    var head := [Item(MESSAGE_TYPE, [response]), Item(SERVER, ip)];
    var rest := Settings(response, granted);
    OpeningMeans(ip, response);
    SettingsPlain(response, granted);
    FoldPlain(head, rest);
    if client.Some? {
      FoldSnoc(head + rest, Item(CLIENT, client.value));
    } else {
      assert head + rest + [] == head + rest;
    }
  }

  lemma WireOne(it: Item)
    requires ValidItem(it) && it.Item?
    ensures ValidItems([it]) && |Wire([it])| == 2 + |it.data|
  {
    assert [it][1..] == [];
  }

  lemma SettingsSize(response: byte, granted: bool)
    ensures ValidItems(Settings(response, granted)) && |Wire(Settings(response, granted))| <= 24
  {
    hide Be32, Wire;
    NothingRead([]);
    var a, b, c, d := Item(1, MASK), LeaseItems()[0], LeaseItems()[1], LeaseItems()[2];
    WireOne(a);
    WireOne(b);
    WireOne(c);
    WireOne(d);
    WireAppend([a], [b]);
    WireAppend([a] + [b], [c]);
    WireAppend([a] + [b] + [c], [d]);
    assert [a] + LeaseItems() == [a] + [b] + [c] + [d] && [a] + [] == [a];
  }

  lemma ItemsSize(ip: Address, response: byte, granted: bool, client: Option<seq<byte>>)
    requires ClientFits(client)
    ensures ValidItems(ReplyItems(ip, response, granted, client))
    ensures |Wire(ReplyItems(ip, response, granted, client))| <= 67
  {
    hide Wire, Settings;
    var a, b := Item(MESSAGE_TYPE, [response]), Item(SERVER, ip);
    WireOne(a);
    WireOne(b);
    WireAppend([a], [b]);
    assert [a] + [b] == [a, b];
    SettingsSize(response, granted);
    var rest := Settings(response, granted);
    WireAppend([a, b], rest);
    if client.Some? {
      WireOne(Item(CLIENT, client.value));
      WireAppend([a, b] + rest, [Item(CLIENT, client.value)]);
    } else {
      assert [a, b] + rest + [] == [a, b] + rest;
    }
  }

  /** Every reply fits a minimal DHCP datagram and parses back to its own type, server and client. */
  lemma ReplyParses(ip: Address, p: seq<byte>, response: byte, chosen: int, client: Option<seq<byte>>)
    requires |p| >= OPTIONS && chosen < SLOTS && ClientFits(client) && response != 0
    ensures var r := Reply(ip, p, response, chosen, client);
      && MIN_REPLY <= |r| <= MAX_PACKET
      && Parse(r) == Some(Fields(response, None, Some(ip), client))
      && Split(r[OPTIONS..]) == Some(ReplyItems(ip, response, chosen >= 0, client))
  {
    hide Wire, ReplyItems, ReplyHeader, Split, Fold;
    var items := ReplyItems(ip, response, chosen >= 0, client);
    ItemsSize(ip, response, chosen >= 0, client);
    ItemsMean(ip, response, chosen >= 0, client);
    var h := ReplyHeader(ip, p, response, chosen);
    var b := h + Wire(items) + [END];
    var pad := Fill(Max(0, MIN_REPLY - |b|), 0);
    SplitWire(items, pad);
    var r := Reply(ip, p, response, chosen, client);
    assert r[OPTIONS..] == Wire(items) + ([END] + pad);
  }

  /** A granting reply names its slot's address, echoes the transaction and the hardware address. */
  lemma ReplyAddresses(ip: Address, p: seq<byte>, response: byte, chosen: int, client: Option<seq<byte>>)
    requires |p| >= OPTIONS && chosen < SLOTS && ClientFits(client)
    ensures var r := Reply(ip, p, response, chosen, client);
      && |r| >= OPTIONS && r[0] == 2 && r[4..8] == p[4..8] && r[28..44] == p[28..44] && r[236..240] == COOKIE
      && r[16..20] == (if response != NAK && chosen >= 0 then AddressOf(ip, chosen) else NO_ADDRESS)
      && (chosen >= 0 && response != NAK ==> SlotOf(ip, r[16..20]) == chosen)
  {
    hide Wire, ReplyItems;
    ItemsSize(ip, response, chosen >= 0, client);
    var h := ReplyHeader(ip, p, response, chosen);
    var r := Reply(ip, p, response, chosen, client);
    assert r[..OPTIONS] == h;
    assert r[4..8] == h[4..8] == p[4..8];
    assert r[28..44] == h[28..44] == p[28..44];
    assert r[16..20] == h[16..20];
    assert r[236..240] == h[236..240] == COOKIE;
  }

  // ---- The server ----

  datatype Server = Server(ip: Address, leases: Leases)

  /** What leaves the server's hands: addresses given, and addresses given back. */
  datatype Event =
    | Gave(slot: int, client: Client, bound: bool, at: nat, until: nat) // `until`: when the table lets go of it
    | Freed(slot: int, client: Client, at: nat)
    | Quarantined(slot: int, client: Client, at: nat)

  datatype Output = Nothing | Sent(reply: seq<byte>, destination: seq<byte>)

  /** The lease table after a reply that grants slot `chosen` was sent. */
  function Committed(leases: Leases, chosen: int, response: byte, c: Client, now: nat): Leases
    requires 0 <= chosen < SLOTS
  {
    if response == OFFER && leases[chosen].Held? && leases[chosen].stage.Bound? then leases
    else if response == OFFER then leases[chosen := Held(Offered, c, now, OFFER_MS)]
    else leases[chosen := Held(Bound, c, now, LEASE_MS)]
  }

  /** When sweeping frees this slot. */
  function Until(l: Lease): nat {
    if l.Held? then l.since + l.duration else 0
  }

  function Destination(response: byte, ciaddr: seq<byte>): seq<byte> {
    if response != NAK && !Zero(ciaddr) then ciaddr else [255, 255, 255, 255]
  }

  /** receive() from the point where the lease table has been swept. */
  function Answered(ip: Address, leases: Leases, p: seq<byte>, o: Fields, now: nat, sent: bool):
      (Server, Output, seq<Event>)
    requires |p| >= OPTIONS && ClientFits(o.client)
  {
    var c := ClientOf(p, o);
    var owned := OwnedIn(leases, c);
    match Decide(ip, owned, FreeIn(leases), p[12..16], o)
    case Ignore => (Server(ip, leases), Nothing, [])
    case Freeing => (Server(ip, leases[owned := Free]), Nothing, [Freed(owned, c, now)])
    case Quarantine =>
      (Server(ip, leases[owned := leases[owned].(stage := Declined, since := now, duration := DECLINE_MS)]),
       Nothing, [Quarantined(owned, c, now)])
    case Answer(r, chosen) =>
      if !sent then (Server(ip, leases), Nothing, [])
      else
        var out := Sent(Reply(ip, p, r, chosen, o.client), Destination(r, p[12..16]));
        if chosen >= 0 && r != NAK then
          var table := Committed(leases, chosen, r, c, now);
          (Server(ip, table), out, [Gave(chosen, c, r == ACK, now, Until(table[chosen]))])
        else (Server(ip, leases), out, [])
  }

  lemma ParsedClient(p: seq<byte>)
    ensures Parse(p).Some? ==> ClientFits(Parse(p).value.client)
  {
    hide Split, Fold;
    if Parse(p).Some? {
      var items := Split(p[OPTIONS..]).value;
      FoldIff(items);
      var client := Parse(p).value.client;
      if client.Some? {
        var i :| 0 <= i < |items| && items[i] == Item(CLIENT, client.value);
        assert GoodItem(items[i]);
      }
    }
  }

  /** receive(). */
  function Received(s: Server, d: Datagram, now: nat, sent: bool): (Server, Output, seq<Event>) {
    if !WellFormed(d) || Parse(d.bytes).None? then (s, Nothing, [])
    else
      var o := Parse(d.bytes).value;
      if o.server.Some? && o.server.value != s.ip then (s, Nothing, [])
      else ParsedClient(d.bytes); Answered(s.ip, Swept(s.leases, now), d.bytes, o, now, sent)
  }

  /** firmingo_dhcp_init(): only a /24 network whose server address is outside the pool is served. */
  function Init(ip: Address, mask: Address): (r: Option<Server>)
    ensures r.Some? <==>
      && mask == MASK && ip != ip[..3] + [0] && ip != ip[..3] + [255]
      && forall k :: 0 <= k < SLOTS ==> AddressOf(ip, k) != ip
    ensures r.Some? ==> r.value.ip == ip && forall k :: 0 <= k < SLOTS ==> r.value.leases[k].Free?
  {
    assert ip == ip[..3] + [ip[3]];
    assert forall k :: 0 <= k < SLOTS ==> AddressOf(ip, k)[3] == BASE_IP + k;
    assert BASE_IP <= ip[3] < BASE_IP + SLOTS ==> AddressOf(ip, ip[3] - BASE_IP) == ip;
    if mask != MASK || ip[3] == 0 || ip[3] == 255 || BASE_IP <= ip[3] < BASE_IP + SLOTS then None
    else Some(Server(ip, seq(SLOTS, _ => Free)))
  }

  /** A reply that was sent names an address exactly when a grant of that slot is recorded, to the asking
      client, as an offer or as a binding; everything else records no grant. */
  lemma GrantsAreReplies(s: Server, d: Datagram, now: nat, sent: bool)
    ensures var (s', out, events) := Received(s, d, now, sent);
      && s'.ip == s.ip && |events| <= 1
      && (events != [] && events[0].Gave? <==> out.Sent? && |out.reply| >= OPTIONS && out.reply[16..20] != NO_ADDRESS)
      && (events != [] && events[0].Gave? ==>
            var e := events[0]; var reply := out.reply;
            && sent && WellFormed(d) && Parse(d.bytes).Some? && e.client == ClientOf(d.bytes, Parse(d.bytes).value)
            && SlotOf(s.ip, reply[16..20]) == e.slot && Parse(reply).Some?
            && Parse(reply).value.kind == (if e.bound then ACK else OFFER) && reply[4..8] == d.bytes[4..8])
  {
    hide Parse, Reply, Swept, OwnedIn, FreeIn, Committed;
    if WellFormed(d) && Parse(d.bytes).Some? {
      ParsedClient(d.bytes);
      var o, p := Parse(d.bytes).value, d.bytes;
      var leases := Swept(s.leases, now);
      var c := ClientOf(p, o);
      var e := Decide(s.ip, OwnedIn(leases, c), FreeIn(leases), p[12..16], o);
      if e.Answer? {
        DecisionTypes(s.ip, OwnedIn(leases, c), FreeIn(leases), p[12..16], o);
        ReplyAddresses(s.ip, p, e.response, e.chosen, o.client);
        ReplyParses(s.ip, p, e.response, e.chosen, o.client);
        if e.chosen >= 0 {
          assert AddressOf(s.ip, e.chosen)[3] != NO_ADDRESS[3];
        }
      }
      hide Decide, SlotOf, ClientOf, WellFormed;
    }
  }

  lemma DecisionTypes(ip: Address, owned: MaybeSlot, free: MaybeSlot, ciaddr: seq<byte>, o: Fields)
    ensures var d := Decide(ip, owned, free, ciaddr, o);
      d.Answer? ==> d.response == OFFER || d.response == ACK || d.response == NAK
  {
    hide SlotOf, Zero;
  }

  lemma SlotIsAddress(ip: Address, a: Address)
    ensures forall k :: 0 <= k < SLOTS ==> (SlotOf(ip, a) == k <==> a == AddressOf(ip, k))
    ensures SlotOf(ip, a) < 0 <==> forall k :: 0 <= k < SLOTS ==> a != AddressOf(ip, k)
  {
    forall k | 0 <= k < SLOTS ensures SlotOf(ip, a) == k <==> a == AddressOf(ip, k) {
      var b := AddressOf(ip, k);
      assert b[..3] == ip[..3] && b[3] == BASE_IP + k;
      if SlotOf(ip, a) == k {
        assert a == a[..3] + [a[3]];
      }
    }
    if SlotOf(ip, a) >= 0 {
      assert a == AddressOf(ip, SlotOf(ip, a));
    }
  }

  /** A well-formed REQUEST names one nonzero address: the requested option, or the client's own address. */
  predicate Consistent(ciaddr: Address, o: Fields) {
    && (o.requested.Some? ==> |o.requested.value| == 4 && Zero(ciaddr) && !Zero(o.requested.value))
    && (o.requested.None? ==> o.server.None? && !Zero(ciaddr))
  }

  /** A REQUEST is acknowledged exactly when it asks for the address its client holds; a consistent one for
      anything else is refused, except that without a server identifier a client with no record asking for
      a pool address is met with silence (RFC 2131 section 4.3.2). */
  lemma RequestMeans(ip: Address, owned: MaybeSlot, free: MaybeSlot, ciaddr: Address, o: Fields)
    requires o.kind == REQUEST && (o.requested.Some? ==> |o.requested.value| == 4)
    ensures var d := Decide(ip, owned, free, ciaddr, o);
      var wanted := if o.requested.Some? then o.requested.value else ciaddr;
      var mine := owned >= 0 && wanted == AddressOf(ip, owned);
      var unknown := owned < 0 && o.server.None? && exists k :: 0 <= k < SLOTS && wanted == AddressOf(ip, k);
      && (d.Answer? && d.response == ACK <==> Consistent(ciaddr, o) && mine)
      && (d.Answer? && d.response == ACK ==> d.chosen == owned)
      && (d.Answer? && d.response == NAK <==> Consistent(ciaddr, o) && !mine && !unknown)
      && (d.Ignore? <==> !Consistent(ciaddr, o) || unknown)
  {
    hide SlotOf, AddressOf, Zero;
    var wanted := if o.requested.Some? then o.requested.value else ciaddr;
    SlotIsAddress(ip, wanted);
  }
}
