/** What the server does about each datagram: whom it answers, with what, and what the table then says. */
module DhcpRequests {
  import opened Bytes
  import opened DhcpOptions
  import opened Dhcp
  import Runs = DhcpRuns

  /** A BOOTP request over Ethernet, not relayed, from an individual hardware address, with readable options,
      that is for this server or for any. */
  predicate Proper(ip: Address, d: Datagram) {
    && d.port == 68 && d.copied && 244 <= |d.bytes| <= 548
    && d.bytes[0] == 1 && d.bytes[1] == 1 && d.bytes[2] == 6 && d.bytes[3] == 0 && d.bytes[24..28] == [0, 0, 0, 0]
    && (exists i :: 28 <= i < 34 && d.bytes[i] != 0) && d.bytes[28] % 2 == 0 && d.bytes[236..240] == [99, 130, 83, 99]
    && Parse(d.bytes).Some? && (Parse(d.bytes).value.server.Some? ==> Parse(d.bytes).value.server.value == ip)
  }

  /** Nothing else is answered, or changes anything. */
  lemma Improper(s: Server, d: Datagram, now: nat, sent: bool)
    requires !Proper(s.ip, d)
    ensures Received(s, d, now, sent) == (s, Nothing, [])
  {
    hide Parse, Answered, Swept;
    if WellFormed(d) {
      ZeroFour(d.bytes[24..28]);
      assert d.bytes[..4][0] == 1 && d.bytes[..4][1] == 1 && d.bytes[..4][2] == 6 && d.bytes[..4][3] == 0;
      var i :| 0 <= i < 6 && d.bytes[28..34][i] != 0;
      assert d.bytes[28 + i] != 0;
    }
  }

  lemma ZeroFour(b: seq<byte>)
    requires |b| == 4
    ensures Zero(b) <==> b == [0, 0, 0, 0]
  {
  }

  lemma ProperForm(s: Server, d: Datagram, now: nat, sent: bool)
    requires Proper(s.ip, d)
    ensures WellFormed(d) && Parse(d.bytes).Some? && ClientFits(Parse(d.bytes).value.client)
    ensures Received(s, d, now, sent) == Answered(s.ip, Swept(s.leases, now), d.bytes, Parse(d.bytes).value, now, sent)
  {
    hide Parse, Answered, Swept;
    ParsedClient(d.bytes);
    ZeroFour(d.bytes[24..28]);
    assert d.bytes[..4] == [1, 1, 6, 0];
    var i :| 28 <= i < 34 && d.bytes[i] != 0;
    assert d.bytes[28..34][i - 28] != 0;
  }

  /** Two messages are from the same client if both carry the same identifier, or neither carries one and
      they have the same hardware address; otherwise they are from different clients. */
  lemma SameClientIff(p: seq<byte>, o: Fields, q: seq<byte>, r: Fields)
    requires |p| >= 240 && |q| >= 240
    ensures ClientOf(p, o) == ClientOf(q, r) <==>
      if o.client.Some? then r.client == o.client else r.client.None? && q[28..34] == p[28..34]
  {
  }

  // ---- The table as the message finds it ----

  /** Slot k is this client's, offered or bound, and its time has not passed. */
  predicate Holds(s: Server, now: nat, c: Client, k: int) {
    && 0 <= k < 8 && s.leases[k].Held? && !s.leases[k].stage.Declined? && s.leases[k].client == c
    && now - s.leases[k].since < s.leases[k].duration
  }

  predicate Vacant(s: Server, now: nat, k: int) {
    0 <= k < 8 && (s.leases[k].Free? || now - s.leases[k].since >= s.leases[k].duration)
  }

  /** No client has two slots. */
  ghost predicate OneSlotEach(s: Server, now: nat) {
    forall i, j, c :: Holds(s, now, c, i) && Holds(s, now, c, j) ==> i == j
  }

  lemma OneSlotAlways(ip: Address, inputs: seq<Runs.Input>, now: nat)
    requires Runs.Monotone(inputs)
    ensures OneSlotEach(Runs.Exec(ip, inputs).server, now)
  {
    hide Runs.Exec, Runs.Safe, Runs.Promises;
    Runs.LeaseSafety(ip, inputs);
    var s := Runs.Exec(ip, inputs).server;
    forall i, j, c | Holds(s, now, c, i) && Holds(s, now, c, j) ensures i == j {
      assert Live(s.leases[i], c) && Live(s.leases[j], c) && s.leases[i].client == s.leases[j].client == c;
    }
  }

  function Address4(ip: Address, k: int): seq<byte>
    requires 0 <= k < 8
  {
    ip[..3] + [16 + k]
  }

  /** Every slot but k as the message found it, with what had expired now free. */
  predicate OthersSwept(s: Server, s': Server, now: nat, k: int) {
    s'.ip == s.ip && forall i :: 0 <= i < 8 && i != k ==> s'.leases[i] == if Vacant(s, now, i) then Free else s.leases[i]
  }

  lemma SweptSlots(s: Server, now: nat, c: Client)
    ensures var owned, free := OwnedIn(Swept(s.leases, now), c), FreeIn(Swept(s.leases, now));
      && (owned >= 0 ==> Holds(s, now, c, owned))
      && (owned < 0 ==> forall k :: !Holds(s, now, c, k))
      && (free >= 0 ==> Vacant(s, now, free) && forall k :: 0 <= k < free ==> !Vacant(s, now, k))
      && (free < 0 ==> forall k :: !Vacant(s, now, k))
  {
    hide OwnedIn, FreeIn;
    var leases := Swept(s.leases, now);
    assert forall k :: 0 <= k < 8 ==> (Live(leases[k], c) <==> Holds(s, now, c, k));
    assert forall k :: 0 <= k < 8 ==> (leases[k].Free? <==> Vacant(s, now, k));
  }

  lemma SweptIs(s: Server, now: nat)
    ensures forall i :: 0 <= i < 8 ==> Swept(s.leases, now)[i] == if Vacant(s, now, i) then Free else s.leases[i]
  {
  }

  /** A reply of this type to d, as sent. */
  predicate Says(out: Output, kind: byte) {
    out.Sent? && Parse(out.reply).Some? && Parse(out.reply).value.kind == kind
  }

  lemma ReplySays(ip: Address, p: seq<byte>, response: byte, chosen: int, client: Option<seq<byte>>, to: seq<byte>)
    requires |p| >= 240 && chosen < 8 && ClientFits(client) && response != 0
    ensures Says(Sent(Reply(ip, p, response, chosen, client), to), response)
  {
    hide Parse, Reply;
    ReplyParses(ip, p, response, chosen, client);
  }

  // ---- Discover ----

  /** A DISCOVER with no address and no server is offered the slot its client holds, or else the first vacant
      one, and goes unanswered only when there is neither. The offer stands for 30 seconds, unless the client
      is bound: its lease is left as it is. */
  lemma DiscoverOffers(s: Server, d: Datagram, now: nat)
    requires Proper(s.ip, d) && Parse(d.bytes).value.kind == 1 && Parse(d.bytes).value.server.None? && d.bytes[12..16] == [0, 0, 0, 0]
    ensures var c := ClientOf(d.bytes, Parse(d.bytes).value); var (s', out, events) := Received(s, d, now, true);
      if (forall k :: !Holds(s, now, c, k) && !Vacant(s, now, k)) then out == Nothing && events == [] && OthersSwept(s, s', now, -1)
      else
        && Says(out, 2) && |events| == 1 && events[0].Gave? && events[0].client == c && !events[0].bound && events[0].at == now
        && var k := events[0].slot;
           && 0 <= k < 8 && OthersSwept(s, s', now, k) && events[0].until == Until(s'.leases[k])
           && (if exists j :: Holds(s, now, c, j) then Holds(s, now, c, k)
               else Vacant(s, now, k) && forall j :: 0 <= j < k ==> !Vacant(s, now, j))
           && s'.leases[k] == if Holds(s, now, c, k) && s.leases[k].stage.Bound? then s.leases[k] else Held(Offered, c, now, 30000)
  {
    hide Parse, Reply, Swept, OwnedIn, FreeIn, Says, ClientOf, Proper;
    ProperForm(s, d, now, true);
    var o, p := Parse(d.bytes).value, d.bytes;
    var c := ClientOf(p, o);
    SweptSlots(s, now, c);
    SweptIs(s, now);
    ZeroFour(p[12..16]);
    var owned, free := OwnedIn(Swept(s.leases, now), c), FreeIn(Swept(s.leases, now));
    var chosen := if owned >= 0 then owned else free;
    if chosen >= 0 {
      ReplySays(s.ip, p, OFFER, chosen, o.client, Destination(OFFER, p[12..16]));
    }
  }

  // ---- Request ----

  /** The one address a REQUEST is about. */
  function Wanted(p: seq<byte>, o: Fields): seq<byte>
    requires |p| >= 240
  {
    if o.requested.Some? then o.requested.value else p[12..16]
  }

  /** A REQUEST that names one nonzero address, in the requested-address option or as the client's own. */
  predicate Coherent(p: seq<byte>, o: Fields)
    requires |p| >= 240
  {
    if o.requested.Some? then p[12..16] == [0, 0, 0, 0] && o.requested.value != [0, 0, 0, 0]
    else o.server.None? && p[12..16] != [0, 0, 0, 0]
  }

  lemma RequestedFour(p: seq<byte>)
    ensures Parse(p).Some? && Parse(p).value.requested.Some? ==> |Parse(p).value.requested.value| == 4
  {
    hide Split, Fold;
    if Parse(p).Some? {
      var items := Split(p[OPTIONS..]).value;
      FoldIff(items);
      var requested := Parse(p).value.requested;
      if requested.Some? {
        var i :| 0 <= i < |items| && items[i] == Item(REQUESTED, requested.value);
        assert GoodItem(items[i]);
      }
    }
  }

  lemma AddressIs(ip: Address)
    ensures forall k :: 0 <= k < 8 ==> AddressOf(ip, k) == Address4(ip, k)
  {
  }

  /** No answer, no event; the table only lets go of what had expired. */
  predicate Silent(s: Server, r: (Server, Output, seq<Event>), now: nat) {
    r.1 == Nothing && r.2 == [] && OthersSwept(s, r.0, now, -1)
  }

  /** Acknowledged: the slot is the client's for 600 seconds from now. */
  predicate Binds(s: Server, r: (Server, Output, seq<Event>), now: nat, c: Client, k: int)
    requires 0 <= k < 8
  {
    && Says(r.1, 5) && r.2 == [Gave(k, c, true, now, now + 600000)] && OthersSwept(s, r.0, now, k)
    && r.0.leases[k] == Held(Bound, c, now, 600000)
  }

  lemma CoherentIs(p: seq<byte>, o: Fields)
    requires |p| >= 240 && (o.requested.Some? ==> |o.requested.value| == 4)
    ensures Coherent(p, o) <==> Consistent(p[12..16], o)
  {
    ZeroFour(p[12..16]);
    if o.requested.Some? {
      ZeroFour(o.requested.value);
    }
  }

  /** A REQUEST for the address its client holds is acknowledged; for any other address it is refused, except
      that a client without a slot that names no server and asks for a pool address hears nothing; an incoherent
      one hears nothing either. */
  lemma RequestAnswers(s: Server, d: Datagram, now: nat)
    requires Proper(s.ip, d) && Parse(d.bytes).value.kind == 3 && OneSlotEach(s, now)
    ensures var o := Parse(d.bytes).value; var c, wanted := ClientOf(d.bytes, o), Wanted(d.bytes, o);
      var r := Received(s, d, now, true);
      var mine := exists k :: Holds(s, now, c, k) && wanted == Address4(s.ip, k);
      var unknown := o.server.None? && (forall k :: !Holds(s, now, c, k)) && exists k :: 0 <= k < 8 && wanted == Address4(s.ip, k);
      && (!Coherent(d.bytes, o) ==> Silent(s, r, now))
      && (Coherent(d.bytes, o) ==>
            && (forall k :: Holds(s, now, c, k) && wanted == Address4(s.ip, k) ==> Binds(s, r, now, c, k))
            && (unknown ==> Silent(s, r, now))
            && (!mine && !unknown ==> Says(r.1, 6) && r.2 == [] && OthersSwept(s, r.0, now, -1)))
  {
    hide Parse, Reply, Swept, OwnedIn, FreeIn, Says, ClientOf, Proper, Decide, AddressOf, Address4, Holds, Vacant;
    ProperForm(s, d, now, true);
    var o, p := Parse(d.bytes).value, d.bytes;
    var c := ClientOf(p, o);
    var leases := Swept(s.leases, now);
    var owned, free := OwnedIn(leases, c), FreeIn(leases);
    SweptSlots(s, now, c);
    SweptIs(s, now);
    RequestedFour(p);
    CoherentIs(p, o);
    AddressIs(s.ip);
    RequestMeans(s.ip, owned, free, p[12..16], o);
    var e := Decide(s.ip, owned, free, p[12..16], o);
    if e.Answer? {
      DecisionTypes(s.ip, owned, free, p[12..16], o);
      ReplySays(s.ip, p, e.response, e.chosen, o.client, Destination(e.response, p[12..16]));
    }
  }

  // ---- Giving back, and settings alone ----

  /** RELEASE, to this server and from the address the client holds: the slot is free at once. */
  lemma ReleaseFrees(s: Server, d: Datagram, now: nat, sent: bool)
    requires Proper(s.ip, d) && Parse(d.bytes).value.kind == 7 && OneSlotEach(s, now)
    ensures var o := Parse(d.bytes).value; var c := ClientOf(d.bytes, o); var r := Received(s, d, now, sent);
      var whole := o.server.Some? && o.requested.None?;
      && (whole ==> forall k :: Holds(s, now, c, k) && d.bytes[12..16] == Address4(s.ip, k) ==>
            r.1 == Nothing && r.2 == [Freed(k, c, now)] && OthersSwept(s, r.0, now, k) && r.0.leases[k] == Free)
      && (!whole || (forall k :: Holds(s, now, c, k) ==> d.bytes[12..16] != Address4(s.ip, k)) ==> Silent(s, r, now))
  {
    hide Parse, Swept, OwnedIn, FreeIn, ClientOf, Proper, AddressOf, Address4, Holds, Vacant, SlotOf;
    ProperForm(s, d, now, sent);
    var o, p := Parse(d.bytes).value, d.bytes;
    SweptSlots(s, now, ClientOf(p, o));
    SweptIs(s, now);
    AddressIs(s.ip);
    SlotIsAddress(s.ip, p[12..16]);
  }

  /** DECLINE, to this server and of the address the client holds: the slot goes to nobody for a minute. */
  lemma DeclineQuarantines(s: Server, d: Datagram, now: nat, sent: bool)
    requires Proper(s.ip, d) && Parse(d.bytes).value.kind == 4 && OneSlotEach(s, now)
    ensures var o := Parse(d.bytes).value; var c := ClientOf(d.bytes, o); var r := Received(s, d, now, sent);
      var whole := o.server.Some? && o.requested.Some?;
      && (whole ==> forall k :: Holds(s, now, c, k) && o.requested.value == Address4(s.ip, k) ==>
            && r.1 == Nothing && r.2 == [Quarantined(k, c, now)] && OthersSwept(s, r.0, now, k)
            && r.0.leases[k] == Held(Declined, c, now, 60000))
      && (!whole || (forall k :: Holds(s, now, c, k) ==> o.requested.value != Address4(s.ip, k)) ==> Silent(s, r, now))
  {
    hide Parse, Swept, OwnedIn, FreeIn, ClientOf, Proper, AddressOf, Address4, Vacant, SlotOf;
    ProperForm(s, d, now, sent);
    var o, p := Parse(d.bytes).value, d.bytes;
    RequestedFour(p);
    SweptSlots(s, now, ClientOf(p, o));
    SweptIs(s, now);
    AddressIs(s.ip);
    if o.requested.Some? {
      SlotIsAddress(s.ip, o.requested.value);
    }
  }

  /** INFORM from an address of this network is answered with the settings and no address; INFORM from elsewhere
      and every other type of message hear nothing. */
  lemma OthersHear(s: Server, d: Datagram, now: nat)
    requires Proper(s.ip, d) && Parse(d.bytes).value.kind !in {1, 3, 4, 7}
    ensures var o := Parse(d.bytes).value; var r := Received(s, d, now, true);
      if o.kind == 8 && o.requested.None? && d.bytes[12..16] != [0, 0, 0, 0] && d.bytes[12..15] == s.ip[..3] then
        Says(r.1, 5) && r.1.reply[16..20] == [0, 0, 0, 0] && r.2 == [] && OthersSwept(s, r.0, now, -1)
      else Silent(s, r, now)
  {
    hide Parse, Reply, Swept, OwnedIn, FreeIn, Says, ClientOf, Proper, SlotOf, AddressOf, Vacant;
    ProperForm(s, d, now, true);
    var o, p := Parse(d.bytes).value, d.bytes;
    SweptIs(s, now);
    ZeroFour(p[12..16]);
    assert p[12..16][..3] == p[12..15];
    ReplySays(s.ip, p, ACK, -1, o.client, Destination(ACK, p[12..16]));
    ReplyAddresses(s.ip, p, ACK, -1, o.client);
  }
}
