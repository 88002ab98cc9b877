/**
 How long an OFFER reserves its address. Answering a DISCOVER from a bound client
 leaves the lease as it was, so the offer is good for OFFER_MS exactly when that
 lease is not about to end.
 */
module DhcpOffers {
  import opened Bytes
  import opened DhcpOptions
  import opened Dhcp
  import opened DhcpRuns

  // ---- A DISCOVER from a client the server does not know ----

  function Mac(i: nat): seq<byte>
    requires i < 256
  {
    [2, i, 0, 0, 0, 0]
  }

  function Visitor(i: nat): Client
    requires i < 256
  {
    Client(Mac(i), false)
  }

  function DiscoverBytes(mac: seq<byte>): seq<byte>
    requires |mac| == 6
  {
    [1, 1, 6, 0] + Fill(24, 0) + mac + Fill(202, 0) + COOKIE + [MESSAGE_TYPE, 1, DISCOVER, END]
  }

  function Discover(i: nat, now: nat): Input
    requires i < 256
  {
    Input(Datagram(DiscoverBytes(Mac(i)), 68, true), now, true)
  }

  lemma DiscoverParses(mac: seq<byte>)
    requires |mac| == 6
    ensures Parse(DiscoverBytes(mac)) == Some(Fields(DISCOVER, None, None, None))
  {
    hide Fold, Split, Wire;
    var p := DiscoverBytes(mac);
    var it := Item(MESSAGE_TYPE, [DISCOVER]);
    NothingRead([]);
    FoldSnoc([], it);
    WireCons(it, []);
    assert [it] + [] == [it] == [] + [it];
    SplitWire([it], []);
    assert p[OPTIONS..] == Wire([it]) + ([END] + []);
  }

  lemma DiscoverSlices(i: nat)
    requires i < 256
    ensures var p := DiscoverBytes(Mac(i));
      && |p| == OPTIONS + 4 && p[12..16] == NO_ADDRESS && p[28..34] == Mac(i)
      && WellFormed(Datagram(p, 68, true))
  {
    var p := DiscoverBytes(Mac(i));
    assert p[..4] == [1, 1, 6, 0] && p[236..240] == COOKIE;
    assert p[28..34] == Mac(i);
    assert p[28..34][0] == 2;
  }

  /** A stranger's DISCOVER takes the first free slot. */
  lemma Visited(s: State, i: nat, now: nat, f: int)
    requires i < 256
    requires f == FreeIn(Swept(s.server.leases, now)) >= 0
    requires forall k :: 0 <= k < SLOTS ==> !Live(Swept(s.server.leases, now)[k], Visitor(i))
    ensures Next(s, Discover(i, now)) ==
      State(Server(s.server.ip, Swept(s.server.leases, now)[f := Held(Offered, Visitor(i), now, OFFER_MS)]), now,
            s.log + [Gave(f, Visitor(i), false, now, now + OFFER_MS)])
  {
    hide Parse, Reply, WellFormed, FreeIn, OwnedIn, Swept, DiscoverBytes, SlotOf;
    DiscoverSlices(i);
    DiscoverParses(Mac(i));
    var leases := Swept(s.server.leases, now);
    assert OwnedIn(leases, Visitor(i)) == -1;
    assert leases[f].Free?;
  }

  // ---- A stranger can always be found ----

  function VisitorIn(c: Client): set<nat> {
    set i | 0 <= i < 16 && c == Visitor(i)
  }

  lemma VisitorOne(c: Client)
    ensures |VisitorIn(c)| <= 1
  {
    var v := VisitorIn(c);
    if i :| i in v {
      forall k | k in v ensures k == i {
        assert Mac(k)[1] == Mac(i)[1];
      }
      assert v == {i};
    }
  }

  function Visitors(cs: seq<Client>): set<nat> {
    if cs == [] then {} else Visitors(cs[..|cs| - 1]) + VisitorIn(cs[|cs| - 1])
  }

  lemma {:induction false} FewVisitors(cs: seq<Client>)
    ensures |Visitors(cs)| <= |cs|
    ensures forall i :: 0 <= i < 16 && Visitor(i) in cs ==> i in Visitors(cs)
    decreases |cs|
  {
    hide VisitorIn;
    if cs != [] {
      var n := |cs| - 1;
      FewVisitors(cs[..n]);
      VisitorOne(cs[n]);
      UnionSize(Visitors(cs[..n]), VisitorIn(cs[n]));
      forall i | 0 <= i < 16 && Visitor(i) in cs ensures i in Visitors(cs) {
        assert cs == cs[..n] + [cs[n]];
        assert Visitor(i) in cs[..n] || i in VisitorIn(cs[n]) by { IsVisitor(i); }
      }
    }
  }

  lemma IsVisitor(i: nat)
    requires i < 16
    ensures i in VisitorIn(Visitor(i))
  {
  }

  lemma UnionSize(a: set<nat>, b: set<nat>)
    ensures |a + b| <= |a| + |b|
  {
    assert |a + b| + |a * b| == |a| + |b|;
  }

  /** Ten candidates, nine clients to avoid. */
  const TEN: set<nat> := {0, 1, 2, 3, 4, 5, 6, 7, 8, 9}

  lemma Stranger(cs: seq<Client>) returns (i: nat)
    requires |cs| < 10
    ensures i < 256 && Visitor(i) !in cs
  {
    hide Visitors;
    FewVisitors(cs);
    assert |TEN| == 10;
    if TEN <= Visitors(cs) {
      Subset(TEN, Visitors(cs));
      assert false;
    }
    i :| i in TEN && i !in Visitors(cs);
  }

  lemma {:induction false} Subset(a: set<nat>, b: set<nat>)
    requires a <= b
    ensures |a| <= |b|
  {
    if a != {} {
      var x :| x in a;
      Subset(a - {x}, b - {x});
    }
  }

  /** The clients in the table. */
  function Holders(leases: Leases): (cs: seq<Client>)
    ensures |cs| == SLOTS
    ensures forall k :: 0 <= k < SLOTS && leases[k].Held? ==> cs[k] == leases[k].client
  {
    seq(SLOTS, k requires 0 <= k < SLOTS => if leases[k].Held? then leases[k].client else Client([], false))
  }

  lemma NewClient(leases: Leases, other: Client) returns (i: nat)
    ensures i < 256 && Visitor(i) != other && forall k :: 0 <= k < SLOTS ==> !Live(leases[k], Visitor(i))
  {
    hide Visitor, Holders;
    var cs := Holders(leases) + [other];
    i := Stranger(cs);
    assert cs[SLOTS] == other;
    forall k | 0 <= k < SLOTS ensures !Live(leases[k], Visitor(i)) {
      assert cs[k] == Holders(leases)[k];
    }
  }

  // ---- Crowding a slot ----

  predicate Before(inputs: seq<Input>, now: nat) {
    Monotone(inputs) && forall i :: 0 <= i < |inputs| ==> inputs[i].now <= now
  }

  lemma ExecSnoc(ip: Address, inputs: seq<Input>, i: Input)
    ensures Exec(ip, inputs + [i]) == Next(Exec(ip, inputs), i)
  {
    hide Next;
    assert (inputs + [i])[..|inputs|] == inputs;
  }

  /** Events of strangers only: offers, at this time. */
  predicate OffersOnly(events: seq<Event>, now: nat) {
    forall k :: 0 <= k < |events| ==> events[k].Gave? && events[k].at == now
  }

  lemma SweptAgain(leases: Leases, f: int, c: Client, now: nat)
    requires 0 <= f < SLOTS
    ensures var l := Swept(leases, now)[f := Held(Offered, c, now, OFFER_MS)]; Swept(l, now) == l
  {
  }

  lemma FirstFree(leases: Leases, slot: int)
    requires 0 <= slot < SLOTS && leases[slot].Free?
    ensures 0 <= FreeIn(leases) <= slot
  {
  }

  lemma NextFree(leases: Leases, f: int, l: Lease, slot: int)
    requires f == FreeIn(leases) && 0 <= f < slot < SLOTS && leases[slot].Free? && l.Held?
    ensures leases[f := l][slot].Free? && f < FreeIn(leases[f := l]) <= slot
  {
    FirstFree(leases[f := l], slot);
  }

  /** Once a slot is free, strangers' DISCOVERs bring it to one of them. */
  lemma {:induction false} Crowd(ip: Address, inputs: seq<Input>, slot: int, other: Client, now: nat) returns (more: seq<Input>)
    requires Before(inputs, now) && 0 <= slot < SLOTS && Swept(Exec(ip, inputs).server.leases, now)[slot].Free?
    ensures Before(inputs + more, now)
    ensures var log, log' := Exec(ip, inputs).log, Exec(ip, inputs + more).log;
      && |log| < |log'| && log'[..|log|] == log && OffersOnly(log'[|log|..], now)
      && log'[|log'| - 1].slot == slot && log'[|log'| - 1].client != other
    decreases slot - FreeIn(Swept(Exec(ip, inputs).server.leases, now))
  {
    hide Next, Swept, FreeIn, Visitor, Exec, Monotone;
    var s := Exec(ip, inputs);
    var leases := Swept(s.server.leases, now);
    FirstFree(leases, slot);
    var f := FreeIn(leases);
    var i := NewClient(leases, other);
    var input := Discover(i, now);
    Visited(s, i, now, f);
    ExecSnoc(ip, inputs, input);
    BeforeSnoc(inputs, input, now);
    var t := Exec(ip, inputs + [input]);
    assert t.log[..|s.log|] == s.log;
    if f == slot {
      more := [input];
    } else {
      SweptAgain(s.server.leases, f, Visitor(i), now);
      NextFree(leases, f, Held(Offered, Visitor(i), now, OFFER_MS), slot);
      var rest := Crowd(ip, inputs + [input], slot, other, now);
      more := [input] + rest;
      assert inputs + [input] + rest == inputs + more;
      OffersJoin(s.log, t.log, Exec(ip, inputs + more).log, now);
    }
  }

  lemma OffersJoin(a: seq<Event>, b: seq<Event>, c: seq<Event>, now: nat)
    requires |a| <= |b| <= |c| && b[..|a|] == a && c[..|b|] == b && OffersOnly(b[|a|..], now) && OffersOnly(c[|b|..], now)
    ensures c[..|a|] == a && OffersOnly(c[|a|..], now)
  {
    assert c[..|a|] == c[..|b|][..|a|];
    assert c[|a|..] == b[|a|..] + c[|b|..] by { assert c == b + c[|b|..]; }
  }

  lemma BeforeSnoc(inputs: seq<Input>, i: Input, now: nat)
    requires Before(inputs, now) && i.now == now
    ensures Before(inputs + [i], now)
  {
  }

  // ---- How long an offer lasts ----

  lemma {:induction false} LogGrows(ip: Address, inputs: seq<Input>, more: seq<Input>)
    ensures Exec(ip, inputs).log <= Exec(ip, inputs + more).log
    decreases |more|
  {
    hide Received;
    if more == [] {
      assert inputs + more == inputs;
    } else {
      var n := |more| - 1;
      LogGrows(ip, inputs, more[..n]);
      assert inputs + more == inputs + more[..n] + [more[n]];
      ExecSnoc(ip, inputs + more[..n], more[n]);
    }
  }

  /** However the run goes on, no other client is given the slot of event `i` before `until`, unless it was
      given back. */
  ghost predicate KeptFor(ip: Address, inputs: seq<Input>, i: int, until: nat) {
    forall more: seq<Input>, j: int :: Monotone(inputs + more) ==> Spared(Exec(ip, inputs + more).log, i, j, until)
  }

  predicate Spared(log: seq<Event>, i: int, j: int, until: nat) {
    0 <= i < j < |log| && log[i].Gave? && log[j].Gave? && log[j].slot == log[i].slot && log[j].client != log[i].client ==>
      log[j].at >= until || GaveBack(log, i, j, log[i].slot, log[i].client)
  }

  lemma UntilKept(ip: Address, inputs: seq<Input>, i: int, until: nat)
    requires Monotone(inputs) && 0 <= i < |Exec(ip, inputs).log|
    requires Exec(ip, inputs).log[i].Gave? && until <= Exec(ip, inputs).log[i].until
    ensures KeptFor(ip, inputs, i, until)
  {
    hide Exec, Monotone, GaveBack, Promises, OneEach;
    forall more: seq<Input>, j: int | Monotone(inputs + more) ensures Spared(Exec(ip, inputs + more).log, i, j, until) {
      LeaseSafety(ip, inputs + more);
      LogGrows(ip, inputs, more);
      var log := Exec(ip, inputs + more).log;
      if 0 <= i < j < |log| {
        assert Respected(log, i, j);
        assert log[i] == Exec(ip, inputs).log[i];
      }
    }
  }

  /** The grant just made stands in the table until `until`, when the slot becomes free. */
  predicate JustGave(s: State) {
    && s.log != [] && s.log[|s.log| - 1].Gave? && SlotEvent(s.log[|s.log| - 1])
    && (var e := s.log[|s.log| - 1]; Live(s.server.leases[e.slot], e.client) && Until(s.server.leases[e.slot]) == e.until)
  }

  lemma FreedAtUntil(leases: Leases, slot: int, now: nat)
    requires 0 <= slot < SLOTS && leases[slot].Held? && Until(leases[slot]) <= now
    ensures Swept(leases, now)[slot].Free?
  {
  }

  lemma NoneBack(log: seq<Event>, from: int, events: seq<Event>, now: nat, slot: int, c: Client)
    requires 0 <= from < |log| && log[from + 1..] == events && OffersOnly(events, now)
    ensures !GaveBack(log, from, |log| - 1, slot, c)
  {
    forall k | from < k < |log| ensures log[k].Gave? {
      assert log[k] == events[k - from - 1];
    }
  }

  /** And at that moment strangers can have it. */
  lemma LostAtUntil(ip: Address, inputs: seq<Input>, until: nat)
    requires Monotone(inputs) && inputs != [] && JustGave(Exec(ip, inputs))
    requires var log := Exec(ip, inputs).log; inputs[|inputs| - 1].now <= log[|log| - 1].until < until
    ensures !KeptFor(ip, inputs, |Exec(ip, inputs).log| - 1, until)
  {
    hide Exec, Swept, GaveBack;
    var s := Exec(ip, inputs);
    var i := |s.log| - 1;
    var e := s.log[i];
    assert Before(inputs, e.until);
    hide Monotone;
    FreedAtUntil(s.server.leases, e.slot, e.until);
    var more := Crowd(ip, inputs, e.slot, e.client, e.until);
    var log := Exec(ip, inputs + more).log;
    var j := |log| - 1;
    assert log[i] == log[..|s.log|][i];
    assert log[j] == log[|s.log|..][j - |s.log|];
    NoneBack(log, i, log[i + 1..], e.until, e.slot, e.client);
    assert !Spared(log, i, j, until);
  }

  /** The client already holds a lease that ends within OFFER_MS. */
  predicate EndsSoon(leases: Leases, c: Client, now: nat) {
    exists k :: 0 <= k < SLOTS && Live(leases[k], c) && leases[k].stage.Bound? && now < Until(leases[k]) < now + OFFER_MS
  }

  lemma SoonSwept(leases: Leases, c: Client, now: nat)
    ensures EndsSoon(Swept(leases, now), c, now) <==> EndsSoon(leases, c, now)
  {
    var swept := Swept(leases, now);
    forall k | 0 <= k < SLOTS && leases[k].Held? && now < Until(leases[k]) ensures swept[k] == leases[k] {
    }
    if EndsSoon(swept, c, now) {
      var k :| 0 <= k < SLOTS && Live(swept[k], c) && swept[k].stage.Bound? && now < Until(swept[k]) < now + OFFER_MS;
      assert leases[k] == swept[k];
    }
  }

  lemma LegalOffer(leases: Leases, leases': Leases, e: Event, now: nat)
    requires OneEach(leases) && Legal(leases, leases', e, now) && e.Gave? && !e.bound
    ensures Live(leases'[e.slot], e.client) && Until(leases'[e.slot]) == e.until > now
    ensures e.until < now + OFFER_MS <==> EndsSoon(leases, e.client, now)
  {
  }

  /** The first event of a datagram that was answered, and the swept table it met. */
  lemma OfferStep(s: State, i: Input)
    requires Inv(s) && s.now <= i.now
    requires var events := Received(s.server, i.d, i.now, i.sent).2; events != [] && events[0].Gave? && !events[0].bound
    ensures var t := Next(s, i);
      && |t.log| == |s.log| + 1 && t.log[|s.log|] == Received(s.server, i.d, i.now, i.sent).2[0]
      && t.log[|s.log|].at == i.now
      && OneEach(Swept(s.server.leases, i.now))
      && Legal(Swept(s.server.leases, i.now), t.server.leases, t.log[|s.log|], i.now)
  {
    hide Inv, Answered, Parse, WellFormed, Swept, OneEach;
    ParsedClient(i.d.bytes);
    WellFormedLong(i.d);
    var leases := Swept(s.server.leases, i.now);
    var swept := State(Server(s.server.ip, leases), i.now, s.log);
    SweepKeeps(s, i.now);
    SweptUnexpired(s.server.leases, i.now);
    InvTimed(swept);
    AnsweredLegal(s.server.ip, leases, i.d.bytes, Parse(i.d.bytes).value, i.now, i.sent);
    hide Legal;
  }

  lemma OfferUntil(ip: Address, inputs: seq<Input>, i: Input)
    requires Monotone(inputs + [i])
    requires var events := Received(Exec(ip, inputs).server, i.d, i.now, i.sent).2;
      events != [] && events[0].Gave? && !events[0].bound
    ensures JustGave(Exec(ip, inputs + [i]))
    ensures var s, t := Exec(ip, inputs), Exec(ip, inputs + [i]); var e := t.log[|t.log| - 1];
      && e == Received(s.server, i.d, i.now, i.sent).2[0] && e.at == i.now <= e.until
      && (e.until < i.now + OFFER_MS <==> EndsSoon(s.server.leases, e.client, i.now))
  {
    hide Received, Exec, Inv, Legal, EndsSoon, Swept, OneEach;
    var s, t := Exec(ip, inputs), Exec(ip, inputs + [i]);
    Earlier(ip, inputs, i);
    ExecSnoc(ip, inputs, i);
    OfferStep(s, i);
    var e := t.log[|t.log| - 1];
    LegalOffer(Swept(s.server.leases, i.now), t.server.leases, e, i.now);
    LegalSlot(Swept(s.server.leases, i.now), t.server.leases, e, i.now);
    SoonSwept(s.server.leases, e.client, i.now);
  }

  lemma LegalSlot(leases: Leases, leases': Leases, e: Event, now: nat)
    requires Legal(leases, leases', e, now)
    ensures SlotEvent(e)
  {
  }

  lemma Earlier(ip: Address, inputs: seq<Input>, i: Input)
    requires Monotone(inputs + [i])
    ensures Monotone(inputs) && Inv(Exec(ip, inputs)) && Exec(ip, inputs).now <= i.now
  {
    hide Inv, Next;
    var all := inputs + [i];
    assert forall k :: 0 <= k < |inputs| ==> all[k] == inputs[k];
    assert all[|inputs|] == i;
    RunKeeps(ip, inputs);
  }

  /** An OFFER keeps its address from every other client for OFFER_MS, whatever happens next, exactly when
      its client did not already hold a lease that ends sooner. */
  lemma OfferReservedIff(ip: Address, inputs: seq<Input>, i: Input)
    requires Monotone(inputs + [i])
    requires var events := Received(Exec(ip, inputs).server, i.d, i.now, i.sent).2;
      events != [] && events[0].Gave? && !events[0].bound
    ensures var s, t := Exec(ip, inputs), Exec(ip, inputs + [i]); var n := |t.log| - 1;
      && 0 <= n && t.log[n] == Received(s.server, i.d, i.now, i.sent).2[0] && t.log[n].at == i.now
      && (KeptFor(ip, inputs + [i], n, i.now + OFFER_MS) <==> !EndsSoon(s.server.leases, t.log[n].client, i.now))
  {
    hide Received, Exec, EndsSoon, KeptFor, Monotone;
    OfferUntil(ip, inputs, i);
    var t := Exec(ip, inputs + [i]);
    var n := |t.log| - 1;
    if i.now + OFFER_MS <= t.log[n].until {
      UntilKept(ip, inputs + [i], n, i.now + OFFER_MS);
    } else {
      assert (inputs + [i])[|inputs|] == i;
      LostAtUntil(ip, inputs + [i], i.now + OFFER_MS);
    }
  }

  // ---- The case that fails is real ----

  function RequestBytes(mac: seq<byte>, wanted: Address, server: Address): seq<byte>
    requires |mac| == 6
  {
    [1, 1, 6, 0] + Fill(24, 0) + mac + Fill(202, 0) + COOKIE +
    [MESSAGE_TYPE, 1, REQUEST, REQUESTED, 4] + wanted + [SERVER, 4] + server + [END]
  }

  function Selecting(i: nat, ip: Address, now: nat): Input
    requires i < 256
  {
    Input(Datagram(RequestBytes(Mac(i), AddressOf(ip, 0), ip), 68, true), now, true)
  }

  lemma RequestParses(mac: seq<byte>, wanted: Address, server: Address)
    requires |mac| == 6
    ensures Parse(RequestBytes(mac, wanted, server)) == Some(Fields(REQUEST, Some(wanted), Some(server), None))
  {
    hide Fold, Split, Wire;
    var p := RequestBytes(mac, wanted, server);
    var a, b, c := Item(MESSAGE_TYPE, [REQUEST]), Item(REQUESTED, wanted), Item(SERVER, server);
    NothingRead([]);
    FoldSnoc([], a);
    FoldSnoc([a], b);
    FoldSnoc([a, b], c);
    WireCons(c, []);
    WireCons(b, [c]);
    WireCons(a, [b, c]);
    assert [] + [a] == [a] && [a] + [b] == [a, b] && [a, b] + [c] == [a, b, c] && [c] + [] == [c] &&
      [b] + [c] == [b, c] && [a] + [b, c] == [a, b, c];
    SplitWire([a, b, c], []);
    assert p[OPTIONS..] == Wire([a, b, c]) + ([END] + []);
  }

  lemma RequestSlices(i: nat, ip: Address)
    requires i < 256
    ensures var d := Selecting(i, ip, 0).d; var p := d.bytes;
      |p| >= OPTIONS && p[12..16] == NO_ADDRESS && p[28..34] == Mac(i) && WellFormed(d)
  {
    var p := RequestBytes(Mac(i), AddressOf(ip, 0), ip);
    assert p[..4] == [1, 1, 6, 0] && p[236..240] == COOKIE;
    assert p[28..34] == Mac(i);
    assert p[28..34][0] == 2;
  }

  predicate OnlyHolder(leases: Leases, l: Lease) {
    leases[0] == l && forall k :: 1 <= k < SLOTS ==> leases[k].Free?
  }

  lemma OwnerOnly(leases: Leases, l: Lease, c: Client)
    requires OnlyHolder(leases, l) && Live(l, c)
    ensures OwnedIn(leases, c) == 0
  {
    var k := OwnedIn(leases, c);
  }

  lemma SweptOnly(leases: Leases, l: Lease, now: nat)
    requires OnlyHolder(leases, l) && !Expired(l, now)
    ensures OnlyHolder(Swept(leases, now), l)
  {
  }

  /** The offered client takes its offer. */
  lemma Binds(s: State, ip: Address, i: nat, now: nat)
    requires i < 256 && s.server.ip == ip && OnlyHolder(s.server.leases, Held(Offered, Visitor(i), now, OFFER_MS))
    ensures var t := Next(s, Selecting(i, ip, now));
      t.server.ip == ip && OnlyHolder(t.server.leases, Held(Bound, Visitor(i), now, LEASE_MS))
  {
    hide Parse, Reply, WellFormed, FreeIn, OwnedIn, Swept, RequestBytes, SlotOf;
    RequestSlices(i, ip);
    RequestParses(Mac(i), AddressOf(ip, 0), ip);
    var l := Held(Offered, Visitor(i), now, OFFER_MS);
    SweptOnly(s.server.leases, l, now);
    var leases := Swept(s.server.leases, now);
    OwnerOnly(leases, l, Visitor(i));
    SlotIsAddress(ip, AddressOf(ip, 0));
    assert AddressOf(ip, 0)[3] == BASE_IP;
  }

  /** Its next DISCOVER is answered from the lease, whatever is left of it. */
  lemma Rediscovers(s: State, i: nat, now: nat, l: Lease)
    requires i < 256 && OnlyHolder(s.server.leases, l) && Live(l, Visitor(i)) && !Expired(l, now)
    ensures var events := Received(s.server, Discover(i, now).d, now, true).2;
      events != [] && events[0].Gave? && !events[0].bound && events[0].client == Visitor(i)
  {
    hide Parse, Reply, WellFormed, FreeIn, OwnedIn, Swept, DiscoverBytes, SlotOf;
    DiscoverSlices(i);
    DiscoverParses(Mac(i));
    SweptOnly(s.server.leases, l, now);
    OwnerOnly(Swept(s.server.leases, now), l, Visitor(i));
  }

  /** A run in which the address of an OFFER reaches another client within OFFER_MS. */
  lemma ShortOffer(ip: Address) returns (inputs: seq<Input>)
    ensures Monotone(inputs) && inputs != []
    ensures var log := Exec(ip, inputs).log; var n := |log| - 1;
      && 0 <= n && log[n].Gave? && !log[n].bound && log[n].at == LEASE_MS - 1
      && !KeptFor(ip, inputs, n, log[n].at + OFFER_MS)
  {
    hide Next, Swept, FreeIn, OwnedIn, Received, Mac;
    var first, second, last := Discover(0, 0), Selecting(0, ip, 0), Discover(0, LEASE_MS - 1);
    StartFree(ip);
    Visited(Start(ip), 0, 0, 0);
    var s1 := Next(Start(ip), first);
    Binds(s1, ip, 0, 0);
    var s2 := Next(s1, second);
    var l := Held(Bound, Visitor(0), 0, LEASE_MS);
    Rediscovers(s2, 0, LEASE_MS - 1, l);
    ExecSnoc(ip, [], first);
    ExecSnoc(ip, [first], second);
    assert [] + [first] == [first] && [first] + [second] == [first, second];
    inputs := [first, second] + [last];
    assert EndsSoon(s2.server.leases, Visitor(0), LEASE_MS - 1) by { assert Live(s2.server.leases[0], Visitor(0)); }
    hide KeptFor, EndsSoon, Exec;
    OfferUntil(ip, [first, second], last);
    OfferReservedIff(ip, [first, second], last);
  }

  lemma StartFree(ip: Address)
    ensures OnlyHolder(Swept(Start(ip).server.leases, 0), Free) && FreeIn(Swept(Start(ip).server.leases, 0)) == 0
    ensures Exec(ip, []) == Start(ip)
  {
    FirstFree(Swept(Start(ip).server.leases, 0), 0);
  }
}
