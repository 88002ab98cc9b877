/** receive() as the firmware runs it: a lease table and one reply buffer, both updated in place. */
module DhcpServer {
  import opened Bytes
  import opened DhcpOptions
  import opened Dhcp

  method IsZero(b: seq<byte>) returns (zero: bool)
    ensures zero == Zero(b)
  {
    for i := 0 to |b|
      invariant forall k :: 0 <= k < i ==> b[k] == 0
    {
      if b[i] != 0 {
        return false;
      }
    }
    return true;
  }

  lemma OwnedSnoc(leases: seq<Lease>, l: Lease, c: Client)
    ensures OwnedIn(leases + [l], c) == if Live(l, c) then |leases| else OwnedIn(leases, c)
  {
    assert (leases + [l])[..|leases|] == leases;
  }

  lemma FreeSnoc(leases: seq<Lease>, l: Lease)
    ensures FreeIn(leases + [l]) == if FreeIn(leases) >= 0 then FreeIn(leases) else if l.Free? then |leases| else -1
  {
    assert (leases + [l])[..|leases|] == leases;
  }

  /** The one pass that expires leases and finds the client's slot and the first free one. */
  method Scan(leases: array<Lease>, c: Client, now: nat) returns (owned: MaybeSlot, free: MaybeSlot)
    requires leases.Length == SLOTS
    modifies leases
    ensures leases[..] == Swept(old(leases[..]), now)
    ensures owned == OwnedIn(leases[..], c) && free == FreeIn(leases[..])
  {
    owned, free := -1, -1;
    ghost var was := leases[..];
    ghost var swept := Swept(was, now);
    for i := 0 to SLOTS
      invariant leases[..i] == swept[..i] && leases[i..] == was[i..]
      invariant owned == OwnedIn(swept[..i], c) && free == FreeIn(swept[..i])
    {
      assert leases[i] == was[i..][0];
      if Expired(leases[i], now) {
        leases[i] := Free;
      }
      if Live(leases[i], c) {
        owned := i;
      }
      if leases[i].Free? && free < 0 {
        free := i;
      }
      assert swept[..i + 1] == swept[..i] + [swept[i]];
      OwnedSnoc(swept[..i], swept[i], c);
      FreeSnoc(swept[..i], swept[i]);
      assert leases[..i + 1] == leases[..i] + [leases[i]] && leases[i + 1..] == was[i..][1..];
    }
    assert leases[..] == leases[..SLOTS] && swept[..SLOTS] == swept;
  }

  /** slot(). */
  method FindSlot(ip: Address, a: seq<byte>) returns (i: MaybeSlot)
    ensures i == SlotOf(ip, a)
  {
    if |a| != 4 {
      return -1;
    }
    for k := 0 to 3
      invariant a[..k] == ip[..k]
    {
      if a[k] != ip[k] {
        assert a[..3][k] != ip[..3][k];
        return -1;
      }
      assert a[..k + 1] == a[..k] + [a[k]] && ip[..k + 1] == ip[..k] + [ip[k]];
    }
    if a[3] < BASE_IP || a[3] >= BASE_IP + SLOTS {
      return -1;
    }
    return a[3] - BASE_IP;
  }

  /** The REQUEST branch: SELECTING and INIT-REBOOT name an address, RENEWING and REBINDING have one. */
  method ChooseRequested(ip: Address, owned: MaybeSlot, ciaddr: seq<byte>, o: Fields) returns (d: Decision)
    ensures d == DecideRequest(ip, owned, ciaddr, o)
  {
    hide SlotOf, Zero;
    var unset := IsZero(ciaddr);
    if (o.requested.Some? && !unset) || (o.server.Some? && o.requested.None?) {
      return Ignore;
    }
    var wanted := if o.requested.Some? then o.requested.value else ciaddr;
    var nothing := IsZero(wanted);
    if nothing {
      return Ignore;
    }
    var chosen := FindSlot(ip, wanted);
    var response := ACK;
    if chosen < 0 || (owned >= 0 && chosen != owned) {
      response := NAK;
    } else if chosen != owned {
      if o.server.None? {
        return Ignore;
      }
      response := NAK;
    }
    return Answer(response, chosen);
  }

  /** The message types of receive(), in its order. */
  method Choose(ip: Address, owned: MaybeSlot, free: MaybeSlot, ciaddr: Address, o: Fields) returns (d: Decision)
    ensures d == Decide(ip, owned, free, ciaddr, o)
  {
    hide SlotOf, Zero, DecideRequest;
    d := Ignore;
    var unset := IsZero(ciaddr);
    if o.kind == DISCOVER {
      if !unset || o.server.Some? {
        return;
      }
      var chosen := if owned >= 0 then owned else free;
      if chosen >= 0 {
        d := Answer(OFFER, chosen);
      }
    } else if o.kind == REQUEST {
      d := ChooseRequested(ip, owned, ciaddr, o);
    } else if o.kind == RELEASE {
      var named := FindSlot(ip, ciaddr);
      if o.server.Some? && o.requested.None? && owned >= 0 && named == owned {
        d := Freeing;
      }
    } else if o.kind == DECLINE {
      if o.server.None? || o.requested.None? || owned < 0 {
        return;
      }
      var named := FindSlot(ip, o.requested.value);
      if named == owned {
        d := Quarantine;
      }
    } else if o.kind == INFORM {
      if o.requested.None? && !unset && ciaddr[..3] == ip[..3] {
        d := Answer(ACK, -1);
      }
    }
  }

  /** memcpy into the reply buffer. */
  method Put(reply: array<byte>, at: nat, data: seq<byte>)
    requires at + |data| <= reply.Length
    modifies reply
    ensures forall i :: 0 <= i < reply.Length ==> reply[i] == if at <= i < at + |data| then data[i - at] else old(reply[i])
  {
    forall i | 0 <= i < |data| {
      reply[at + i] := data[i];
    }
  }

  /** option(): appends one option after the options `done` and returns the new end. */
  method PutItem(reply: array<byte>, at: nat, it: Item, ghost h: seq<byte>, ghost done: seq<Item>) returns (next: nat)
    requires ValidItem(it) && it.Item? && at + 2 + |it.data| <= reply.Length
    requires ValidItems(done) && reply[..at] == h + Wire(done)
    modifies reply
    ensures next == at + 2 + |it.data| && ValidItems(done + [it]) && reply[..next] == h + Wire(done + [it])
    ensures forall i :: next <= i < reply.Length ==> reply[i] == old(reply[i])
  {
    hide Wire;
    Put(reply, at, [it.code, |it.data|]);
    Put(reply, at + 2, it.data);
    next := at + 2 + |it.data|;
    WireSnoc(done, it);
    assert reply[..next] == old(reply[..at]) + WireItem(it);
    assert h + Wire(done) + WireItem(it) == h + (Wire(done) + WireItem(it));
  }

  /** The fixed part of a reply, field by field. */
  predicate HeaderSlices(r: seq<byte>, ip: Address, p: seq<byte>, response: byte, chosen: MaybeSlot)
    requires |r| >= OPTIONS && |p| >= OPTIONS
  {
    && r[0..4] == [2, 1, 6, 0] && r[4..8] == p[4..8] && r[8..10] == [0, 0] && r[10..12] == p[10..12]
    && r[12..16] == (if response != NAK then p[12..16] else NO_ADDRESS)
    && r[16..20] == (if response != NAK && chosen >= 0 then AddressOf(ip, chosen) else NO_ADDRESS)
    && r[20..28] == Fill(8, 0) && r[28..44] == p[28..44] && r[44..236] == Fill(192, 0) && r[236..240] == COOKIE
  }

  lemma HeaderFromSlices(r: seq<byte>, ip: Address, p: seq<byte>, response: byte, chosen: MaybeSlot)
    requires |r| >= OPTIONS && |p| >= OPTIONS && HeaderSlices(r, ip, p, response, chosen)
    ensures r[..OPTIONS] == ReplyHeader(ip, p, response, chosen)
  {
    assert r[..OPTIONS] == r[0..4] + r[4..8] + r[8..10] + r[10..12] + r[12..16] + r[16..20] + r[20..28] + r[28..44] +
      r[44..236] + r[236..240];
  }

  /** Everything but the two addresses, over zeros. */
  method PutFixed(reply: array<byte>, p: seq<byte>)
    requires reply.Length == MAX_PACKET && |p| >= OPTIONS
    modifies reply
    ensures reply[0..4] == [2, 1, 6, 0] && reply[4..8] == p[4..8] && reply[8..10] == [0, 0] && reply[10..12] == p[10..12]
    ensures reply[28..44] == p[28..44] && reply[236..240] == COOKIE
    ensures forall i :: 12 <= i < 28 || 44 <= i < 236 || OPTIONS <= i < MAX_PACKET ==> reply[i] == 0
  {
    forall i | 0 <= i < MAX_PACKET {
      reply[i] := 0;
    }
    reply[0], reply[1], reply[2] := 2, 1, 6;
    Put(reply, 4, p[4..8]);
    Put(reply, 10, p[10..12]);
    Put(reply, 28, p[28..44]);
    Put(reply, 236, COOKIE);
  }

  method PutHeader(reply: array<byte>, ip: Address, p: seq<byte>, response: byte, chosen: MaybeSlot)
    requires reply.Length == MAX_PACKET && |p| >= OPTIONS
    modifies reply
    ensures reply[..OPTIONS] == ReplyHeader(ip, p, response, chosen)
    ensures forall i :: OPTIONS <= i < MAX_PACKET ==> reply[i] == 0
  {
    hide ReplyHeader;
    PutFixed(reply, p);
    ghost var fixed := reply[..];
    if response != NAK {
      Put(reply, 12, p[12..16]);
      if chosen >= 0 {
        Put(reply, 16, ip[..3]);
        reply[19] := BASE_IP + chosen;
      }
    }
    ghost var r := reply[..];
    assert r[..12] == fixed[..12] && r[20..] == fixed[20..];
    SameSlices(fixed, r, p);
    HeaderFromSlices(r, ip, p, response, chosen);
    assert reply[..OPTIONS] == r[..OPTIONS];
  }

  lemma SameSlices(fixed: seq<byte>, r: seq<byte>, p: seq<byte>)
    requires |fixed| == |r| == MAX_PACKET && |p| >= OPTIONS && r[..12] == fixed[..12] && r[20..] == fixed[20..]
    requires fixed[0..4] == [2, 1, 6, 0] && fixed[4..8] == p[4..8] && fixed[8..10] == [0, 0] && fixed[10..12] == p[10..12]
    requires fixed[28..44] == p[28..44] && fixed[236..240] == COOKIE
    requires forall i :: 12 <= i < 28 || 44 <= i < 236 || OPTIONS <= i < MAX_PACKET ==> fixed[i] == 0
    ensures r[0..4] == [2, 1, 6, 0] && r[4..8] == p[4..8] && r[8..10] == [0, 0] && r[10..12] == p[10..12]
    ensures r[20..28] == Fill(8, 0) && r[28..44] == p[28..44] && r[44..236] == Fill(192, 0) && r[236..240] == COOKIE
    ensures forall i :: OPTIONS <= i < MAX_PACKET ==> r[i] == 0
  {
    assert forall i :: 0 <= i < 12 ==> r[i] == r[..12][i] == fixed[..12][i];
    assert forall i :: 20 <= i < MAX_PACKET ==> r[i] == r[20..][i - 20] == fixed[20..][i - 20];
    assert r[0..4] == fixed[0..4] && r[4..8] == fixed[4..8] && r[8..10] == fixed[8..10] && r[10..12] == fixed[10..12];
    assert r[28..44] == fixed[28..44] && r[236..240] == fixed[236..240];
  }

  /** The options between the server identifier and the client identifier. */
  method PutSettings(reply: array<byte>, at: nat, response: byte, chosen: MaybeSlot, ghost h: seq<byte>, ghost done: seq<Item>)
    returns (out: nat)
    requires at + 24 <= reply.Length && ValidItems(done) && reply[..at] == h + Wire(done)
    modifies reply
    ensures at <= out <= at + 24 && ValidItems(done + Settings(response, chosen >= 0))
    ensures reply[..out] == h + Wire(done + Settings(response, chosen >= 0))
    ensures forall i :: out <= i < reply.Length ==> reply[i] == old(reply[i])
  {
    hide Wire, Be32;
    out := at;
    if response == NAK {
      assert done + [] == done;
      return;
    }
    out := PutItem(reply, out, Item(1, MASK), h, done);
    if chosen >= 0 {
      var a, b, c := Item(51, Be32(600)), Item(58, Be32(300)), Item(59, Be32(525));
      ghost var one := done + [Item(1, MASK)];
      out := PutItem(reply, out, a, h, one);
      out := PutItem(reply, out, b, h, one + [a]);
      out := PutItem(reply, out, c, h, one + [a] + [b]);
      assert done + Settings(response, true) == one + [a] + [b] + [c];
    } else {
      assert [Item(1, MASK)] + [] == [Item(1, MASK)];
    }
  }

  /** The reply as receive() builds it: header, options, END, and zeros up to the BOOTP minimum. */
  method Build(reply: array<byte>, ip: Address, p: seq<byte>, response: byte, chosen: MaybeSlot, client: Option<seq<byte>>)
    returns (size: nat)
    requires reply.Length == MAX_PACKET && |p| >= OPTIONS && ClientFits(client)
    modifies reply
    ensures size <= MAX_PACKET && reply[..size] == Reply(ip, p, response, chosen, client)
  {
    hide Wire, ReplyHeader, Be32, Reply, Settings;
    PutHeader(reply, ip, p, response, chosen);
    ghost var h := reply[..OPTIONS];
    NothingRead([]);
    assert h + [] == h;
    ghost var done: seq<Item> := [];
    var out := PutItem(reply, OPTIONS, Item(MESSAGE_TYPE, [response]), h, done);
    done := done + [Item(MESSAGE_TYPE, [response])];
    out := PutItem(reply, out, Item(SERVER, ip), h, done);
    done := done + [Item(SERVER, ip)];
    out := PutSettings(reply, out, response, chosen, h, done);
    done := done + Settings(response, chosen >= 0);
    if client.Some? {
      out := PutItem(reply, out, Item(CLIENT, client.value), h, done);
      done := done + [Item(CLIENT, client.value)];
    }
    assert done == ReplyItems(ip, response, chosen >= 0, client);
    reply[out] := END;
    out := out + 1;
    size := if out < MIN_REPLY then MIN_REPLY else out;
    assert reply[..out - 1] == reply[..][..out - 1];
    ReplyFrom(reply[..], ip, p, response, chosen, client, out);
    assert reply[..size] == reply[..][..size];
  }

  lemma ReplyFrom(r: seq<byte>, ip: Address, p: seq<byte>, response: byte, chosen: MaybeSlot, client: Option<seq<byte>>, out: nat)
    requires |r| == MAX_PACKET && |p| >= OPTIONS && ClientFits(client) && 0 < out <= |r| && r[out - 1] == END
    requires ValidItems(ReplyItems(ip, response, chosen >= 0, client))
    requires r[..out - 1] == ReplyHeader(ip, p, response, chosen) + Wire(ReplyItems(ip, response, chosen >= 0, client))
    requires forall i :: out <= i < |r| ==> r[i] == 0
    ensures r[..Max(MIN_REPLY, out)] == Reply(ip, p, response, chosen, client)
  {
    hide Wire, ReplyHeader, ReplyItems;
    assert r[..out] == r[..out - 1] + [END];
    if out < MIN_REPLY {
      assert r[..MIN_REPLY] == r[..out] + Fill(MIN_REPLY - out, 0);
    } else {
      assert r[..out] + Fill(0, 0) == r[..out];
    }
  }

  class LeaseServer {
    const ip: Address
    const leases: array<Lease>
    const reply: array<byte>

    ghost predicate Valid()
      reads this
    {
      leases.Length == SLOTS && reply.Length == MAX_PACKET
    }

    ghost function View(): Server
      requires Valid()
      reads this, leases
    {
      Server(ip, leases[..])
    }

    constructor (address: Address)
      ensures Valid() && ip == address && fresh(leases) && fresh(reply)
      ensures forall k :: 0 <= k < SLOTS ==> leases[k].Free?
    {
      ip := address;
      leases := new Lease[SLOTS](_ => Free);
      reply := new byte[MAX_PACKET];
    }

    /** The checks receive() makes before it looks at the options. */
    method Acceptable(d: Datagram) returns (ok: bool)
      ensures ok == WellFormed(d)
    {
      if d.port != 68 || |d.bytes| < OPTIONS + 4 || |d.bytes| > MAX_PACKET || !d.copied {
        return false;
      }
      var p := d.bytes;
      assert p[..4] == [p[0], p[1], p[2], p[3]];
      if p[0] != 1 || p[1] != 1 || p[2] != 6 || p[3] != 0 {
        return false;
      }
      var relayed := IsZero(p[24..28]);
      var anonymous := IsZero(p[28..34]);
      return relayed && !anonymous && p[28] % 2 == 0 && p[236..240] == COOKIE;
    }

    /** receive(), with `canSend` the network's answer. */
    method Receive(d: Datagram, now: nat, canSend: bool) returns (out: Output)
      requires Valid()
      modifies leases, reply
      ensures View() == Received(old(View()), d, now, canSend).0
      ensures out == Received(old(View()), d, now, canSend).1
    {
      hide Parse, WellFormed, Reply, Swept, Decide, Destination, OwnedIn, FreeIn;
      out := Nothing;
      var fine := Acceptable(d);
      var parsed, o := ParseOptions(d.bytes);
      if !fine || !parsed || (o.server.Some? && o.server.value != ip) {
        return;
      }
      ParsedClient(d.bytes);
      LongEnough(d);
      var p := d.bytes;
      var c := ClientOf(p, o);
      var owned, free := Scan(leases, c, now);
      var decision := Choose(ip, owned, free, p[12..16], o);
      match decision
      case Ignore =>
      case Freeing =>
        leases[owned] := Free;
      case Quarantine =>
        OwnedLive(leases[..], c);
        leases[owned] := leases[owned].(stage := Declined, since := now, duration := DECLINE_MS);
      case Answer(response, chosen) =>
        var size := Build(reply, ip, p, response, chosen, o.client);
        if !canSend {
          return;
        }
        out := Sent(reply[..size], Destination(response, p[12..16]));
        if chosen >= 0 && response != NAK {
          // A repeated discover must not shorten a committed lease.
          if !(response == OFFER && leases[chosen].Held? && leases[chosen].stage.Bound?) {
            leases[chosen] := Held(if response == OFFER then Offered else Bound, c, now,
                                   if response == OFFER then OFFER_MS else LEASE_MS);
          }
        }
    }
  }

  lemma LongEnough(d: Datagram)
    requires WellFormed(d)
    ensures |d.bytes| >= OPTIONS
  {
  }

  lemma OwnedLive(leases: seq<Lease>, c: Client)
    ensures OwnedIn(leases, c) >= 0 ==> leases[OwnedIn(leases, c)].Held?
  {
  }
}
