/** What the client reads in a reply: how long the address is its own, the mask, and where the reply went. */
module DhcpReplies {
  import opened Bytes
  import opened DhcpOptions
  import opened Dhcp

  /** Option `code` occurs once, with this value. */
  predicate Once(items: seq<Item>, code: byte, data: seq<byte>) {
    && (exists i :: 0 <= i < |items| && items[i] == Item(code, data))
    && (forall i, j :: 0 <= i < j < |items| && items[i].Item? && items[j].Item? ==> !(items[i].code == code == items[j].code))
  }

  predicate Never(items: seq<Item>, code: byte) {
    forall i :: 0 <= i < |items| && items[i].Item? ==> items[i].code != code
  }

  /** One option of four octets in network order, with this number. */
  ghost predicate Says(items: seq<Item>, code: byte, value: int) {
    exists data: seq<byte> :: |data| == 4 && Once(items, code, data) && GetBe32(data, 0) == value
  }

  lemma OnceAt(items: seq<Item>, i: nat, code: byte, data: seq<byte>)
    requires i < |items| && items[i] == Item(code, data)
    requires forall j :: 0 <= j < |items| && j != i && items[j].Item? ==> items[j].code != code
    ensures Once(items, code, data)
  {
  }

  lemma SaysAt(items: seq<Item>, i: nat, code: byte, value: uint32)
    requires i < |items| && items[i] == Item(code, Be32(value))
    requires forall j :: 0 <= j < |items| && j != i && items[j].Item? ==> items[j].code != code
    ensures Says(items, code, value)
  {
    hide Be32, GetBe32;
    var data := Be32(value);
    assert data[0..4] == data;
    GetBe32Inverse(data, 0, value);
    OnceAt(items, i, code, data);
  }

  /** Every option of a reply, by its position. */
  lemma ItemsAt(ip: Address, response: byte, granted: bool, client: Option<seq<byte>>)
    ensures var items := ReplyItems(ip, response, granted, client); var n := if response == NAK then 2 else if granted then 6 else 3;
      && |items| == n + (if client.Some? then 1 else 0)
      && items[0] == Item(MESSAGE_TYPE, [response]) && items[1] == Item(SERVER, ip)
      && (response != NAK ==> items[2] == Item(1, MASK))
      && (response != NAK && granted ==> items[3] == Item(51, Be32(600)) && items[4] == Item(58, Be32(300)) && items[5] == Item(59, Be32(525)))
      && (client.Some? ==> items[n] == Item(CLIENT, client.value))
  {
    hide Be32;
  }

  /** What every reply says, in the client's terms. */
  ghost predicate ItemsSay(items: seq<Item>, ip: Address, response: byte, granted: bool, client: Option<seq<byte>>) {
    && Once(items, 53, [response]) && Once(items, 54, ip)
    && (if response == NAK then Never(items, 1) else Once(items, 1, [255, 255, 255, 0]))
    && (if response != NAK && granted then Says(items, 51, 600) && Says(items, 58, 300) && Says(items, 59, 525)
        else Never(items, 51) && Never(items, 58) && Never(items, 59))
    && (if client.Some? then Once(items, 61, client.value) else Never(items, 61))
  }

  lemma ItemsMeanThat(ip: Address, response: byte, granted: bool, client: Option<seq<byte>>)
    ensures ItemsSay(ReplyItems(ip, response, granted, client), ip, response, granted, client)
  {
    hide ReplyItems, Be32, Says, Once;
    var items := ReplyItems(ip, response, granted, client);
    ItemsAt(ip, response, granted, client);
    OnceAt(items, 0, 53, [response]);
    OnceAt(items, 1, 54, ip);
    if response != NAK {
      OnceAt(items, 2, 1, MASK);
      if granted {
        SaysAt(items, 3, 51, 600);
        SaysAt(items, 4, 58, 300);
        SaysAt(items, 5, 59, 525);
      }
    }
    if client.Some? {
      OnceAt(items, |items| - 1, 61, client.value);
    }
  }

  /** The fixed fields of a reply to datagram `p`: the request's transaction, flags and hardware address, its
      own address unless refused, and zeros. */
  predicate HeaderSays(r: seq<byte>, p: seq<byte>, refused: bool, address: seq<byte>) {
    && |r| >= OPTIONS && |p| >= OPTIONS && r[..4] == [2, 1, 6, 0] && r[4..8] == p[4..8] && r[8..10] == [0, 0] && r[10..12] == p[10..12]
    && r[12..16] == (if refused then NO_ADDRESS else p[12..16]) && r[16..20] == address
    && Zero(r[20..28]) && r[28..44] == p[28..44] && Zero(r[44..236]) && r[236..240] == [99, 130, 83, 99]
  }

  lemma HeaderMeans(ip: Address, p: seq<byte>, response: byte, chosen: int, client: Option<seq<byte>>)
    requires |p| >= OPTIONS && chosen < SLOTS && ClientFits(client)
    ensures HeaderSays(Reply(ip, p, response, chosen, client), p, response == NAK,
                       if response != NAK && chosen >= 0 then AddressOf(ip, chosen) else NO_ADDRESS)
  {
    hide Wire, ReplyItems;
    ItemsSize(ip, response, chosen >= 0, client);
    var h, r := ReplyHeader(ip, p, response, chosen), Reply(ip, p, response, chosen, client);
    assert r[..OPTIONS] == h;
    HeaderFields(h, ip, p, response, chosen);
    assert r[..4] == h[..4] && r[4..8] == h[4..8] && r[8..10] == h[8..10] && r[10..12] == h[10..12] && r[12..16] == h[12..16];
    assert r[16..20] == h[16..20] && r[20..28] == h[20..28] && r[28..44] == h[28..44] && r[44..236] == h[44..236];
    assert r[236..240] == h[236..240];
  }

  lemma HeaderFields(h: seq<byte>, ip: Address, p: seq<byte>, response: byte, chosen: int)
    requires |p| >= OPTIONS && chosen < SLOTS && h == ReplyHeader(ip, p, response, chosen)
    ensures HeaderSays(h, p, response == NAK, if response != NAK && chosen >= 0 then AddressOf(ip, chosen) else NO_ADDRESS)
  {
    assert h[4..8] == p[4..8] && h[10..12] == p[10..12] && h[28..44] == p[28..44];
    assert h[20..28] == Fill(8, 0) && h[44..236] == Fill(192, 0);
  }

  /** Where a reply goes: to the address the client is using, unless it is refused or has none. */
  predicate SentTo(destination: seq<byte>, ciaddr: seq<byte>, refused: bool) {
    if !refused && (exists i :: 0 <= i < |ciaddr| && ciaddr[i] != 0) then destination == ciaddr
    else destination == [255, 255, 255, 255]
  }

  /** Every reply that is sent: its fixed fields, its options and its destination, from the datagram and the
      recorded event. A granted address carries a lease time of 600 seconds, a renewal time of one half and a
      rebinding time of seven eighths of it; for a binding that is exactly how long the table keeps it. */
  lemma RepliesSay(s: Server, d: Datagram, now: nat, sent: bool)
    requires Received(s, d, now, sent).1.Sent?
    ensures WellFormed(d) && Parse(d.bytes).Some?
    ensures var (s', out, events) := Received(s, d, now, sent); var o := Parse(d.bytes).value;
      && Parse(out.reply).Some? && Split(out.reply[OPTIONS..]).Some?
      && var kind := Parse(out.reply).value.kind; var granted := events != [] && events[0].Gave?;
         && (kind == OFFER || kind == ACK || kind == NAK)
         && ItemsSay(Split(out.reply[OPTIONS..]).value, s.ip, kind, granted, o.client)
         && HeaderSays(out.reply, d.bytes, kind == NAK, if granted then s.ip[..3] + [16 + events[0].slot] else NO_ADDRESS)
         && SentTo(out.destination, d.bytes[12..16], kind == NAK)
         && (granted && events[0].bound ==> events[0].until - events[0].at == 600 * 1000)
  {
    hide Parse, Reply, ReplyItems, Split, Swept, OwnedIn, FreeIn, Decide, ClientOf, HeaderSays, ItemsSay;
    var o, p := Parse(d.bytes).value, d.bytes;
    ParsedClient(p);
    var leases := Swept(s.leases, now);
    var c := ClientOf(p, o);
    var e := Decide(s.ip, OwnedIn(leases, c), FreeIn(leases), p[12..16], o);
    DecisionTypes(s.ip, OwnedIn(leases, c), FreeIn(leases), p[12..16], o);
    ReplyParses(s.ip, p, e.response, e.chosen, o.client);
    ItemsMeanThat(s.ip, e.response, e.chosen >= 0, o.client);
    HeaderMeans(s.ip, p, e.response, e.chosen, o.client);
    NakItems(s.ip, e.response, e.chosen >= 0, o.client);
  }

  /** A refusal carries no settings, whatever slot it was about. */
  lemma NakItems(ip: Address, response: byte, granted: bool, client: Option<seq<byte>>)
    ensures response == NAK ==> ItemsSay(ReplyItems(ip, response, granted, client), ip, response, false, client)
  {
    hide ReplyItems, Once, Says;
    ItemsMeanThat(ip, response, granted, client);
  }
}
