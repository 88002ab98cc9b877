/** Lease safety over every sequence of datagrams, with a clock that never goes back. */
module DhcpRuns {
  import opened Bytes
  import opened DhcpOptions
  import opened Dhcp

  /** One callback: the datagram, the time, and whether the reply could be sent. */
  datatype Input = Input(d: Datagram, now: nat, sent: bool)

  datatype State = State(server: Server, now: nat, log: seq<Event>)

  function Start(ip: Address): State {
    State(Server(ip, seq(SLOTS, _ => Free)), 0, [])
  }

  function Next(s: State, i: Input): State {
    var (server, _, events) := Received(s.server, i.d, i.now, i.sent);
    State(server, i.now, s.log + events)
  }

  function Exec(ip: Address, inputs: seq<Input>): State {
    if inputs == [] then Start(ip) else Next(Exec(ip, inputs[..|inputs| - 1]), inputs[|inputs| - 1])
  }

  /** The clock never goes back. */
  predicate Monotone(inputs: seq<Input>) {
    forall i, j :: 0 <= i <= j < |inputs| ==> inputs[i].now <= inputs[j].now
  }

  // ---- Claims ----

  /** Between `from` and `to` the client gave the address back. */
  predicate GaveBack(log: seq<Event>, from: int, to: int, slot: int, c: Client) {
    exists k :: 0 <= from < k < to <= |log| && (log[k].Freed? || log[k].Quarantined?) && log[k].slot == slot && log[k].client == c
  }

  /** A given address goes to another client only after its time ran out or it was given back. */
  predicate Respected(log: seq<Event>, i: int, j: int)
    requires 0 <= i < j < |log|
  {
    log[i].Gave? && log[j].Gave? && log[j].slot == log[i].slot && log[j].client != log[i].client ==>
      log[j].at >= log[i].until || GaveBack(log, i, j, log[i].slot, log[i].client)
  }

  /** A declined address goes to nobody for a minute. */
  predicate Isolated(log: seq<Event>, i: int, j: int)
    requires 0 <= i < j < |log|
  {
    log[i].Quarantined? && log[j].Gave? && log[j].slot == log[i].slot ==> log[j].at >= log[i].at + DECLINE_MS
  }

  predicate Safe(log: seq<Event>) {
    forall i, j :: 0 <= i < j < |log| ==> Respected(log, i, j) && Isolated(log, i, j)
  }

  /** No client holds two live slots. */
  predicate OneEach(leases: Leases) {
    forall i, j :: 0 <= i < j < SLOTS && leases[i].Held? && Live(leases[i], leases[i].client) ==>
      !Live(leases[j], leases[i].client)
  }

  // ---- The invariant ----

  predicate Guards(l: Lease, e: Event) {
    match e
    case Gave(_, c, _, _, until) => Live(l, c) && Until(l) >= until
    case Freed(_, _, _) => true
    case Quarantined(_, _, at) => l.Held? && l.stage.Declined? && l.since >= at && l.duration == DECLINE_MS
  }

  predicate Over(e: Event, now: nat) {
    match e
    case Gave(_, _, _, _, until) => now >= until
    case Freed(_, _, _) => true
    case Quarantined(_, _, at) => now >= at + DECLINE_MS
  }

  predicate SlotEvent(e: Event) {
    0 <= e.slot < SLOTS
  }

  /** An unexpired grant or quarantine that was not given back still stands in the table. */
  predicate Guarded(log: seq<Event>, leases: Leases, now: nat, i: int)
    requires 0 <= i < |log| && SlotEvent(log[i])
  {
    || Over(log[i], now)
    || (log[i].Gave? && GaveBack(log, i, |log|, log[i].slot, log[i].client))
    || Guards(leases[log[i].slot], log[i])
  }

  function StageTime(stage: Stage): nat {
    match stage case Offered => OFFER_MS case Bound => LEASE_MS case Declined => DECLINE_MS
  }

  predicate Timed(leases: Leases, now: nat) {
    forall k :: 0 <= k < SLOTS && leases[k].Held? ==>
      leases[k].since <= now && leases[k].duration == StageTime(leases[k].stage)
  }

  /** The ACK that granted this client this slot at this time, with nothing given back since. */
  predicate Backs(log: seq<Event>, k: int, slot: int, c: Client, until: nat) {
    && 0 <= k < |log| && log[k].Gave? && log[k].bound && log[k].slot == slot && log[k].client == c
    && log[k].until == until && !GaveBack(log, k, |log|, slot, c)
  }

  ghost predicate Backed(log: seq<Event>, slot: int, c: Client, until: nat) {
    exists k :: Backs(log, k, slot, c, until)
  }

  /** Every binding in the table was granted by an ACK that still stands. */
  ghost predicate Logged(log: seq<Event>, leases: Leases) {
    forall k :: 0 <= k < SLOTS && leases[k].Held? && leases[k].stage.Bound? ==>
      Backed(log, k, leases[k].client, Until(leases[k]))
  }

  /** An ACK promises a whole lease; an OFFER promises OFFER_MS, or what is left of the lease that its
      client already holds. */
  ghost predicate Promises(log: seq<Event>, i: int)
    requires 0 <= i < |log|
  {
    log[i].Gave? ==>
      var e := log[i];
      if e.bound then e.until == e.at + LEASE_MS
      else e.until == e.at + OFFER_MS || (e.at < e.until && Backed(log[..i], e.slot, e.client, e.until))
  }

  ghost predicate Inv(s: State) {
    && OneEach(s.server.leases) && Timed(s.server.leases, s.now) && Logged(s.log, s.server.leases)
    && (forall i :: 0 <= i < |s.log| ==> Promises(s.log, i))
    && (forall i :: 0 <= i < |s.log| ==> SlotEvent(s.log[i]) && s.log[i].at <= s.now && Guarded(s.log, s.server.leases, s.now, i))
    && Safe(s.log)
  }

  // ---- Sweeping ----

  lemma SweepGuards(leases: Leases, e: Event, now: nat)
    requires SlotEvent(e) && Guards(leases[e.slot], e)
    ensures Over(e, now) || Guards(Swept(leases, now)[e.slot], e)
  {
  }

  lemma SweepKeeps(s: State, now: nat)
    requires Inv(s) && s.now <= now
    ensures Inv(State(Server(s.server.ip, Swept(s.server.leases, now)), now, s.log))
  {
    hide Safe, Guards, Over, GaveBack, Swept, Timed, Logged, Promises, OneEach;
    forall i | 0 <= i < |s.log| ensures Guarded(s.log, Swept(s.server.leases, now), now, i) {
      assert Guarded(s.log, s.server.leases, s.now, i);
      if Guards(s.server.leases[s.log[i].slot], s.log[i]) {
        SweepGuards(s.server.leases, s.log[i], now);
      }
      if Over(s.log[i], s.now) {
        StaysOver(s.log[i], s.now, now);
      }
    }
    SweepOne(s.server.leases, now);
    SweepTimed(s.log, s.server.leases, s.now, now);
  }

  lemma SweepTimed(log: seq<Event>, leases: Leases, past: nat, now: nat)
    requires Timed(leases, past) && Logged(log, leases) && past <= now
    ensures Timed(Swept(leases, now), now) && Logged(log, Swept(leases, now))
  {
    hide Backed;
  }

  lemma StaysOver(e: Event, past: nat, now: nat)
    requires Over(e, past) && past <= now
    ensures Over(e, now)
  {
  }

  lemma SweepOne(leases: Leases, now: nat)
    requires OneEach(leases)
    ensures OneEach(Swept(leases, now))
  {
  }

  // ---- One event ----

  /** What the table must show before an event and how the event changes it. */
  predicate Legal(leases: Leases, leases': Leases, e: Event, now: nat) {
    && SlotEvent(e) && e.at == now
    && (forall k :: 0 <= k < SLOTS && k != e.slot ==> leases'[k] == leases[k])
    && (var l, l' := leases[e.slot], leases'[e.slot];
        match e
        case Gave(_, c, bound, at, until) =>
          && (Live(l, c) || (l.Free? && forall k :: 0 <= k < SLOTS ==> !Live(leases[k], c)))
          && Live(l', c) && until == Until(l') && Until(l) <= until
          && now < until
          && l' == (if bound then Held(Bound, c, now, LEASE_MS)
                    else if l.Held? && l.stage.Bound? then l else Held(Offered, c, now, OFFER_MS))
        case Freed(_, c, _) => Live(l, c) && l'.Free?
        case Quarantined(_, c, _) => Live(l, c) && l'.Held? && l'.stage.Declined? && l'.since == now && Guards(l', e))
  }

  lemma GaveBackGrows(log: seq<Event>, e: Event, i: int, slot: int, c: Client)
    requires 0 <= i < |log|
    ensures GaveBack(log, i, |log|, slot, c) ==> GaveBack(log + [e], i, |log|, slot, c)
    ensures GaveBack(log + [e], i, |log|, slot, c) ==> GaveBack(log + [e], i, |log| + 1, slot, c)
    ensures (e.Freed? || e.Quarantined?) && e.slot == slot && e.client == c ==> GaveBack(log + [e], i, |log| + 1, slot, c)
  {
    var all := log + [e];
    if GaveBack(log, i, |log|, slot, c) {
      var k :| 0 <= i < k < |log| && (log[k].Freed? || log[k].Quarantined?) && log[k].slot == slot && log[k].client == c;
      assert all[k] == log[k];
    }
    if (e.Freed? || e.Quarantined?) && e.slot == slot && e.client == c {
      assert all[|log|] == e;
    }
  }

  lemma GuardKept(log: seq<Event>, leases: Leases, leases': Leases, e: Event, now: nat, i: int)
    requires 0 <= i < |log| && SlotEvent(log[i]) && log[i].at <= now && Guarded(log, leases, now, i) && Legal(leases, leases', e, now)
    ensures Guarded(log + [e], leases', now, i)
  {
    hide GaveBack;
    var all := log + [e];
    assert all[i] == log[i];
    var slot := log[i].slot;
    GaveBackGrows(log, e, i, slot, log[i].client);
    if Guards(leases[slot], log[i]) && e.slot != slot {
      assert leases'[slot] == leases[slot];
    }
  }

  lemma PairKept(log: seq<Event>, e: Event, i: int, j: int)
    requires 0 <= i < j < |log| && Respected(log, i, j) && Isolated(log, i, j)
    ensures Respected(log + [e], i, j) && Isolated(log + [e], i, j)
  {
    var all := log + [e];
    assert all[i] == log[i] && all[j] == log[j];
    if GaveBack(log, i, j, log[i].slot, log[i].client) {
      var k :| 0 <= i < k < j && (log[k].Freed? || log[k].Quarantined?) && log[k].slot == log[i].slot && log[k].client == log[i].client;
      assert all[k] == log[k];
    }
  }

  lemma PairNew(log: seq<Event>, leases: Leases, leases': Leases, e: Event, now: nat, i: int)
    requires 0 <= i < |log| && SlotEvent(log[i]) && Guarded(log, leases, now, i) && Legal(leases, leases', e, now)
    ensures Respected(log + [e], i, |log|) && Isolated(log + [e], i, |log|)
  {
    hide GaveBack;
    var all := log + [e];
    assert all[i] == log[i] && all[|log|] == e;
    GaveBackGrows(log, e, i, log[i].slot, log[i].client);
  }

  lemma OneKept(leases: Leases, leases': Leases, e: Event, now: nat)
    requires OneEach(leases) && Legal(leases, leases', e, now)
    ensures OneEach(leases')
  {
    forall i, j | 0 <= i < j < SLOTS && leases'[i].Held? && Live(leases'[i], leases'[i].client)
      ensures !Live(leases'[j], leases'[i].client)
    {
      if e.slot == i || e.slot == j {
        var other := if e.slot == i then j else i;
        assert leases'[other] == leases[other];
      }
    }
  }

  lemma NotGivenBack(log: seq<Event>, e: Event, k: int, slot: int, c: Client)
    requires 0 <= k < |log| && !GaveBack(log, k, |log|, slot, c)
    requires e.slot != slot || e.Gave?
    ensures !GaveBack(log + [e], k, |log| + 1, slot, c)
  {
  }

  lemma BackedGrows(log: seq<Event>, e: Event, slot: int, c: Client, until: nat)
    requires Backed(log, slot, c, until) && (e.slot != slot || e.Gave?)
    ensures Backed(log + [e], slot, c, until)
  {
    hide GaveBack;
    var k :| Backs(log, k, slot, c, until);
    NotGivenBack(log, e, k, slot, c);
    assert (log + [e])[k] == log[k];
    assert Backs(log + [e], k, slot, c, until);
  }

  lemma LoggedKept(log: seq<Event>, leases: Leases, leases': Leases, e: Event, now: nat)
    requires Logged(log, leases) && Legal(leases, leases', e, now)
    ensures Logged(log + [e], leases')
  {
    hide Backed, GaveBack;
    forall k | 0 <= k < SLOTS && leases'[k].Held? && leases'[k].stage.Bound?
      ensures Backed(log + [e], k, leases'[k].client, Until(leases'[k]))
    {
      if k == e.slot && e.Gave? && e.bound {
        NewBacks(log, e);
      } else {
        assert leases'[k] == leases[k];
        BackedGrows(log, e, k, leases[k].client, Until(leases[k]));
      }
    }
  }

  lemma NewBacks(log: seq<Event>, e: Event)
    requires e.Gave? && e.bound
    ensures Backed(log + [e], e.slot, e.client, e.until)
  {
    assert (log + [e])[|log|] == e;
    assert Backs(log + [e], |log|, e.slot, e.client, e.until);
  }

  lemma TimedKept(leases: Leases, leases': Leases, e: Event, now: nat)
    requires Timed(leases, now) && Legal(leases, leases', e, now)
    ensures Timed(leases', now)
  {
    forall k | 0 <= k < SLOTS && leases'[k].Held?
      ensures leases'[k].since <= now && leases'[k].duration == StageTime(leases'[k].stage)
    {
      if k != e.slot {
        assert leases'[k] == leases[k];
      }
    }
  }

  lemma PromisesKept(log: seq<Event>, leases: Leases, leases': Leases, e: Event, now: nat, i: int)
    requires 0 <= i <= |log| && (i < |log| ==> Promises(log, i)) && Logged(log, leases) && Legal(leases, leases', e, now)
    ensures Promises(log + [e], i)
  {
    hide Backed;
    assert (log + [e])[..i] == log[..i];
    if i < |log| {
      assert (log + [e])[i] == log[i];
    } else {
      assert log[..i] == log;
    }
  }

  lemma EventKeeps(s: State, leases': Leases, e: Event)
    requires Inv(s) && Legal(s.server.leases, leases', e, s.now)
    ensures Inv(State(Server(s.server.ip, leases'), s.now, s.log + [e]))
  {
    hide Legal, OneEach, Timed, Logged, Promises, Respected, Isolated, Guarded;
    var leases, log := s.server.leases, s.log;
    var all := log + [e];
    OneKept(leases, leases', e, s.now);
    TimedKept(leases, leases', e, s.now);
    LoggedKept(log, leases, leases', e, s.now);
    NewGuarded(leases, leases', log, e, s.now);
    forall i | 0 <= i < |all| ensures Promises(all, i) {
      PromisesKept(log, leases, leases', e, s.now, i);
    }
    forall i | 0 <= i < |all| ensures SlotEvent(all[i]) && all[i].at <= s.now && Guarded(all, leases', s.now, i) {
      if i < |log| {
        GuardKept(log, leases, leases', e, s.now, i);
      }
    }
    forall i, j | 0 <= i < j < |all| ensures Respected(all, i, j) && Isolated(all, i, j) {
      if j < |log| {
        PairKept(log, e, i, j);
      } else {
        PairNew(log, leases, leases', e, s.now, i);
      }
    }
  }

  lemma NewGuarded(leases: Leases, leases': Leases, log: seq<Event>, e: Event, now: nat)
    requires Legal(leases, leases', e, now)
    ensures SlotEvent(e) && e.at <= now && (log + [e])[|log|] == e && Guarded(log + [e], leases', now, |log|)
  {
  }

  // ---- Every run ----

  predicate Unexpired(leases: Leases, now: nat) {
    forall k :: 0 <= k < SLOTS ==> !Expired(leases[k], now)
  }

  lemma SweptUnexpired(leases: Leases, now: nat)
    ensures Unexpired(Swept(leases, now), now)
  {
  }

  /** Every event receive() records is legal for the swept table. */
  lemma AnsweredLegal(ip: Address, leases: Leases, p: seq<byte>, o: Fields, now: nat, sent: bool)
    requires |p| >= OPTIONS && ClientFits(o.client) && Timed(leases, now) && Unexpired(leases, now)
    ensures var (server, _, events) := Answered(ip, leases, p, o, now, sent);
      && server.ip == ip && |events| <= 1 && (events == [] ==> server.leases == leases)
      && (events != [] ==> Legal(leases, server.leases, events[0], now))
  {
    hide Reply, DecideRequest, DecideDiscover, SlotOf, Zero;
    var c := ClientOf(p, o);
    var d := Decide(ip, OwnedIn(leases, c), FreeIn(leases), p[12..16], o);
    DecisionTypes(ip, OwnedIn(leases, c), FreeIn(leases), p[12..16], o);
    hide Decide, ClientOf;
  }

  lemma StepKeeps(s: State, i: Input)
    requires Inv(s) && s.now <= i.now
    ensures Inv(Next(s, i)) && Next(s, i).server.ip == s.server.ip
  {
    hide Inv, Answered, Parse, WellFormed, Swept;
    ClockKeeps(s, i.now);
    assert s.log + [] == s.log;
    if WellFormed(i.d) && Parse(i.d.bytes).Some? {
      var o := Parse(i.d.bytes).value;
      ParsedClient(i.d.bytes);
      WellFormedLong(i.d);
      var leases := Swept(s.server.leases, i.now);
      var swept := State(Server(s.server.ip, leases), i.now, s.log);
      SweepKeeps(s, i.now);
      SweptUnexpired(s.server.leases, i.now);
      InvTimed(swept);
      AnsweredLegal(s.server.ip, leases, i.d.bytes, o, i.now, i.sent);
      var (server, _, events) := Answered(s.server.ip, leases, i.d.bytes, o, i.now, i.sent);
      if events != [] {
        assert events == [events[0]];
        EventKeeps(swept, server.leases, events[0]);
        assert server == Server(s.server.ip, server.leases);
      } else {
        assert server == Server(s.server.ip, leases);
      }
    }
  }

  lemma InvTimed(s: State)
    requires Inv(s)
    ensures Timed(s.server.leases, s.now) && OneEach(s.server.leases)
  {
    hide Safe, OneEach, Timed, Logged, Promises;
  }

  lemma WellFormedLong(d: Datagram)
    requires WellFormed(d)
    ensures |d.bytes| >= OPTIONS
  {
  }

  lemma ClockKeeps(s: State, now: nat)
    requires Inv(s) && s.now <= now
    ensures Inv(s.(now := now))
  {
    hide Safe, Guards, Over, GaveBack, Logged, Promises, OneEach;
    forall i | 0 <= i < |s.log| ensures Guarded(s.log, s.server.leases, now, i) {
      assert Guarded(s.log, s.server.leases, s.now, i);
      if Over(s.log[i], s.now) {
        StaysOver(s.log[i], s.now, now);
      }
    }
  }

  lemma {:induction false} RunKeeps(ip: Address, inputs: seq<Input>)
    requires Monotone(inputs)
    ensures Inv(Exec(ip, inputs)) && Exec(ip, inputs).server.ip == ip
    ensures inputs != [] ==> Exec(ip, inputs).now == inputs[|inputs| - 1].now
    decreases |inputs|
  {
    hide Received;
    if inputs == [] {
      assert forall k :: 0 <= k < SLOTS ==> Start(ip).server.leases[k] == Free;
    } else {
      hide Inv;
      var n := |inputs| - 1;
      RunKeeps(ip, inputs[..n]);
      StepKeeps(Exec(ip, inputs[..n]), inputs[n]);
    }
  }

  /** Once an OFFER or an ACK gives an address, none gives it to another client before `until`, unless the
      holder released or declined it. `until` is a whole lease after an ACK, and after an OFFER it is
      OFFER_MS or the end of the lease its client already had. A declined address goes to nobody for a
      minute, and no client ever holds two live slots. */
  lemma LeaseSafety(ip: Address, inputs: seq<Input>)
    requires Monotone(inputs)
    ensures var s := Exec(ip, inputs);
      OneEach(s.server.leases) && Safe(s.log) && forall i :: 0 <= i < |s.log| ==> Promises(s.log, i)
  {
    RunKeeps(ip, inputs);
    hide Exec, Monotone, OneEach, Safe, Timed, Logged, Promises;
  }
}
