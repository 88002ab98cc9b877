/** Core 0 forwards each owner's bytes to the sketch ring in the order the owner sent them, from the first. */
module ConsoleOwner {
  import opened Bytes
  import opened Queue
  import opened Console
  import opened ConsoleIsolation

  /** The bytes of one stream opening, in order. */
  function SentIn(ts: seq<Tag>, o: nat): seq<byte> {
    if ts == [] then []
    else
      var t := ts[|ts| - 1];
      SentIn(ts[..|ts| - 1], o) + (if t.opening == o then [t.b] else [])
  }

  function Raw(ts: seq<Tag>): (s: seq<byte>)
    ensures |s| == |ts|
  {
    seq(|ts|, i requires 0 <= i < |ts| => ts[i].b)
  }

  predicate Until(ts: seq<Tag>, o: nat) {
    forall i :: 0 <= i < |ts| ==> ts[i].opening <= o
  }

  lemma {:induction false} SentAppend(a: seq<Tag>, b: seq<Tag>, o: nat)
    ensures SentIn(a + b, o) == SentIn(a, o) + SentIn(b, o)
    decreases |b|
  {
    if b == [] {
      assert a + b == a;
    } else {
      var n := |b| - 1;
      SentAppend(a, b[..n], o);
      assert (a + b)[..|a + b| - 1] == a + b[..n];
      var last := if b[n].opening == o then [b[n].b] else [];
      assert SentIn(a, o) + SentIn(b[..n], o) + last == SentIn(a, o) + (SentIn(b[..n], o) + last);
    }
  }

  lemma {:induction false} SentAll(ts: seq<Tag>, at: nat, o: nat)
    requires SentBy(ts, at)
    ensures SentIn(ts, o) == if at == o then Raw(ts) else []
    decreases |ts|
  {
    if ts != [] {
      var n := |ts| - 1;
      SentAll(ts[..n], at, o);
      assert Raw(ts) == Raw(ts[..n]) + [ts[n].b];
    }
  }

  lemma {:induction false} SentNone(ts: seq<Tag>, o: nat, later: nat)
    requires Until(ts, o) && o < later
    ensures SentIn(ts, later) == []
    decreases |ts|
  {
    if ts != [] {
      SentNone(ts[..|ts| - 1], o, later);
    }
  }

  /** What the current owner sent is what was forwarded, what is on its way, and what waits. */
  predicate Kept(sent: seq<Tag>, incoming: seq<Tag>, rx: seq<Tag>, hostSent: seq<Tag>, o: nat) {
    SentIn(hostSent, o) == SentIn(sent, o) + Raw(incoming) + Raw(rx)
  }

  ghost predicate OwnerInv(s: State) {
    && (forall o: nat :: SentIn(s.to.sent, o) <= SentIn(s.log.hostSent, o))
    && Until(s.to.sent, s.end.opening) && Until(s.log.hostSent, s.end.opening)
    && (s.end.active ==> Kept(s.to.sent, Incoming(s.c0), s.end.rx, s.log.hostSent, s.end.opening))
  }

  lemma OwnerPush(s: State)
    requires ToInv(s) && EndInv(s) && OwnerInv(s) && s.c0.Pumping? && s.c0.pump.PushStore?
    ensures OwnerInv(PumpNext(s))
  {
    hide SentIn, Raw, Queued, UpTo, Placed, AllIn;
    var data, now := s.c0.pump.data, s.end.opening;
    assert data[..|data|] == data;
    forall o: nat ensures SentIn(s.to.sent + data, o) <= SentIn(s.log.hostSent, o) {
      SentAppend(s.to.sent, data, o);
      SentAll(data, now, o);
      assert SentIn(s.to.sent, o) + [] == SentIn(s.to.sent, o);
    }
    SentAppend(s.to.sent, data, now);
    SentAll(data, now, now);
    NoRaw();
    assert SentIn(s.to.sent + data, now) + [] == SentIn(s.to.sent + data, now);
  }

  lemma NoRaw()
    ensures Raw([]) == []
  {
  }

  lemma RawSplit(rx: seq<Tag>, n: nat, e: nat, sent: seq<byte>)
    requires n <= |rx|
    ensures sent + Raw(InEpoch(rx[..n], e)) + Raw(rx[n..]) == sent + Raw([]) + Raw(rx)
  {
    assert Raw(InEpoch(rx[..n], e)) + Raw(rx[n..]) == Raw(rx);
    assert sent + Raw(InEpoch(rx[..n], e)) + Raw(rx[n..]) == sent + (Raw(InEpoch(rx[..n], e)) + Raw(rx[n..]));
    assert sent + Raw([]) == sent;
  }

  lemma OwnerLoad(s: State)
    requires OwnerInv(s) && s.c0.Pumping? && s.c0.pump.LoadRoom?
    ensures OwnerInv(PumpNext(s))
  {
    hide SentIn, Raw, InEpoch;
    var n := if s.end.active then Max(0, Min(s.to.Free(), |s.end.rx|)) else 0;
    RawSplit(s.end.rx, n, s.ctl.epoch, SentIn(s.to.sent, s.end.opening));
    assert s.end.rx[0..] == s.end.rx;
  }

  /** The parts of the state the owner's bytes are in. */
  predicate SameBytes(s: State, t: State) {
    && t.to.sent == s.to.sent && t.log.hostSent == s.log.hostSent && t.end.opening == s.end.opening
    && t.end.active == s.end.active && t.end.rx == s.end.rx && Incoming(t.c0) == Incoming(s.c0)
  }

  lemma OwnerSame(s: State, t: State)
    requires OwnerInv(s) && SameBytes(s, t)
    ensures OwnerInv(t)
  {
    hide SentIn, Raw, Incoming;
  }

  lemma QuietCore0(s: State, scratch: bool)
    requires !(s.c0.Pumping? && (s.c0.pump.PushStore? || s.c0.pump.LoadRoom?))
    ensures SameBytes(s, Core0Next(s, scratch))
  {
    hide Taken, Same;
  }

  lemma OwnerCore0(s: State, scratch: bool)
    requires ToInv(s) && EndInv(s) && OwnerInv(s)
    ensures OwnerInv(Core0Next(s, scratch))
  {
    hide OwnerInv, PumpNext, ToInv, EndInv, SameBytes;
    if s.c0.Pumping? && s.c0.pump.PushStore? {
      OwnerPush(s);
    } else if s.c0.Pumping? && s.c0.pump.LoadRoom? {
      OwnerLoad(s);
    } else {
      hide Core0Next;
      QuietCore0(s, scratch);
      OwnerSame(s, Core0Next(s, scratch));
    }
  }

  lemma OwnerCore1(s: State)
    requires OwnerInv(s)
    ensures OwnerInv(Core1Next(s))
  {
    hide SentIn, Raw, Taken, Same, Mark;
  }

  lemma OwnerOpen(s: State, owner: uint32)
    requires OwnerInv(s) && s.c0.Idle?
    ensures OwnerInv(Next(s, HostOpen(owner)))
  {
    hide SentIn;
    var o := s.end.opening;
    SentNone(s.to.sent, o, o + 1);
    SentNone(s.log.hostSent, o, o + 1);
  }

  lemma OwnerSend(s: State, data: seq<byte>)
    requires OwnerInv(s) && s.c0.Idle? && s.end.active
    ensures OwnerInv(Next(s, HostSend(data)))
  {
    hide SentIn;
    var now := s.end.opening;
    var more := Mark(data, 0, now);
    assert SentBy(more, now);
    forall o: nat ensures SentIn(s.to.sent, o) <= SentIn(s.log.hostSent + more, o) {
      SentAppend(s.log.hostSent, more, o);
    }
    SentAppend(s.log.hostSent, more, now);
    SentAll(more, now, now);
    assert Raw(s.end.rx + more) == Raw(s.end.rx) + Raw(more);
    var sent := SentIn(s.to.sent, now) + Raw([]);
    assert sent + Raw(s.end.rx) + Raw(more) == sent + (Raw(s.end.rx) + Raw(more));
  }

  lemma OwnerStep(s: State, a: Action)
    requires ToInv(s) && EndInv(s) && OwnerInv(s) && Enabled(s, a)
    ensures OwnerInv(Next(s, a))
  {
    hide SentIn, Raw, Core0Next, Core1Next, ToInv, EndInv, ForOpening, Mark;
    match a
    case Core0Step(scratch) => OwnerCore0(s, scratch);
    case Core1Step => OwnerCore1(s);
    case HostOpen(owner) => OwnerOpen(s, owner);
    case HostSend(data) => OwnerSend(s, data);
    case _ =>
  }

  lemma {:induction false} OwnerRun(actions: seq<Action>)
    requires Legal(actions)
    ensures OwnerInv(Exec(actions))
  {
    hide ControlInv, FromInv, ReturnInv, Next, Enabled, Unsaturated, OwnerInv, ToInv, EndInv;
    if actions == [] {
      OwnerStart();
    } else {
      var n := |actions| - 1;
      OwnerRun(actions[..n]);
      InvRun(actions[..n]);
      OwnerStep(Exec(actions[..n]), actions[n]);
    }
  }

  lemma OwnerStart()
    ensures OwnerInv(START)
  {
  }

  // ---- Where an epoch's bytes sit in the owner's stream ----

  /** Epochs never decrease along the stream. */
  predicate Sorted(ts: seq<Tag>) {
    forall i, j :: 0 <= i < j < |ts| ==> ts[i].epoch <= ts[j].epoch
  }

  predicate Actives(eras: seq<Era>, ts: seq<Tag>) {
    forall i :: 0 <= i < |ts| ==> ts[i].epoch < |eras| && eras[ts[i].epoch].active
  }

  /** How one epoch follows another: stop() repeats what was observed, poll() begins one only for a later
      opening or for the close of the same one. */
  predicate EraStep(a: Era, b: Era, stop: bool) {
    if stop then b == a else b.opening > a.opening || (b.opening == a.opening && a.active && !b.active)
  }

  predicate SeenOk(s: State) {
    && s.seen.generation <= s.end.opening == s.end.generation
    && (!s.end.active ==> s.end.owner == 0) && (!s.seen.active ==> s.seen.owner == 0)
    && (s.seen.generation == s.end.opening && !s.seen.active ==> !s.end.active)
    && (s.seen.generation == s.end.opening && s.seen.active && s.end.active ==> s.seen.owner == s.end.owner)
  }

  predicate EraInv(s: State) {
    && SeenOk(s) && |s.ctl.eras| == s.ctl.epoch + 1
    && s.ctl.eras[s.ctl.epoch] == Era(s.seen.generation, s.seen.active)
    && (s.c0.Changing? && !s.c0.stop ==> Current(s.end) != s.seen)
    && (forall n :: n in s.log.stops ==> n <= s.ctl.epoch)
    && (forall i :: 0 <= i < s.ctl.epoch ==> EraStep(s.ctl.eras[i], s.ctl.eras[i + 1], i + 1 in s.log.stops))
  }

  predicate OrderInv(s: State) {
    EraInv(s) && Sorted(s.to.sent) && Actives(s.ctl.eras, s.to.sent)
  }

  lemma SortedAppend(a: seq<Tag>, b: seq<Tag>, e: nat)
    requires Sorted(a) && UpTo(a, e) && AllIn(b, e)
    ensures Sorted(a + b)
  {
    var all := a + b;
    forall i, j | 0 <= i < j < |all| ensures all[i].epoch <= all[j].epoch {
      if j < |a| {
        assert all[i] == a[i] && all[j] == a[j];
      } else {
        assert all[j] == b[j - |a|];
      }
    }
  }

  lemma OrderPush(s: State)
    requires ControlInv(s) && EndInv(s) && ToInv(s) && OrderInv(s) && s.c0.Pumping? && s.c0.pump.PushStore?
    ensures OrderInv(PumpNext(s))
  {
    hide Queued, Placed, SentBy, EraStep;
    var data := s.c0.pump.data;
    assert data[..|data|] == data;
    SortedAppend(s.to.sent, data, s.ctl.epoch);
  }

  lemma OrderBump(s: State, scratch: bool)
    requires OrderInv(s) && s.c0.Changing?
    ensures OrderInv(ChangeNext(s, scratch))
  {
    hide Sorted;
    var t := ChangeNext(s, scratch);
    if s.c0.change.Bump? {
      var n := s.ctl.epoch;
      assert t.ctl.eras[..n + 1] == s.ctl.eras && |t.ctl.eras| == n + 2;
      forall i | 0 <= i < t.ctl.epoch ensures EraStep(t.ctl.eras[i], t.ctl.eras[i + 1], i + 1 in t.log.stops) {
        if i < n {
          assert t.ctl.eras[i] == s.ctl.eras[i] && t.ctl.eras[i + 1] == s.ctl.eras[i + 1];
        }
      }
    }
  }

  predicate SameOrder(s: State, t: State) {
    && t.to.sent == s.to.sent && t.log.stops == s.log.stops && t.ctl.eras == s.ctl.eras && t.ctl.epoch == s.ctl.epoch
    && t.seen == s.seen && t.end.opening == s.end.opening && t.end.generation == s.end.generation
    && t.end.active == s.end.active && t.end.owner == s.end.owner && (t.c0.Changing? ==> t.c0 == s.c0)
  }

  lemma OrderSame(s: State, t: State)
    requires OrderInv(s) && SameOrder(s, t)
    ensures OrderInv(t)
  {
    hide Sorted, Actives, EraStep;
  }

  lemma QuietOrder(s: State, scratch: bool)
    requires !s.c0.Changing? && !(s.c0.Pumping? && s.c0.pump.PushStore?)
    ensures SameOrder(s, Core0Next(s, scratch))
  {
    hide Taken, Same, InEpoch;
  }

  lemma OrderCore0(s: State, scratch: bool)
    requires ControlInv(s) && EndInv(s) && ToInv(s) && OrderInv(s)
    ensures OrderInv(Core0Next(s, scratch))
  {
    hide OrderInv, PumpNext, ChangeNext, ToInv, EndInv, ControlInv, SameOrder;
    if s.c0.Pumping? && s.c0.pump.PushStore? {
      OrderPush(s);
    } else if s.c0.Changing? {
      OrderBump(s, scratch);
    } else {
      hide Core0Next;
      QuietOrder(s, scratch);
      OrderSame(s, Core0Next(s, scratch));
    }
  }

  lemma QuietCore1(s: State)
    ensures SameOrder(s, Core1Next(s))
  {
    hide Taken, Same, Mark;
  }

  lemma OrderHost(s: State, a: Action)
    requires OrderInv(s) && Enabled(s, a) && Unsaturated(s) && Unsaturated(Next(s, a)) && !a.Core0Step? && !a.Core1Step?
    ensures OrderInv(Next(s, a))
  {
    hide Sorted, Actives, EraStep, ForOpening, Mark;
  }

  lemma OrderStep(s: State, a: Action)
    requires ControlInv(s) && EndInv(s) && ToInv(s) && OrderInv(s) && Enabled(s, a) && Unsaturated(s) && Unsaturated(Next(s, a))
    ensures OrderInv(Next(s, a))
  {
    hide Core0Next, Core1Next, ToInv, EndInv, ControlInv, OrderInv, SameOrder;
    match a
    case Core0Step(scratch) => OrderCore0(s, scratch);
    case Core1Step =>
      QuietCore1(s);
      OrderSame(s, Core1Next(s));
    case _ => OrderHost(s, a);
  }

  lemma {:induction false} OrderRun(actions: seq<Action>)
    requires Legal(actions)
    ensures OrderInv(Exec(actions))
  {
    hide FromInv, ReturnInv, Next, Enabled, Unsaturated, OrderInv, ControlInv, ToInv, EndInv;
    if actions == [] {
      OrderStart();
    } else {
      var n := |actions| - 1;
      OrderRun(actions[..n]);
      InvRun(actions[..n]);
      OrderStep(Exec(actions[..n]), actions[n]);
    }
  }

  lemma OrderStart()
    ensures OrderInv(START)
  {
  }

  /** The bytes of earlier epochs, in order. */
  function Earlier(ts: seq<Tag>, e: nat): seq<Tag> {
    if ts == [] then []
    else
      var n := |ts| - 1;
      Earlier(ts[..n], e) + if ts[n].epoch < e then [ts[n]] else []
  }

  /** How many bytes of epoch e's owner were forwarded in earlier epochs. */
  function Skipped(s: State, e: nat): nat
    requires e < |s.ctl.eras|
  {
    |SentIn(Earlier(s.to.sent, e), s.ctl.eras[e].opening)|
  }

  predicate EpochFor(ts: seq<Tag>, e: nat, o: nat) {
    forall i :: 0 <= i < |ts| && ts[i].epoch == e ==> ts[i].opening == o
  }

  lemma SentSnoc(ts: seq<Tag>, t: Tag, o: nat)
    ensures SentIn(ts + [t], o) == SentIn(ts, o) + (if t.opening == o then [t.b] else [])
  {
    assert (ts + [t])[..|ts|] == ts;
  }

  lemma RawSnoc(ts: seq<Tag>, t: Tag)
    ensures Raw(ts + [t]) == Raw(ts) + [t.b]
  {
  }

  /** The owner's forwarded bytes: those of earlier epochs, then this epoch's, then later ones. */
  lemma {:induction false} EpochSplits(ts: seq<Tag>, e: nat, o: nat)
    requires Sorted(ts) && EpochFor(ts, e, o)
    ensures SentIn(Earlier(ts, e), o) + Raw(Of(ts, e)) <= SentIn(ts, o)
    ensures UpTo(ts, e) ==> SentIn(Earlier(ts, e), o) + Raw(Of(ts, e)) == SentIn(ts, o)
    decreases |ts|
  {
    hide SentIn, Raw, UpTo;
    if ts == [] {
      NothingSent(o);
    } else {
      var n := |ts| - 1;
      var init, t := ts[..n], ts[n];
      EpochSplits(init, e, o);
      assert ts == init + [t];
      SentSnoc(init, t, o);
      UpToLast(ts, e);
      var a, b := SentIn(Earlier(init, e), o), Raw(Of(init, e));
      if t.epoch < e {
        SentSnoc(Earlier(init, e), t, o);
        OfAbove(init, t.epoch, e);
        NothingSent(o);
        assert Of(init, e) + [] == [];
        assert a + [] == a;
      } else if t.epoch == e {
        RawSnoc(Of(init, e), t);
        assert Earlier(init, e) + [] == Earlier(init, e);
        assert a + (b + [t.b]) == a + b + [t.b];
      } else {
        assert Earlier(init, e) + [] == Earlier(init, e) && Of(init, e) + [] == Of(init, e);
      }
    }
  }

  lemma NothingSent(o: nat)
    ensures SentIn([], o) == [] && Raw([]) == []
  {
  }

  lemma UpToLast(ts: seq<Tag>, e: nat)
    requires Sorted(ts) && ts != []
    ensures var n := |ts| - 1; UpTo(ts[..n], ts[n].epoch) && (ts[n].epoch <= e ==> UpTo(ts, e) && UpTo(ts[..n], e))
    ensures ts[|ts| - 1].epoch > e ==> !UpTo(ts, e)
  {
  }

  lemma {:induction false} SkipsNone(ts: seq<Tag>, e: nat, o: nat)
    ensures SentIn(Earlier(ts, e), o) == [] <==> forall i :: 0 <= i < |ts| ==> !(ts[i].opening == o && ts[i].epoch < e)
    decreases |ts|
  {
    hide SentIn;
    if ts == [] {
      NothingSent(o);
    } else {
      var n := |ts| - 1;
      SkipsNone(ts[..n], e, o);
      SentSnoc(Earlier(ts[..n], e), ts[n], o);
      assert Earlier(ts[..n], e) + [] == Earlier(ts[..n], e);
      assert forall i :: 0 <= i < n ==> ts[..n][i] == ts[i];
    }
  }

  lemma {:induction false} OpeningsRise(s: State, i: nat, e: nat)
    requires EraInv(s) && i <= e < |s.ctl.eras|
    ensures s.ctl.eras[i].opening <= s.ctl.eras[e].opening
    decreases e - i
  {
    hide SeenOk;
    if i < e {
      OpeningsRise(s, i + 1, e);
      assert EraStep(s.ctl.eras[i], s.ctl.eras[i + 1], i + 1 in s.log.stops);
    }
  }

  /** An active epoch that poll() began is the first for its opening. */
  lemma FirstForOpening(s: State, i: nat, e: nat)
    requires EraInv(s) && i < e < |s.ctl.eras| && s.ctl.eras[e].active && e !in s.log.stops
    ensures s.ctl.eras[i].opening < s.ctl.eras[e].opening
  {
    hide SeenOk;
    OpeningsRise(s, i, e - 1);
    assert EraStep(s.ctl.eras[e - 1], s.ctl.eras[e], (e - 1) + 1 in s.log.stops);
  }

  /** The bytes sketch_read returned in an epoch begun by poll(): a prefix of what its owner sent. */
  predicate FromTheStart(s: State, e: nat)
    requires e < |s.ctl.eras|
  {
    Raw(Of(s.log.returned, e)) <= SentIn(s.log.hostSent, s.ctl.eras[e].opening)
  }

  lemma EpochOfPlaced(s: State, e: nat)
    requires Placed(s.ctl.eras, s.to.sent) && e < |s.ctl.eras|
    ensures EpochFor(s.to.sent, e, s.ctl.eras[e].opening)
  {
  }

  lemma RawPrefix(a: seq<Tag>, b: seq<Tag>)
    requires a <= b
    ensures Raw(a) <= Raw(b)
  {
    assert Raw(a) == Raw(b)[..|a|];
  }

  lemma DropPrefix(a: seq<byte>, b: seq<byte>, c: seq<byte>)
    requires a + b <= c
    ensures |a| <= |c| && b <= c[|a|..]
  {
    assert b == c[|a|..][..|b|];
  }

  /** Nothing of this opening was skipped unless stop() began the epoch. */
  lemma SkippedByStop(s: State, e: nat)
    requires OrderInv(s) && Placed(s.ctl.eras, s.to.sent) && e < |s.ctl.eras| && Skipped(s, e) > 0 && s.ctl.eras[e].active
    ensures e in s.log.stops
  {
    hide SentIn, Earlier, EraInv;
    var o := s.ctl.eras[e].opening;
    SkipsNone(s.to.sent, e, o);
    var i :| 0 <= i < |s.to.sent| && s.to.sent[i].opening == o && s.to.sent[i].epoch < e;
    if e !in s.log.stops {
      FirstForOpening(s, s.to.sent[i].epoch, e);
    }
  }

  lemma NothingInactive(s: State, e: nat)
    requires Actives(s.ctl.eras, s.to.sent) && e < |s.ctl.eras| && !s.ctl.eras[e].active
    ensures Of(s.to.sent, e) == []
  {
    NoneOf(s.to.sent, e);
  }

  lemma {:induction false} NoneOf(ts: seq<Tag>, e: nat)
    requires forall i :: 0 <= i < |ts| ==> ts[i].epoch != e
    ensures Of(ts, e) == []
    decreases |ts|
  {
    if ts != [] {
      NoneOf(ts[..|ts| - 1], e);
    }
  }

  /** The bytes sketch_read returns in an epoch are consecutive bytes of what that epoch's owner sent, from
      the position after those forwarded in earlier epochs. That position is 0 exactly when none were, and so
      for every epoch that poll() began; then the bytes are a prefix of what the owner sent. */
  lemma OwnerBytesInOrder(actions: seq<Action>, e: nat)
    requires Legal(actions) && e < |Exec(actions).ctl.eras|
    ensures var s := Exec(actions); var o := s.ctl.eras[e].opening; var k := Skipped(s, e);
      && k <= |SentIn(s.log.hostSent, o)| && Raw(Of(s.log.returned, e)) <= SentIn(s.log.hostSent, o)[k..]
      && (k == 0 <==> forall t :: t in s.to.sent && t.epoch < e ==> t.opening != o)
      && (k > 0 && s.ctl.eras[e].active ==> e in s.log.stops)
      && (e !in s.log.stops ==> FromTheStart(s, e))
  {
    hide Exec, Legal, Of, SentIn, ControlInv, EndInv, FromInv, ReturnInv, Earlier, EraInv, Sorted, Actives;
    InputIsolated(actions, e);
    OwnerRun(actions);
    OrderRun(actions);
    InvRun(actions);
    Placement(Exec(actions), e);
  }

  lemma Placement(s: State, e: nat)
    requires ToInv(s) && OwnerInv(s) && OrderInv(s) && Of(s.log.returned, e) <= Of(s.to.sent, e) && e < |s.ctl.eras|
    ensures var o := s.ctl.eras[e].opening; var k := Skipped(s, e);
      && k <= |SentIn(s.log.hostSent, o)| && Raw(Of(s.log.returned, e)) <= SentIn(s.log.hostSent, o)[k..]
      && (k == 0 <==> forall t :: t in s.to.sent && t.epoch < e ==> t.opening != o)
      && (k > 0 && s.ctl.eras[e].active ==> e in s.log.stops)
      && (e !in s.log.stops ==> FromTheStart(s, e))
  {
    hide Of, SentIn, Raw, Earlier, EraInv, Sorted, Actives, UpTo, AllIn, SentBy, Until, Kept, Placed;
    var o := s.ctl.eras[e].opening;
    var skipped, mine, stream := SentIn(Earlier(s.to.sent, e), o), Raw(Of(s.to.sent, e)), SentIn(s.log.hostSent, o);
    EpochOfPlaced(s, e);
    EpochSplits(s.to.sent, e, o);
    assert skipped + mine <= stream;
    DropPrefix(skipped, mine, stream);
    RawPrefix(Of(s.log.returned, e), Of(s.to.sent, e));
    SkipsNone(s.to.sent, e, o);
    assert stream[0..] == stream;
    if Skipped(s, e) > 0 && s.ctl.eras[e].active {
      SkippedByStop(s, e);
    }
    if !s.ctl.eras[e].active {
      NothingInactive(s, e);
      NoRaw();
    }
  }
}
