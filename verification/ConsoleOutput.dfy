/** Within every epoch the host receives what the sketch wrote in it, in order, from its first byte. */
module ConsoleOutput {
  import opened Bytes
  import opened Queue
  import opened Console
  import opened ConsoleIsolation
  import opened ConsoleOwner

  /** The bytes on their way to the host, oldest first: received, buffered, popped from the ring. */
  function Flow(s: State): seq<Tag> {
    s.log.hostGot + s.end.tx + Outgoing(s.c0)
  }

  function In(ts: seq<Tag>, e: nat): seq<byte> {
    Raw(Of(ts, e))
  }

  /** The current epoch was begun for the host that is connected. */
  predicate Facing(s: State) {
    |s.ctl.eras| == s.ctl.epoch + 1 && s.end.active && s.ctl.eras[s.ctl.epoch] == Era(s.end.opening, true)
  }

  /** Nothing of the current epoch has been written while output is off. */
  ghost predicate Silent(s: State) {
    !s.ctl.outputOn && !(s.c0.Changing? && s.c0.change.Bump?) ==> Of(s.from.sent, s.ctl.epoch) == []
  }

  ghost predicate Ordered(s: State) {
    && (forall e: nat :: In(Flow(s), e) <= In(Consumed(s.from), e))
    && (Facing(s) ==> In(Flow(s), s.ctl.epoch) == In(Consumed(s.from), s.ctl.epoch))
    && Sorted(Flow(s)) && UpTo(Flow(s), s.ctl.epoch)
  }

  ghost predicate OutputInv(s: State) {
    && Silent(s) && Ordered(s) && (s.c0.Rejecting? && s.end.active ==> !s.ctl.outputOn)
    && |s.ctl.eras| == s.ctl.epoch + 1 && s.ctl.eras[s.ctl.epoch].opening <= s.end.opening
  }

  // ---- Bytes of one epoch ----

  lemma InAppend(a: seq<Tag>, b: seq<Tag>, e: nat)
    ensures In(a + b, e) == In(a, e) + In(b, e)
  {
    hide Of;
    OfAppend(a, b, e);
    assert Raw(Of(a, e) + Of(b, e)) == Raw(Of(a, e)) + Raw(Of(b, e));
  }

  lemma InAll(ts: seq<Tag>, at: nat, e: nat)
    requires AllIn(ts, at)
    ensures In(ts, e) == if e == at then Raw(ts) else []
  {
    hide Of;
    OfAll(ts, at, e);
  }

  lemma InNone(ts: seq<Tag>, e: nat)
    requires Of(ts, e) == []
    ensures In(ts, e) == []
  {
  }

  lemma InPrefix(ts: seq<Tag>, n: nat, e: nat)
    requires n <= |ts|
    ensures In(ts[..n], e) <= In(ts, e)
  {
    hide In;
    assert ts == ts[..n] + ts[n..];
    InAppend(ts[..n], ts[n..], e);
  }

  /** The same bytes in the same epochs. */
  predicate Alike(a: seq<Tag>, b: seq<Tag>) {
    |a| == |b| && forall i :: 0 <= i < |a| ==> a[i].b == b[i].b && a[i].epoch == b[i].epoch
  }

  lemma {:induction false} InAlike(a: seq<Tag>, b: seq<Tag>, e: nat)
    requires Alike(a, b)
    ensures In(a, e) == In(b, e)
  {
    hide Of;
    if a == [] {
      assert a == b;
    } else {
      var n := |a| - 1;
      InAlike(a[..n], b[..n], e);
      assert a == a[..n] + [a[n]] && b == b[..n] + [b[n]];
      InAppend(a[..n], [a[n]], e);
      InAppend(b[..n], [b[n]], e);
      InAll([a[n]], a[n].epoch, e);
      InAll([b[n]], b[n].epoch, e);
      assert Raw([a[n]]) == Raw([b[n]]);
    }
  }

  // ---- Steps that leave the flow or the ring alone ----

  /** The flow is the same bytes, or a beginning of them. */
  lemma OrderedShorter(s: State, t: State, n: nat)
    requires Ordered(s) && n <= |Flow(s)| && Alike(Flow(t), Flow(s)[..n])
    requires Consumed(t.from) == Consumed(s.from) && t.ctl.epoch == s.ctl.epoch
    requires Facing(t) ==> Facing(s) && n == |Flow(s)|
    ensures Ordered(t)
  {
    hide In, Consumed, Facing, Flow;
    forall e: nat ensures In(Flow(t), e) == In(Flow(s)[..n], e) <= In(Flow(s), e) {
      InAlike(Flow(t), Flow(s)[..n], e);
      InPrefix(Flow(s), n, e);
    }
    assert n == |Flow(s)| ==> Flow(s)[..n] == Flow(s);
  }

  /** A pop that takes nothing of the current epoch, or whose bytes nobody waits for. */
  lemma OrderedDrop(s: State, t: State, n: nat)
    requires FromInv(s) && Ordered(s) && t.from == Take(s.from, n) && Flow(t) == Flow(s) && t.ctl == s.ctl
    requires Facing(t) ==> Facing(s) && Of(s.from.sent, s.ctl.epoch) == []
    ensures Ordered(t)
  {
    hide In, Flow, Facing, Of, Sorted, UpTo, FromInv;
    assert s.from.Valid() by { FromValid(s); }
    var taken := Taken(s.from, n);
    assert Consumed(t.from) == Consumed(s.from) + taken;
    forall e: nat ensures In(Consumed(s.from), e) <= In(Consumed(t.from), e) {
      InAppend(Consumed(s.from), taken, e);
    }
    if Facing(t) {
      NoneConsumed(s.from, s.ctl.epoch);
      NoneConsumed(t.from, s.ctl.epoch);
    }
  }

  lemma FromValid(s: State)
    requires FromInv(s)
    ensures s.from.Valid()
  {
  }

  lemma NoneConsumed(f: Fifo<Tag>, e: nat)
    requires Of(f.sent, e) == [] && f.taken <= |f.sent|
    ensures In(Consumed(f), e) == []
  {
    hide Of;
    OfPrefix(f.sent, f.taken, e);
  }

  // ---- Core 0 ----

  lemma OutputTake(s: State)
    requires ControlInv(s) && EndInv(s) && FromInv(s) && OutputInv(s) && s.c0.Pumping? && s.c0.pump.TakeOut?
    ensures OutputInv(PumpNext(s))
  {
    var t := PumpNext(s);
    var n := Max(CAPACITY - |s.end.tx|, 0);
    var out, e := Taken(s.from, n), s.ctl.epoch;
    TakeKeeps(s.from, n, e);
    assert Flow(t) == Flow(s) + out;
    assert Consumed(t.from) == Consumed(s.from) + out;
    hide In, Consumed, Of, Taken, Take;
    forall k: nat ensures In(Flow(t), k) <= In(Consumed(t.from), k) {
      InAppend(Flow(s), out, k);
      InAppend(Consumed(s.from), out, k);
      InAll(out, e, k);
    }
    InAppend(Flow(s), out, e);
    InAppend(Consumed(s.from), out, e);
    SortedAppend(Flow(s), out, e);
    assert Facing(s);
  }

  lemma OutputWrite(s: State)
    requires EndInv(s) && FromInv(s) && OutputInv(s) && s.c0.Pumping? && s.c0.pump.WriteHost?
    ensures OutputInv(PumpNext(s))
  {
    hide In, Consumed, Of, UpTo, Sorted;
    var out := s.c0.pump.out;
    assert out[..|out|] == out;
    assert Flow(PumpNext(s)) == Flow(s);
  }

  lemma OutputPump(s: State)
    requires ControlInv(s) && EndInv(s) && FromInv(s) && OutputInv(s) && s.c0.Pumping?
    ensures OutputInv(PumpNext(s))
  {
    if s.c0.pump.TakeOut? {
      OutputTake(s);
    } else if s.c0.pump.WriteHost? {
      OutputWrite(s);
    } else {
      hide In, Of, UpTo, Sorted, Taken, Append, InEpoch;
      ConsumedGiveBack(s.from);
      assert Flow(PumpNext(s)) == Flow(s);
    }
  }

  lemma OutputOpen(s: State)
    requires ControlInv(s) && FromInv(s) && OutputInv(s) && s.c0.Opening?
    ensures OutputInv(OpenNext(s))
  {
    hide In, Of, UpTo, Sorted, Taken, FromInv;
    ConsumedGiveBack(s.from);
    var t := OpenNext(s);
    assert Flow(t) == Flow(s);
    if s.c0.open.TakeStale? {
      OrderedDrop(s, t, CAPACITY);
    }
  }

  lemma OutputReject(s: State, scratch: bool)
    requires ControlInv(s) && FromInv(s) && OutputInv(s) && s.c0.Rejecting?
    ensures OutputInv(Core0Next(s, scratch))
  {
    hide In, Of, UpTo, Sorted, Taken, FromInv;
    ConsumedGiveBack(s.from);
    var t := Core0Next(s, scratch);
    assert Flow(t) == Flow(s);
    if s.c0.take {
      OrderedDrop(s, t, CAPACITY);
    }
  }

  lemma UpToOf(ts: seq<Tag>, k: nat, e: nat)
    requires UpTo(ts, k) && k < e
    ensures In(ts, e) == [] && Of(ts, e) == []
  {
    hide Of;
    OfAbove(ts, k, e);
  }

  lemma OutputBump(s: State, scratch: bool)
    requires ControlInv(s) && FromInv(s) && OutputInv(s) && s.c0.Changing? && s.c0.change.Bump?
    ensures OutputInv(ChangeNext(s, scratch))
  {
    hide In, Of, Sorted, Consumed;
    var t := ChangeNext(s, scratch);
    assert Flow(t) == Flow(s);
    var e := s.ctl.epoch;
    ConsumedUpTo(s.from, s.ctl.ack);
    UpToOf(Flow(s), e, e + 1);
    UpToOf(Consumed(s.from), s.ctl.ack, e + 1);
    UpToOf(s.from.sent, s.ctl.ack, e + 1);
  }

  lemma OutputChange(s: State, scratch: bool)
    requires ControlInv(s) && FromInv(s) && OutputInv(s) && s.c0.Changing?
    ensures OutputInv(ChangeNext(s, scratch))
  {
    if s.c0.change.Bump? {
      OutputBump(s, scratch);
    } else {
      hide In, Of, Sorted, UpTo, Consumed, FromInv;
      assert Flow(ChangeNext(s, scratch)) == Flow(s);
    }
  }

  lemma OutputLoad(s: State, scratch: bool)
    requires ControlInv(s) && OutputInv(s) && Unsaturated(s) && s.c0.LoadAck?
    ensures OutputInv(Core0Next(s, scratch))
  {
    hide In, Of, Sorted, UpTo, Consumed, Same;
    SameIff(s.ctl.epoch, s.ctl.ack);
    assert Flow(Core0Next(s, scratch)) == Flow(s);
  }

  lemma OutputCore0(s: State, scratch: bool)
    requires ControlInv(s) && EndInv(s) && FromInv(s) && OutputInv(s) && Unsaturated(s)
    ensures OutputInv(Core0Next(s, scratch))
  {
    hide OutputInv, ControlInv, EndInv, FromInv, Unsaturated, ChangeNext, OpenNext, PumpNext, Same;
    match s.c0
    case Changing(_, _) => OutputChange(s, scratch);
    case LoadAck => OutputLoad(s, scratch);
    case Rejecting(_) => OutputReject(s, scratch);
    case Opening(_) => OutputOpen(s);
    case Pumping(_) => OutputPump(s);
    case Idle =>
  }

  // ---- Core 1 and the host ----

  lemma OutputStore(s: State)
    requires ControlInv(s) && FromInv(s) && OutputInv(s) && s.c1.WriteStore?
    ensures OutputInv(Core1Next(s))
  {
    hide In, Of, Sorted, UpTo, Consumed, FromInv, Mark;
    var t := Core1Next(s);
    assert Flow(t) == Flow(s);
    var data := Mark(s.c1.data[..Max(0, Min(|s.c1.data|, s.c1.room))], s.ctl.ack, 0);
    FromValid(s);
    ConsumedAppend(s.from, data);
    OfAppend(s.from.sent, data, s.ctl.epoch);
    OfAll(data, s.ctl.ack, s.ctl.epoch);
  }

  lemma OutputCore1(s: State)
    requires ControlInv(s) && FromInv(s) && OutputInv(s)
    ensures OutputInv(Core1Next(s))
  {
    if s.c1.WriteStore? {
      OutputStore(s);
    } else {
      hide In, Of, Sorted, UpTo, Consumed, FromInv, ControlInv, Core1Next;
      QuietCore1(s);
      assert Flow(Core1Next(s)) == Flow(s);
    }
  }

  lemma QuietCore1(s: State)
    requires !s.c1.WriteStore?
    ensures var t := Core1Next(s);
      && t.from == s.from && t.end == s.end && t.c0 == s.c0 && t.log.hostGot == s.log.hostGot
      && t.ctl == s.ctl.(ack := t.ctl.ack)
  {
    hide Same, Take, GiveBack, Taken;
  }

  lemma OutputReceive(s: State, count: nat)
    requires OutputInv(s) && s.c0.Idle?
    ensures OutputInv(Next(s, HostReceive(count)))
  {
    hide In, Of, Sorted, UpTo, Consumed;
    var t := Next(s, HostReceive(count));
    var n := Min(count, |s.end.tx|);
    var got := ForOpening(s.end.tx[..n], s.end.opening);
    assert Flow(s)[..|Flow(s)|] == Flow(s);
    assert Flow(s) == s.log.hostGot + s.end.tx[..n] + s.end.tx[n..];
    assert Flow(t) == s.log.hostGot + got + s.end.tx[n..];
    assert Alike(Flow(t), Flow(s));
    OrderedShorter(s, t, |Flow(s)|);
  }

  lemma OutputHost(s: State, a: Action)
    requires EndInv(s) && OutputInv(s) && Enabled(s, a) && !a.Core0Step? && !a.Core1Step?
    ensures OutputInv(Next(s, a))
  {
    hide In, Of, Sorted, UpTo, Consumed, Mark, ForOpening;
    if a.HostReceive? {
      OutputReceive(s, a.count);
    } else if a.HostOpen? || a.HostClose? {
      var n := |s.log.hostGot|;
      assert Flow(s)[..n] == s.log.hostGot == Flow(Next(s, a));
      OrderedShorter(s, Next(s, a), n);
    } else {
      assert Flow(Next(s, a)) == Flow(s);
    }
  }

  lemma OutputStep(s: State, a: Action)
    requires ControlInv(s) && EndInv(s) && FromInv(s) && OutputInv(s) && Unsaturated(s) && Enabled(s, a)
    ensures OutputInv(Next(s, a))
  {
    hide Core0Next, Core1Next, FromInv, ControlInv, EndInv, OutputInv;
    match a
    case Core0Step(scratch) => OutputCore0(s, scratch);
    case Core1Step => OutputCore1(s);
    case _ => OutputHost(s, a);
  }

  lemma {:induction false} OutputRun(actions: seq<Action>)
    requires Legal(actions)
    ensures OutputInv(Exec(actions))
  {
    hide ControlInv, EndInv, FromInv, ToInv, ReturnInv, Next, Enabled, Unsaturated, OutputInv;
    if actions == [] {
      OutputStart();
    } else {
      var n := |actions| - 1;
      OutputRun(actions[..n]);
      InvRun(actions[..n]);
      OutputStep(Exec(actions[..n]), actions[n]);
    }
  }

  lemma OutputStart()
    ensures OutputInv(START)
  {
  }

  /** In every epoch the host receives a prefix of the bytes sketch_write stored in that epoch, and bytes
      of an earlier epoch never follow bytes of a later one. While the current epoch's host is connected
      nothing of that epoch is dropped: what was popped is received, buffered or in core 0's hands. */
  lemma OutputInOrder(actions: seq<Action>, e: nat)
    requires Legal(actions)
    ensures var s := Exec(actions);
      && Raw(Of(s.log.hostGot, e)) <= Raw(Of(s.from.sent, e)) && Sorted(s.log.hostGot)
      && (Facing(s) ==> Raw(Of(Flow(s), s.ctl.epoch)) == Raw(Of(Consumed(s.from), s.ctl.epoch)))
  {
    hide Exec, Legal, Of, ControlInv, EndInv, ToInv, ReturnInv, Raw, FromInv;
    OutputRun(actions);
    InvRun(actions);
    var s := Exec(actions);
    FromValid(s);
    assert Flow(s)[..|s.log.hostGot|] == s.log.hostGot;
    InPrefix(Flow(s), |s.log.hostGot|, e);
    InPrefix(s.from.sent, s.from.taken, e);
    assert forall i :: 0 <= i < |s.log.hostGot| ==> Flow(s)[i] == s.log.hostGot[i];
  }
}
