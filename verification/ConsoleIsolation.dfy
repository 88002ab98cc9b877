/** Console isolation: no byte crosses from one stream opening to another, in either direction. */
module ConsoleIsolation {
  import opened Bytes
  import opened Queue
  import opened Console

  // ---- Sketch to host ----

  predicate AllIn(ts: seq<Tag>, e: nat) {
    forall i :: 0 <= i < |ts| ==> ts[i].epoch == e
  }

  /** The bytes not yet taken. */
  function Queued(f: Fifo<Tag>): seq<Tag> {
    if f.taken <= |f.sent| then f.sent[f.taken..] else []
  }

  predicate UpTo(ts: seq<Tag>, e: nat) {
    forall i :: 0 <= i < |ts| ==> ts[i].epoch <= e
  }

  /** Each byte's epoch was begun for the opening it is attached to. */
  predicate Placed(eras: seq<Era>, ts: seq<Tag>) {
    forall i :: 0 <= i < |ts| ==> ts[i].epoch < |eras| && eras[ts[i].epoch].opening == ts[i].opening
  }

  /** Bytes waiting for the host of `opening`. */
  predicate Destined(eras: seq<Era>, ts: seq<Tag>, opening: nat) {
    forall i :: 0 <= i < |ts| ==> ts[i].epoch < |eras| && eras[ts[i].epoch].opening == opening
  }

  function Outgoing(c: Core0): seq<Tag> {
    if !c.Pumping? then []
    else match c.pump
         case FreeOut(out) => out
         case WriteHost(out) => out
         case _ => []
  }

  predicate Clean(s: State) {
    s.ctl.outputOn || (s.c0.Opening? && !s.c0.open.TakeStale?)
  }

  predicate FromInv(s: State) {
    && s.from.Valid() && UpTo(s.from.sent, s.ctl.ack)
    && (s.c1.WriteStore? ==> s.c1.room <= s.from.Free())
    && (Clean(s) ==> AllIn(Queued(s.from), s.ctl.epoch))
    && AllIn(Outgoing(s.c0), s.ctl.epoch)
    && |s.end.tx| + |Outgoing(s.c0)| <= CAPACITY
    && Destined(s.ctl.eras, s.end.tx, s.end.opening)
    && Placed(s.ctl.eras, s.log.hostGot)
  }

  lemma TakeAll(f: Fifo<Tag>)
    requires f.Valid()
    ensures Take(f, CAPACITY).Valid() && Queued(Take(f, CAPACITY)) == []
    ensures Taken(f, CAPACITY) == Queued(f)
  {
  }

  lemma TakeSome(f: Fifo<Tag>, n: nat)
    requires f.Valid()
    ensures Take(f, n).Valid() && |Taken(f, n)| <= n
    ensures Queued(f) == Taken(f, n) + Queued(Take(f, n))
    ensures Take(f, n).sent == f.sent && Take(f, n).Free() == f.Free()
  {
  }

  lemma GivesBack(f: Fifo<Tag>)
    requires f.Valid()
    ensures GiveBack(f).Valid() && GiveBack(f).Free() >= f.Free() && Queued(GiveBack(f)) == Queued(f)
    ensures GiveBack(f).sent == f.sent
  {
  }

  lemma Appends(f: Fifo<Tag>, data: seq<Tag>)
    requires f.Valid() && |data| <= f.Free()
    ensures Append(f, data).Valid() && Queued(Append(f, data)) == Queued(f) + data
    ensures Append(f, data).sent == f.sent + data
  {
  }

  lemma AllInSplit(a: seq<Tag>, b: seq<Tag>, e: nat)
    ensures AllIn(a + b, e) <==> AllIn(a, e) && AllIn(b, e)
  {
    assert forall i :: 0 <= i < |b| ==> b[i] == (a + b)[|a| + i];
    assert forall i :: 0 <= i < |a| ==> a[i] == (a + b)[i];
  }

  lemma TakeKeeps(f: Fifo<Tag>, n: nat, e: nat)
    requires f.Valid() && AllIn(Queued(f), e)
    ensures AllIn(Taken(f, n), e) && AllIn(Queued(Take(f, n)), e)
  {
    hide Queued, Taken, Take, AllIn;
    TakeSome(f, n);
    AllInSplit(Taken(f, n), Queued(Take(f, n)), e);
  }

  lemma FromPump(s: State)
    requires ControlInv(s) && EndInv(s) && FromInv(s) && s.c0.Pumping?
    ensures FromInv(PumpNext(s))
  {
    hide Take, GiveBack, Append, Taken, Queued, InEpoch;
    match s.c0.pump
    case TakeOut =>
      TakeSome(s.from, Max(CAPACITY - |s.end.tx|, 0));
      TakeKeeps(s.from, Max(CAPACITY - |s.end.tx|, 0), s.ctl.epoch);
    case FreeOut(_) => GivesBack(s.from);
    case _ =>
  }

  lemma FromOpen(s: State)
    requires ControlInv(s) && FromInv(s) && s.c0.Opening?
    ensures FromInv(OpenNext(s))
  {
    hide Take, GiveBack, Append, Taken, Queued;
    match s.c0.open
    case TakeStale => TakeAll(s.from); TakeSome(s.from, CAPACITY);
    case FreeStale => GivesBack(s.from);
    case _ =>
  }

  lemma FromChange(s: State, scratch: bool)
    requires ControlInv(s) && FromInv(s) && s.c0.Changing?
    ensures FromInv(ChangeNext(s, scratch))
  {
    hide Queued;
  }

  lemma FromCore0(s: State, scratch: bool)
    requires ControlInv(s) && EndInv(s) && FromInv(s) && Unsaturated(s)
    ensures FromInv(Core0Next(s, scratch))
  {
    hide Take, GiveBack, Append, Taken, Queued, ChangeNext, OpenNext, PumpNext, Same, UpTo, AllIn, Destined, Placed;
    match s.c0
    case Changing(_, _) => FromChange(s, scratch);
    case Opening(_) => FromOpen(s);
    case Pumping(_) => FromPump(s);
    case Rejecting(_) =>
      TakeSome(s.from, CAPACITY);
      GivesBack(s.from);
      if Clean(s) {
        TakeKeeps(s.from, CAPACITY, s.ctl.epoch);
      }
    case _ =>
  }

  lemma FromWrite(s: State)
    requires ControlInv(s) && FromInv(s) && s.c1.WriteStore?
    ensures FromInv(Core1Next(s))
  {
    hide Append, Queued;
    var n := Max(0, Min(|s.c1.data|, s.c1.room));
    var data := Mark(s.c1.data[..n], s.ctl.ack, 0);
    if n <= s.from.Free() {
      Appends(s.from, data);
      AllInSplit(Queued(s.from), data, s.ctl.epoch);
    }
  }

  lemma FromCore1(s: State)
    requires ControlInv(s) && FromInv(s)
    ensures FromInv(Core1Next(s))
  {
    hide Take, GiveBack, Append, Taken, Queued, Same, AllIn, Destined, Placed, PopNext;
    match s.c1
    case WriteStore(_, _) => FromWrite(s);
    case Popping(_, _) => PopFrame(s);
    case _ =>
  }

  lemma PopFrame(s: State)
    requires s.c1.Popping?
    ensures var t := PopNext(s);
      && t.ctl == s.ctl && t.from == s.from && t.end == s.end && t.c0 == s.c0
      && t.log.hostGot == s.log.hostGot && (t.c1.Running? || t.c1.Popping?)
  {
    hide Take, GiveBack, Taken, Same;
  }

  lemma FromHost(s: State, a: Action)
    requires FromInv(s) && EndInv(s) && Enabled(s, a) && !a.Core0Step? && !a.Core1Step?
    ensures FromInv(Next(s, a))
  {
    hide Queued, Mark;
  }

  lemma FromStep(s: State, a: Action)
    requires ControlInv(s) && EndInv(s) && FromInv(s) && Unsaturated(s) && Enabled(s, a)
    ensures FromInv(Next(s, a))
  {
    hide Core0Next, Core1Next, FromInv, ControlInv, EndInv;
    match a
    case Core0Step(scratch) => FromCore0(s, scratch);
    case Core1Step => FromCore1(s);
    case _ => FromHost(s, a);
  }

  // ---- Host to sketch ----

  function Incoming(c: Core0): seq<Tag> {
    if !c.Pumping? then []
    else match c.pump
         case PushRoom(data) => data
         case PushStore(data, _) => data
         case _ => []
  }

  /** A byte popped by sketch_read() and not yet returned. */
  function InFlight(c: Core1): seq<Tag> {
    if !c.Popping? then []
    else match c.pop
         case PopTake => []
         case PopFree(got) => got
         case RecheckEpoch(v) => [v]
         case RecheckEnabled(v) => [v]
  }

  predicate SentBy(ts: seq<Tag>, opening: nat) {
    forall i :: 0 <= i < |ts| ==> ts[i].opening == opening
  }

  predicate Drained(c: Core1) {
    c.Draining? && !c.drain.DrainTake?
  }

  predicate ToInv(s: State) {
    && s.to.Valid() && UpTo(s.to.sent, s.ctl.ack) && Placed(s.ctl.eras, s.to.sent)
    && AllIn(Queued(s.to), s.ctl.ack)
    && AllIn(Incoming(s.c0), s.ctl.epoch) && SentBy(Incoming(s.c0), s.end.opening)
    && |Incoming(s.c0)| <= s.to.Free()
    && (s.c0.Pumping? && s.c0.pump.PushStore? ==> |s.c0.pump.data| <= s.c0.pump.room)
    && SentBy(s.end.rx, s.end.opening)
    && (Drained(s.c1) ==> Queued(s.to) == [])
    && AllIn(InFlight(s.c1), s.ctl.ack) && |InFlight(s.c1)| <= 1
    && !s.log.failed
  }

  lemma PlacedGrows(eras: seq<Era>, more: seq<Era>, ts: seq<Tag>)
    requires Placed(eras, ts)
    ensures Placed(eras + more, ts)
  {
  }

  lemma PlacedAppend(eras: seq<Era>, a: seq<Tag>, b: seq<Tag>)
    requires Placed(eras, a) && Placed(eras, b)
    ensures Placed(eras, a + b)
  {
  }

  lemma ToPush(s: State)
    requires ControlInv(s) && EndInv(s) && ToInv(s) && s.c0.Pumping? && s.c0.pump.PushStore?
    ensures ToInv(PumpNext(s))
  {
    hide Append, Queued;
    var data := s.c0.pump.data;
    assert data[..|data|] == data;
    Appends(s.to, data);
    AllInSplit(Queued(s.to), data, s.ctl.ack);
    PlacedAppend(s.ctl.eras, s.to.sent, data);
  }

  lemma ToPump(s: State)
    requires ControlInv(s) && EndInv(s) && FromInv(s) && ToInv(s) && s.c0.Pumping?
    ensures ToInv(PumpNext(s))
  {
    hide Take, GiveBack, Append, Taken, Queued, Placed, UpTo;
    if s.c0.pump.PushStore? {
      ToPush(s);
    }
  }

  lemma ToCore0(s: State, scratch: bool)
    requires ControlInv(s) && EndInv(s) && FromInv(s) && ToInv(s)
    ensures ToInv(Core0Next(s, scratch))
  {
    hide Take, GiveBack, Append, Taken, Queued, PumpNext, Same, UpTo, AllIn, Placed, SentBy, FromInv;
    if s.c0.Pumping? {
      ToPump(s);
    } else if s.c0.Changing? && s.c0.change.Bump? {
      var more := if s.c0.stop then s.ctl.eras[Max(|s.ctl.eras| - 1, 0)..] else [Era(s.end.opening, s.end.active)];
      PlacedGrows(s.ctl.eras, more, s.to.sent);
      EmptyTags(s.ctl.epoch + 1, s.end.opening);
    } else {
      EmptyTags(s.ctl.epoch, s.end.opening);
    }
  }

  lemma EmptyTags(e: nat, opening: nat)
    ensures AllIn([], e) && SentBy([], opening)
  {
  }

  lemma ToDrain(s: State)
    requires ControlInv(s) && ToInv(s) && s.c1.Draining?
    ensures ToInv(DrainNext(s))
  {
    hide Take, GiveBack, Append, Taken, Queued, Placed;
    match s.c1.drain
    case DrainTake => TakeAll(s.to); TakeSome(s.to, CAPACITY);
    case DrainFree => GivesBack(s.to);
    case DrainAck => assert UpTo(s.to.sent, s.c1.e);
  }

  lemma ToPop(s: State)
    requires ControlInv(s) && ToInv(s) && s.c1.Popping?
    ensures ToInv(PopNext(s))
  {
    hide Take, GiveBack, Append, Taken, Queued, Placed, UpTo, Same;
    match s.c1.pop
    case PopTake => TakeSome(s.to, 1); TakeKeeps(s.to, 1, s.ctl.ack);
    case PopFree(_) => GivesBack(s.to);
    case _ =>
  }

  lemma ToCore1(s: State)
    requires ControlInv(s) && ToInv(s)
    ensures ToInv(Core1Next(s))
  {
    hide Queued, UpTo, AllIn, Placed, SentBy, PopNext, DrainNext, Same, Mark, Append;
    EmptyTags(s.ctl.ack, 0);
    match s.c1
    case Draining(_, _) => ToDrain(s);
    case Popping(_, _) => ToPop(s);
    case _ =>
  }

  lemma ToHost(s: State, a: Action)
    requires ToInv(s) && Enabled(s, a) && !a.Core0Step? && !a.Core1Step?
    ensures ToInv(Next(s, a))
  {
    hide Queued, ForOpening, UpTo, Placed;
  }

  lemma ToStep(s: State, a: Action)
    requires ControlInv(s) && EndInv(s) && FromInv(s) && ToInv(s) && Enabled(s, a)
    ensures ToInv(Next(s, a))
  {
    hide Core0Next, Core1Next, FromInv, ToInv, ControlInv, EndInv;
    match a
    case Core0Step(scratch) => ToCore0(s, scratch);
    case Core1Step => ToCore1(s);
    case _ => ToHost(s, a);
  }

  // ---- What sketch_read() returns ----

  /** The bytes of one epoch, in order. */
  function Of(ts: seq<Tag>, e: nat): seq<Tag> {
    if ts == [] then []
    else
      var n := |ts| - 1;
      Of(ts[..n], e) + if ts[n].epoch == e then [ts[n]] else []
  }

  lemma {:induction false} OfAppend(a: seq<Tag>, b: seq<Tag>, e: nat)
    ensures Of(a + b, e) == Of(a, e) + Of(b, e)
  {
    if b == [] {
      assert a + b == a;
    } else {
      var n := |b| - 1;
      assert (a + b)[..|a + b| - 1] == a + b[..n];
      OfAppend(a, b[..n], e);
    }
  }

  lemma {:induction false} OfAll(ts: seq<Tag>, at: nat, e: nat)
    requires AllIn(ts, at)
    ensures Of(ts, e) == if e == at then ts else []
  {
    if ts != [] {
      var n := |ts| - 1;
      OfAll(ts[..n], at, e);
      assert ts == ts[..n] + [ts[n]];
    }
  }

  lemma {:induction false} OfAbove(ts: seq<Tag>, k: nat, e: nat)
    requires UpTo(ts, k) && k < e
    ensures Of(ts, e) == []
  {
    if ts != [] {
      OfAbove(ts[..|ts| - 1], k, e);
    }
  }

  /** The stream up to what the sketch side has taken. */
  function Consumed(f: Fifo<Tag>): seq<Tag> {
    if f.taken <= |f.sent| then f.sent[..f.taken] else f.sent
  }

  lemma ConsumedTake(f: Fifo<Tag>, n: nat, at: nat, e: nat)
    requires f.Valid() && AllIn(Queued(f), at)
    ensures Of(Consumed(Take(f, n)), e) == Of(Consumed(f), e) + if e == at then Taken(f, n) else []
  {
    assert Consumed(Take(f, n)) == Consumed(f) + Taken(f, n);
    TakeKeeps(f, n, at);
    hide Take, Taken, Queued, Consumed;
    OfAppend(Consumed(f), Taken(f, n), e);
    OfAll(Taken(f, n), at, e);
  }

  ghost predicate Prefixes(returned: seq<Tag>, consumed: seq<Tag>) {
    forall e :: Of(returned, e) <= Of(consumed, e)
  }

  /** Core 0 has turned input off and is about to begin a new epoch. */
  predicate ClosingInput(c: Core0) {
    c.Changing? && !c.change.DisableInput?
  }

  ghost predicate ReturnInv(s: State) {
    && UpTo(s.log.returned, s.ctl.ack)
    && Prefixes(s.log.returned, Consumed(s.to))
    && (!s.log.lost ==> Of(s.log.returned, s.ctl.ack) + InFlight(s.c1) == Of(Consumed(s.to), s.ctl.ack))
    && (s.log.lost ==> !s.c1.Popping? && (s.ctl.ack < s.ctl.epoch || ClosingInput(s.c0)))
    && (s.c1.Popping? ==> s.ctl.inputOn || s.ctl.ack < s.ctl.epoch || ClosingInput(s.c0))
  }

  lemma ReturnDrain(s: State)
    requires ControlInv(s) && ToInv(s) && ReturnInv(s) && s.c1.Draining?
    ensures ReturnInv(DrainNext(s))
  {
    hide Take, GiveBack, Queued, Consumed, Of, Taken;
    match s.c1.drain
    case DrainTake =>
      forall e ensures Of(s.log.returned, e) <= Of(Consumed(Take(s.to, CAPACITY)), e) {
        ConsumedTake(s.to, CAPACITY, s.ctl.ack, e);
      }
    case DrainFree => ConsumedGiveBack(s.to);
    case DrainAck =>
      OfAbove(s.log.returned, s.ctl.ack, s.c1.e);
      ConsumedUpTo(s.to, s.ctl.ack);
      OfAbove(Consumed(s.to), s.ctl.ack, s.c1.e);
  }

  lemma ConsumedGiveBack(f: Fifo<Tag>)
    ensures Consumed(GiveBack(f)) == Consumed(f)
  {
  }

  lemma ConsumedUpTo(f: Fifo<Tag>, e: nat)
    requires UpTo(f.sent, e)
    ensures UpTo(Consumed(f), e)
  {
  }

  lemma ConsumedAppend(f: Fifo<Tag>, data: seq<Tag>)
    requires f.Valid()
    ensures Consumed(Append(f, data)) == Consumed(f)
  {
  }

  lemma ReturnPop(s: State)
    requires ControlInv(s) && ToInv(s) && ReturnInv(s) && Unsaturated(s) && s.c1.Popping?
    ensures ReturnInv(PopNext(s))
  {
    hide Take, GiveBack, Queued, Consumed, Of, Taken, Same;
    SameIff(s.ctl.epoch, s.ctl.ack);
    match s.c1.pop
    case PopTake =>
      forall e ensures Of(s.log.returned, e) <= Of(Consumed(Take(s.to, 1)), e) {
        ConsumedTake(s.to, 1, s.ctl.ack, e);
      }
      ConsumedTake(s.to, 1, s.ctl.ack, s.ctl.ack);
    case PopFree(got) => ConsumedGiveBack(s.to);
    case RecheckEpoch(v) =>
    case RecheckEnabled(v) =>
      forall e ensures Of(s.log.returned + [v], e) == Of(s.log.returned, e) + if e == s.ctl.ack then [v] else [] {
        OfAppend(s.log.returned, [v], e);
        OfAll([v], s.ctl.ack, e);
      }
      assert UpTo(s.log.returned + [v], s.ctl.ack);
  }

  lemma ReturnCore1(s: State)
    requires ControlInv(s) && ToInv(s) && ReturnInv(s) && Unsaturated(s)
    ensures ReturnInv(Core1Next(s))
  {
    hide Queued, UpTo, AllIn, Placed, SentBy, PopNext, DrainNext, Same, Mark, Append, Prefixes, Consumed, Of;
    match s.c1
    case Draining(_, _) => ReturnDrain(s);
    case Popping(_, _) => ReturnPop(s);
    case _ =>
  }

  lemma ReturnCore0(s: State, scratch: bool)
    requires ControlInv(s) && ToInv(s) && ReturnInv(s)
    ensures ReturnInv(Core0Next(s, scratch))
  {
    hide Queued, UpTo, AllIn, Placed, SentBy, Same, Append, Prefixes, Consumed, Of, Take, GiveBack, Taken, InEpoch;
    if s.c0.Pumping? && s.c0.pump.PushStore? {
      var data := s.c0.pump.data;
      ConsumedAppend(s.to, data[..Max(0, Min(|data|, s.c0.pump.room))]);
    }
  }

  lemma ReturnStep(s: State, a: Action)
    requires ControlInv(s) && ToInv(s) && ReturnInv(s) && Unsaturated(s) && Enabled(s, a)
    ensures ReturnInv(Next(s, a))
  {
    hide Core0Next, Core1Next, Prefixes, Consumed, Of, UpTo, ToInv, ControlInv, Mark, ForOpening;
    match a
    case Core0Step(scratch) => ReturnCore0(s, scratch);
    case Core1Step => ReturnCore1(s);
    case _ =>
  }

  // ---- Every run ----

  ghost predicate Inv(s: State) {
    ControlInv(s) && EndInv(s) && FromInv(s) && ToInv(s) && ReturnInv(s)
  }

  lemma {:induction false} InvRun(actions: seq<Action>)
    requires Legal(actions)
    ensures Inv(Exec(actions))
  {
    hide ControlInv, EndInv, FromInv, ToInv, ReturnInv, Next, Enabled, Unsaturated;
    if actions == [] {
      StartInv();
    } else {
      var n := |actions| - 1;
      var s, a := Exec(actions[..n]), actions[n];
      InvRun(actions[..n]);
      ControlStep(s, a);
      EndStep(s, a);
      FromStep(s, a);
      ToStep(s, a);
      ReturnStep(s, a);
    }
  }

  lemma StartInv()
    ensures Inv(START)
  {
  }

  lemma {:induction false} OfPrefix(a: seq<Tag>, n: nat, e: nat)
    requires n <= |a|
    ensures Of(a[..n], e) <= Of(a, e)
  {
    assert a == a[..n] + a[n..];
    OfAppend(a[..n], a[n..], e);
  }

  /** Every byte the host received in an opening was accepted by a sketch_write that ran after core 1
      acknowledged an epoch begun for that very opening. */
  lemma OutputIsolated(actions: seq<Action>)
    requires Legal(actions)
    ensures var s := Exec(actions);
      forall t :: t in s.log.hostGot ==> t.epoch < |s.ctl.eras| && s.ctl.eras[t.epoch].opening == t.opening
  {
    hide Exec, Legal, ControlInv, EndInv, ToInv, ReturnInv;
    InvRun(actions);
  }

  /** Every byte core 0 is about to write to the host was written by the sketch in the current epoch,
      which is the one core 1 acknowledged last. */
  lemma OutputOfThisEpoch(actions: seq<Action>)
    requires Legal(actions)
    ensures var s := Exec(actions);
      s.c0.Pumping? && s.c0.pump.WriteHost? ==>
        && s.ctl.ack == s.ctl.epoch < |s.ctl.eras| && s.ctl.eras[s.ctl.epoch] == Era(s.end.opening, true)
        && forall t :: t in s.c0.pump.out ==> t.epoch == s.ctl.epoch
  {
    hide Exec, Legal, ToInv, ReturnInv;
    InvRun(actions);
  }

  /** Within every epoch sketch_read returns a prefix of what core 0 forwarded in that epoch, and all of
      that was sent by the host of the opening the epoch was begun for. */
  lemma InputIsolated(actions: seq<Action>, e: nat)
    requires Legal(actions)
    ensures var s := Exec(actions);
      && Of(s.log.returned, e) <= Of(s.to.sent, e)
      && forall t :: t in s.to.sent ==> t.epoch < |s.ctl.eras| && s.ctl.eras[t.epoch].opening == t.opening
  {
    hide Exec, Legal, ControlInv, EndInv, FromInv, Of;
    InvRun(actions);
    var s := Exec(actions);
    assert Of(s.log.returned, e) <= Of(Consumed(s.to), e);
    OfPrefix(s.to.sent, s.to.taken, e);
  }

  /** The `false` returns of poll() on a short write or a short push never happen. */
  lemma PollNeverFails(actions: seq<Action>)
    requires Legal(actions)
    ensures !Exec(actions).log.failed
  {
    hide Exec, Legal, ControlInv, EndInv, FromInv, ReturnInv;
    InvRun(actions);
  }
}
