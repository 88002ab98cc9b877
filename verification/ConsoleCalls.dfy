/**
 What each console call does when nothing interrupts it: poll() and stop() on
 core 0, sketch_write(), sketch_read() and sketch_boundary() on core 1, run from
 their first atomic access to their return.
 */
module ConsoleCalls {
  import opened Bytes
  import opened Queue
  import opened Console
  import opened ConsoleIsolation
  import opened ConsoleOwner

  // ---- Running a call to its end ----

  function Left0(c: Core0): nat {
    match c
    case Idle => 0
    case Pumping(p) => (match p
      case PushStore(_, _) => 1 case PushRoom(_) => 2 case LoadRoom => 3 case WriteHost(_) => 4 case FreeOut(_) => 5
      case TakeOut => 6)
    case Opening(o) => (match o case EnableOutput => 7 case EnableInput => 8 case FreeStale => 9 case TakeStale => 10)
    case Rejecting(take) => if take then 2 else 1
    case LoadAck => 11
    case Changing(k, _) => match k case Bump => 12 case DisableOutput => 13 case DisableInput => 14
  }

  function Left1(c: Core1): nat {
    match c
    case Running => 0
    case WriteStore(_, _) => 1 case WriteRoom(_) => 2 case WriteCheck(_) => 3
    case Draining(_, d) => (match d case DrainAck => 1 case DrainFree => 2 case DrainTake => 3)
    case BoundaryLoad => 4
    case Popping(_, p) => (match p case RecheckEnabled(_) => 1 case RecheckEpoch(_) => 2 case PopFree(_) => 3 case PopTake => 4)
    case ReadEnabled(_) => 5 case ReadEpoch => 6
  }

  lemma Nearer0(s: State, scratch: bool)
    requires !s.c0.Idle?
    ensures Left0(Core0Next(s, scratch).c0) < Left0(s.c0)
  {
    hide Same, Taken, InEpoch;
  }

  lemma Nearer1(s: State)
    requires !s.c1.Running?
    ensures Left1(Core1Next(s).c1) < Left1(s.c1)
  {
    hide Same, Taken, Mark;
  }

  /** Core 0 alone, until its call returns. */
  function Finish0(s: State, scratch: bool): (t: State)
    ensures t.c0.Idle?
    decreases Left0(s.c0)
  {
    if s.c0.Idle? then s else Nearer0(s, scratch); Finish0(Core0Next(s, scratch), scratch)
  }

  /** Core 1 alone, until its call returns. */
  function Finish1(s: State): (t: State)
    ensures t.c1.Running?
    decreases Left1(s.c1)
  {
    if s.c1.Running? then s else Nearer1(s); Finish1(Core1Next(s))
  }

  lemma Unfold0(s: State, scratch: bool)
    requires !s.c0.Idle?
    ensures Finish0(s, scratch) == Finish0(Core0Next(s, scratch), scratch)
  {
    hide Core0Next;
    Nearer0(s, scratch);
  }

  lemma Unfold1(s: State)
    requires !s.c1.Running?
    ensures Finish1(s) == Finish1(Core1Next(s))
  {
    hide Core1Next;
    Nearer1(s);
  }

  lemma Done0(s: State, scratch: bool)
    requires s.c0.Idle?
    ensures Finish0(s, scratch) == s
  {
  }

  lemma Done1(s: State)
    requires s.c1.Running?
    ensures Finish1(s) == s
  {
  }

  // ---- core 0 ----

  /** A ring with everything taken from it. */
  function Emptied(f: Fifo<Tag>): Fifo<Tag> {
    Fifo(f.sent, |f.sent|, |f.sent|)
  }

  /** The oldest queued bytes that the host's buffer has room for. */
  function Delivered(s: State): seq<Tag> {
    Queued(s.from)[..Max(0, Min(|Queued(s.from)|, CAPACITY - |s.end.tx|))]
  }

  /** The oldest bytes from the host that the sketch's ring has room for. */
  function Forwarded(s: State): seq<Tag> {
    s.end.rx[..Max(0, Min(|s.end.rx|, s.to.Free()))]
  }

  /** One exchange in each direction. */
  function Exchanged(s: State): State {
    var out, data := Delivered(s), Forwarded(s);
    s.(end := s.end.(tx := s.end.tx + out, rx := s.end.rx[|data|..]),
       from := Fifo(s.from.sent, s.from.taken + |out|, s.from.taken + |out|),
       to := s.to.(sent := s.to.sent + InEpoch(data, s.ctl.epoch)),
       c0 := Idle)
  }

  lemma PassOut(s: State, scratch: bool)
    requires s.c0 == Pumping(TakeOut) && s.end.active && s.from.Valid() && |s.end.tx| <= CAPACITY
    ensures var out := Delivered(s);
      Finish0(s, scratch) == Finish0(s.(end := s.end.(tx := s.end.tx + out), c0 := Pumping(LoadRoom),
                                        from := Fifo(s.from.sent, s.from.taken + |out|, s.from.taken + |out|)), scratch)
  {
    hide Finish0, Same;
    var out := Delivered(s);
    var n := CAPACITY - |s.end.tx|;
    assert Taken(s.from, n) == out;
    Unfold0(s, scratch);
    var s1 := Core0Next(s, scratch);
    assert s1.c0 == Pumping(FreeOut(out));
    Unfold0(s1, scratch);
    var s2 := Core0Next(s1, scratch);
    Unfold0(s2, scratch);
    assert out[..|out|] == out;
  }

  lemma PassIn(s: State, scratch: bool)
    requires s.c0 == Pumping(LoadRoom) && s.end.active && s.to.Valid() && !s.log.failed
    ensures var data := Forwarded(s);
      Finish0(s, scratch) == s.(end := s.end.(rx := s.end.rx[|data|..]), c0 := Idle,
                                to := s.to.(sent := s.to.sent + InEpoch(data, s.ctl.epoch)))
  {
    hide Finish0, Same;
    var data := Forwarded(s);
    Unfold0(s, scratch);
    var s1 := Core0Next(s, scratch);
    if data == [] {
      assert s.end.rx[0..] == s.end.rx && s.to.sent + InEpoch(data, s.ctl.epoch) == s.to.sent;
      Done0(s1, scratch);
    } else {
      var marked := InEpoch(data, s.ctl.epoch);
      assert s1.c0 == Pumping(PushRoom(marked));
      Unfold0(s1, scratch);
      var s2 := Core0Next(s1, scratch);
      Unfold0(s2, scratch);
      assert marked[..|marked|] == marked;
      Done0(Core0Next(s2, scratch), scratch);
    }
  }

  lemma PumpAlone(s: State, scratch: bool)
    requires s.c0 == Pumping(TakeOut) && s.end.active && s.from.Valid() && s.to.Valid() && |s.end.tx| <= CAPACITY && !s.log.failed
    ensures Finish0(s, scratch) == Exchanged(s)
  {
    hide Finish0, Queued, InEpoch;
    PassOut(s, scratch);
    var out := Delivered(s);
    PassIn(s.(end := s.end.(tx := s.end.tx + out), c0 := Pumping(LoadRoom),
              from := Fifo(s.from.sent, s.from.taken + |out|, s.from.taken + |out|)), scratch);
  }

  lemma RejectAlone(s: State, scratch: bool)
    requires s.c0 == Rejecting(true) && s.from.Valid()
    ensures Finish0(s, scratch) == s.(from := Emptied(s.from), c0 := Idle)
  {
    hide Finish0;
    Unfold0(s, scratch);
    var s1 := Core0Next(s, scratch);
    Unfold0(s1, scratch);
    Done0(Core0Next(s1, scratch), scratch);
  }

  lemma OpenAlone(s: State, scratch: bool)
    requires s.c0 == Opening(TakeStale) && s.from.Valid()
    ensures Finish0(s, scratch) ==
      Finish0(s.(from := Emptied(s.from), ctl := s.ctl.(inputOn := true, outputOn := true), c0 := Pumping(TakeOut)), scratch)
  {
    hide Finish0;
    Unfold0(s, scratch);
    var s1 := Core0Next(s, scratch);
    Unfold0(s1, scratch);
    var s2 := Core0Next(s1, scratch);
    Unfold0(s2, scratch);
    Unfold0(Core0Next(s2, scratch), scratch);
  }

  /** The control after a new epoch for `era`. */
  function Begun(k: Control, era: Era): Control {
    Control(k.epoch + 1, k.ack, false, false, k.eras + [era])
  }

  /** poll() as one step. A new owner begins an epoch; without an acknowledged, connected owner whatever
      the sketch wrote is dropped; the first poll() after the acknowledgement drops what is left of the
      old epoch and opens both directions; every later one passes on what fits. */
  function Polled(s: State): State {
    if Current(s.end) != s.seen then
      s.(ctl := Begun(s.ctl, Era(s.end.opening, s.end.active)), seen := Current(s.end), from := Emptied(s.from))
    else if !s.end.active || s.ctl.ack != s.ctl.epoch then s.(from := Emptied(s.from))
    else if !s.ctl.outputOn then
      Exchanged(s.(from := Emptied(s.from), ctl := s.ctl.(inputOn := true, outputOn := true)))
    else Exchanged(s)
  }

  lemma BeginAlone(s: State, scratch: bool)
    requires s.c0 == Changing(DisableInput, false)
    ensures Finish0(s, scratch) ==
      Finish0(s.(ctl := Begun(s.ctl, Era(s.end.opening, s.end.active)), seen := Current(s.end), c0 := LoadAck), scratch)
  {
    hide Finish0;
    Unfold0(s, scratch);
    var s1 := Core0Next(s, scratch);
    Unfold0(s1, scratch);
    Unfold0(Core0Next(s1, scratch), scratch);
  }

  lemma LoadAlone(s: State, scratch: bool)
    requires s.c0.LoadAck? && s.ctl.ack <= s.ctl.epoch < s.ctl.ack + WORD_SPAN
    requires s.from.Valid() && s.to.Valid() && |s.end.tx| <= CAPACITY && !s.log.failed
    ensures Finish0(s, scratch) ==
      if !s.end.active || s.ctl.ack != s.ctl.epoch then s.(from := Emptied(s.from), c0 := Idle)
      else if !s.ctl.outputOn then
        Exchanged(s.(from := Emptied(s.from), ctl := s.ctl.(inputOn := true, outputOn := true)))
      else Exchanged(s)
  {
    hide Finish0, Same, Exchanged;
    SameIff(s.ctl.epoch, s.ctl.ack);
    Unfold0(s, scratch);
    var s1 := Core0Next(s, scratch);
    if !s.end.active || s.ctl.ack != s.ctl.epoch {
      RejectAlone(s1, scratch);
    } else if !s.ctl.outputOn {
      OpenAlone(s1, scratch);
      var s2 := s1.(from := Emptied(s.from), ctl := s.ctl.(inputOn := true, outputOn := true), c0 := Pumping(TakeOut));
      PumpAlone(s2, scratch);
      IgnoresPlace(s2, s.(from := Emptied(s.from), ctl := s.ctl.(inputOn := true, outputOn := true)));
    } else {
      PumpAlone(s1, scratch);
      IgnoresPlace(s1, s);
    }
  }

  lemma IgnoresPlace(s: State, t: State)
    requires s == t.(c0 := s.c0)
    ensures Exchanged(s) == Exchanged(t)
  {
  }

  /** After every run, a poll() that nothing interrupts does exactly that. */
  lemma PollAlone(actions: seq<Action>, scratch: bool)
    requires Legal(actions) && Exec(actions).c0.Idle? && Unsaturated(Exec(actions))
    requires Unsaturated(Polled(Exec(actions)))
    ensures var s := Exec(actions); Finish0(Next(s, PollCall), scratch) == Polled(s)
  {
    hide Exec, Legal, Finish0, ReturnInv, Exchanged;
    InvRun(actions);
    var s := Exec(actions);
    Bounds(s);
    var t := Next(s, PollCall);
    if Current(s.end) != s.seen {
      BeginAlone(t, scratch);
      LoadAlone(t.(ctl := Begun(s.ctl, Era(s.end.opening, s.end.active)), seen := Current(s.end), c0 := LoadAck), scratch);
    } else {
      LoadAlone(t, scratch);
      IgnoresPlace(t, s);
      var cleared := t.(from := Emptied(s.from), ctl := s.ctl.(inputOn := true, outputOn := true));
      IgnoresPlace(cleared, cleared.(c0 := Idle));
    }
  }

  lemma Bounds(s: State)
    requires ControlInv(s) && FromInv(s) && ToInv(s)
    ensures s.ctl.ack <= s.ctl.epoch && s.from.Valid() && s.to.Valid() && |s.end.tx| <= CAPACITY && !s.log.failed
    ensures s.c0.Idle? ==> s.ctl.inputOn == s.ctl.outputOn
    ensures s.ctl.inputOn || s.ctl.outputOn ==> s.ctl.ack == s.ctl.epoch
    ensures |s.ctl.eras| == s.ctl.epoch + 1
  {
  }

  /** stop() as one step: both directions off, an epoch for the same owner, and, with a buffer to pop
      into, the sketch's unsent bytes dropped. */
  lemma StopAlone(actions: seq<Action>, scratch: bool)
    requires Legal(actions) && Exec(actions).c0.Idle?
    ensures var s := Exec(actions);
      && s.ctl.eras != []
      && Finish0(Next(s, StopCall), scratch) ==
           s.(ctl := Begun(s.ctl, s.ctl.eras[|s.ctl.eras| - 1]), from := if scratch then Emptied(s.from) else s.from,
              log := s.log.(stops := s.log.stops + {s.ctl.epoch + 1}))
  {
    hide Exec, Legal, Finish0, ReturnInv;
    InvRun(actions);
    var s := Exec(actions);
    Bounds(s);
    assert s.ctl.eras[s.ctl.epoch..] == [s.ctl.eras[s.ctl.epoch]];
    var t := Next(s, StopCall);
    Unfold0(t, scratch);
    var s1 := Core0Next(t, scratch);
    Unfold0(s1, scratch);
    var s2 := Core0Next(s1, scratch);
    Unfold0(s2, scratch);
    var s3 := Core0Next(s2, scratch);
    if scratch {
      RejectAlone(s3, scratch);
    } else {
      Done0(s3, scratch);
    }
  }

  // ---- core 1 ----

  /** sketch_write() as one step: with output on, the prefix that fits; otherwise nothing. */
  lemma WriteAlone(actions: seq<Action>, data: seq<byte>)
    requires Legal(actions) && Exec(actions).c1.Running?
    ensures var s := Exec(actions);
      && 0 <= s.from.Free()
      && Finish1(Next(s, CallWrite(data))) ==
           if s.ctl.outputOn then
             s.(from := s.from.(sent := s.from.sent + Mark(data[..Min(|data|, s.from.Free())], s.ctl.ack, 0)))
           else s
  {
    hide Exec, Legal, Finish1, ReturnInv, Mark;
    InvRun(actions);
    var s := Exec(actions);
    Bounds(s);
    var t := Next(s, CallWrite(data));
    Unfold1(t);
    var s1 := Core1Next(t);
    if s.ctl.outputOn {
      Unfold1(s1);
      var s2 := Core1Next(s1);
      Unfold1(s2);
      Done1(Core1Next(s2));
    } else {
      Done1(s1);
    }
  }

  /** sketch_read() as one step: with input on, the oldest forwarded byte, if any. */
  lemma ReadAlone(actions: seq<Action>)
    requires Legal(actions) && Exec(actions).c1.Running?
    ensures var s := Exec(actions); var f := s.to;
      Finish1(Next(s, CallRead)) ==
        if s.ctl.inputOn && Queued(f) != [] then
          s.(to := Fifo(f.sent, f.taken + 1, f.taken + 1), log := s.log.(returned := s.log.returned + [Queued(f)[0]]))
        else if s.ctl.inputOn then s.(to := Fifo(f.sent, f.taken, f.taken))
        else s
  {
    hide Exec, Legal, Finish1, ReturnInv, Same;
    InvRun(actions);
    var s := Exec(actions);
    Bounds(s);
    var t := Next(s, CallRead);
    Unfold1(t);
    var s1 := Core1Next(t);
    Unfold1(s1);
    var s2 := Core1Next(s1);
    SameIff(s.ctl.epoch, s.ctl.epoch);
    if s.ctl.inputOn {
      assert s2.c1 == Popping(s.ctl.epoch, PopTake);
      PopAlone(s2);
    } else {
      Done1(s2);
    }
  }

  lemma PopAlone(s: State)
    requires s.c1 == Popping(s.ctl.epoch, PopTake) && s.ctl.inputOn && s.to.Valid()
    ensures var f := s.to;
      Finish1(s) ==
        if Queued(f) != [] then
          s.(to := Fifo(f.sent, f.taken + 1, f.taken + 1), log := s.log.(returned := s.log.returned + [Queued(f)[0]]), c1 := Running)
        else s.(to := Fifo(f.sent, f.taken, f.taken), c1 := Running)
  {
    hide Finish1, Same;
    SameIff(s.ctl.epoch, s.ctl.epoch);
    Unfold1(s);
    var s1 := Core1Next(s);
    Unfold1(s1);
    var s2 := Core1Next(s1);
    if Queued(s.to) != [] {
      assert s1.c1.pop.got == [Queued(s.to)[0]];
      Unfold1(s2);
      var s3 := Core1Next(s2);
      Unfold1(s3);
      Done1(Core1Next(s3));
    } else {
      assert s1.c1.pop.got == [];
      Done1(s2);
    }
  }

  /** sketch_boundary() as one step: a new epoch is acknowledged, and what was forwarded before is dropped. */
  lemma BoundaryAlone(actions: seq<Action>)
    requires Legal(actions) && Exec(actions).c1.Running? && Unsaturated(Exec(actions))
    ensures var s := Exec(actions);
      Finish1(Next(s, CallBoundary)) ==
        if s.ctl.ack == s.ctl.epoch then s
        else s.(ctl := s.ctl.(ack := s.ctl.epoch), to := Emptied(s.to), log := s.log.(lost := false))
  {
    hide Exec, Legal, Finish1, ReturnInv, Same;
    InvRun(actions);
    var s := Exec(actions);
    Bounds(s);
    SameIff(s.ctl.epoch, s.ctl.ack);
    var t := Next(s, CallBoundary);
    Unfold1(t);
    var s1 := Core1Next(t);
    if s.ctl.ack == s.ctl.epoch {
      Done1(s1);
    } else {
      Unfold1(s1);
      var s2 := Core1Next(s1);
      Unfold1(s2);
      var s3 := Core1Next(s2);
      Unfold1(s3);
      Done1(Core1Next(s3));
    }
  }

  // ---- Those calls are runs ----

  lemma Extend(actions: seq<Action>, a: Action)
    requires Legal(actions)
    requires var s := Exec(actions); Unsaturated(s) && Enabled(s, a) && Unsaturated(Next(s, a))
    ensures Legal(actions + [a]) && Exec(actions + [a]) == Next(Exec(actions), a)
  {
    assert (actions + [a])[..|actions|] == actions;
  }

  lemma Step1Unsaturated(s: State)
    requires ControlInv(s) && Unsaturated(s)
    ensures Unsaturated(Core1Next(s))
  {
    hide Same, Taken, Mark;
  }

  lemma {:induction false} Runs1(actions: seq<Action>) returns (more: seq<Action>)
    requires Legal(actions) && Unsaturated(Exec(actions))
    ensures Legal(more) && Unsaturated(Exec(more)) && Exec(more) == Finish1(Exec(actions))
    decreases Left1(Exec(actions).c1)
  {
    hide Legal, Exec, Finish1, Core1Next, Unsaturated, ReturnInv, FromInv, ToInv, EndInv, ControlInv;
    var s := Exec(actions);
    if s.c1.Running? {
      more := actions;
      Done1(s);
    } else {
      InvRun(actions);
      Step1Unsaturated(s);
      Extend(actions, Core1Step);
      Unfold1(s);
      Nearer1(s);
      more := Runs1(actions + [Core1Step]);
    }
  }

  lemma RawJoin(a: seq<Tag>, b: seq<Tag>)
    ensures Raw(a + b) == Raw(a) + Raw(b)
  {
  }

  /** In an open epoch, what sketch_write() accepts reaches the host's buffer at the next poll(), behind
      what was already queued and as far as there is room. */
  lemma WriteReachesHost(actions: seq<Action>, data: seq<byte>, scratch: bool)
    requires Legal(actions) && Unsaturated(Exec(actions))
    requires var s := Exec(actions);
      s.c0.Idle? && s.c1.Running? && s.end.active && Current(s.end) == s.seen && s.ctl.outputOn && |data| <= s.from.Free()
    ensures var s := Exec(actions);
      var u := Finish0(Next(Finish1(Next(s, CallWrite(data))), PollCall), scratch);
      var all := Raw(Queued(s.from)) + data;
      0 <= CAPACITY - |s.end.tx| && Raw(u.end.tx) == Raw(s.end.tx) + all[..Min(|all|, CAPACITY - |s.end.tx|)]
  {
    hide Legal, Exec, Finish0, Finish1, ReturnInv, Raw, Mark, Unsaturated, InEpoch;
    var s := Exec(actions);
    InvRun(actions);
    Bounds(s);
    WriteAlone(actions, data);
    CallUnsaturated(s, data);
    Extend(actions, CallWrite(data));
    var more := Runs1(actions + [CallWrite(data)]);
    var t := Exec(more);
    InvRun(more);
    Bounds(t);
    PollAlone(more, scratch) by { PolledUnsaturated(t); }
    assert data[..|data|] == data;
    var marked := Mark(data, s.ctl.ack, 0);
    Appends(s.from, marked);
    RawJoin(Queued(s.from), marked);
    MarkRaw(data, s.ctl.ack);
    var out := Delivered(t);
    RawJoin(t.end.tx, out);
    RawPart(Queued(t.from), |out|);
  }

  lemma CallUnsaturated(s: State, data: seq<byte>)
    requires Unsaturated(s)
    ensures Unsaturated(Next(s, CallWrite(data)))
  {
  }

  lemma PolledUnsaturated(s: State)
    requires Unsaturated(s) && Current(s.end) == s.seen
    ensures Unsaturated(Polled(s))
  {
  }

  lemma MarkRaw(data: seq<byte>, e: nat)
    ensures Raw(Mark(data, e, 0)) == data
  {
  }

  lemma RawPart(ts: seq<Tag>, n: nat)
    requires n <= |ts|
    ensures Raw(ts[..n]) == Raw(ts)[..n]
  {
  }
}
