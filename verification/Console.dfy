/**
 The bridge between the sketch core and the application stream. Core 0 runs
 poll() and stop() and owns the endpoint; core 1 runs sketch_boundary(),
 sketch_write() and sketch_read(). Every atomic access is one step. The two
 rings are the queues they refine: a push becomes visible at its tail store, a
 pop removes what was there at its tail load, and cells come back at its head
 store.
 */
module Console {
  import opened Bytes
  import opened Queue

  /** A byte with an epoch (acknowledged when the sketch wrote it, or current when core 0 forwarded it)
      and a stream opening (in which the host sent or received it). */
  datatype Tag = Tag(b: byte, epoch: nat, opening: nat)

  /** The opening core 0 observed when it began an epoch. */
  datatype Era = Era(opening: nat, active: bool)

  /** The atomics. Epochs are unwrapped counters; the code compares them modulo 2^32. */
  datatype Control = Control(epoch: nat, ack: nat, inputOn: bool, outputOn: bool, eras: seq<Era>)

  /** ApplicationEndpoint, used only by core 0. `opening` counts opened() calls exactly. */
  datatype Endpoint = Endpoint(active: bool, owner: uint32, generation: uint32, opening: nat,
                               rx: seq<Tag>, tx: seq<Tag>)

  datatype Seen = Seen(owner: uint32, generation: uint32, active: bool)

  datatype ChangeStep = DisableInput | DisableOutput | Bump
  datatype OpenStep = TakeStale | FreeStale | EnableInput | EnableOutput
  datatype PumpStep =
    | TakeOut | FreeOut(out: seq<Tag>) | WriteHost(out: seq<Tag>)
    | LoadRoom | PushRoom(data: seq<Tag>) | PushStore(data: seq<Tag>, room: int)

  /** Where poll() or stop() is. */
  datatype Core0 =
    | Idle
    | Changing(change: ChangeStep, stop: bool) // a new owner, or stop(): disable and begin an epoch
    | LoadAck
    | Rejecting(take: bool)                    // discard_output without an acknowledged owner
    | Opening(open: OpenStep)                  // first poll() after the acknowledgement
    | Pumping(pump: PumpStep)

  datatype DrainStep = DrainTake | DrainFree | DrainAck
  datatype PopStep = PopTake | PopFree(got: seq<Tag>) | RecheckEpoch(v: Tag) | RecheckEnabled(v: Tag)

  /** Which sketch call core 1 is in, and where. */
  datatype Core1 =
    | Running
    | BoundaryLoad | Draining(e: nat, drain: DrainStep)
    | WriteCheck(data: seq<byte>) | WriteRoom(data: seq<byte>) | WriteStore(data: seq<byte>, room: int)
    | ReadEpoch | ReadEnabled(e: nat) | Popping(e: nat, pop: PopStep)

  /** Bytes returned by sketch_read, bytes the host sent and received, whether a byte of the acknowledged
      epoch was dropped, whether poll() ever returned false, and the epochs begun by stop(). */
  datatype History = History(returned: seq<Tag>, hostSent: seq<Tag>, hostGot: seq<Tag>, lost: bool, failed: bool,
                             stops: set<nat>)

  datatype State = State(ctl: Control, to: Fifo<Tag>, from: Fifo<Tag>, end: Endpoint, seen: Seen,
                         c0: Core0, c1: Core1, log: History)

  datatype Action =
    | PollCall | StopCall | Core0Step(scratch: bool) | Core1Step
    | CallBoundary | CallWrite(data: seq<byte>) | CallRead
    | HostOpen(owner: uint32) | HostClose | HostSend(data: seq<byte>) | HostReceive(count: nat)

  const START := State(Control(0, 0, false, false, [Era(0, false)]), Fifo([], 0, 0), Fifo([], 0, 0),
                       Endpoint(false, 0, 0, 0, [], []), Seen(0, 0, false), Idle, Running,
                       History([], [], [], false, false, {}))

  predicate Same(a: nat, b: nat) {
    Wrap32(a) == Wrap32(b)
  }

  function Current(end: Endpoint): Seen {
    Seen(end.owner, end.generation, end.active)
  }

  predicate Enabled(s: State, a: Action) {
    match a
    case PollCall | StopCall => s.c0.Idle?
    case Core0Step(_) => !s.c0.Idle?
    case Core1Step => !s.c1.Running?
    case CallBoundary | CallWrite(_) | CallRead => s.c1.Running?
    case HostOpen(owner) => s.c0.Idle? && !s.end.active && owner != 0
    case HostClose | HostReceive(_) => s.c0.Idle? && s.end.active
    case HostSend(data) => s.c0.Idle? && s.end.active && |s.end.rx| + |data| <= CAPACITY
  }

  /** The bytes a pop of `count` removes. */
  function Taken(f: Fifo<Tag>, count: nat): seq<Tag> {
    if f.taken <= |f.sent| then f.sent[f.taken..Take(f, count).taken] else []
  }

  function Mark(data: seq<byte>, epoch: nat, opening: nat): (t: seq<Tag>)
    ensures |t| == |data|
    ensures forall i :: 0 <= i < |t| ==> t[i] == Tag(data[i], epoch, opening)
  {
    seq(|data|, i requires 0 <= i < |data| => Tag(data[i], epoch, opening))
  }

  function InEpoch(data: seq<Tag>, epoch: nat): (t: seq<Tag>)
    ensures |t| == |data|
    ensures forall i :: 0 <= i < |t| ==> t[i] == data[i].(epoch := epoch)
  {
    seq(|data|, i requires 0 <= i < |data| => data[i].(epoch := epoch))
  }

  function ForOpening(data: seq<Tag>, opening: nat): (t: seq<Tag>)
    ensures |t| == |data|
    ensures forall i :: 0 <= i < |t| ==> t[i] == data[i].(opening := opening)
  {
    seq(|data|, i requires 0 <= i < |data| => data[i].(opening := opening))
  }

  function ChangeNext(s: State, scratch: bool): State
    requires s.c0.Changing?
  {
    var k := s.ctl;
    match s.c0.change
    case DisableInput => s.(ctl := k.(inputOn := false), c0 := s.c0.(change := DisableOutput))
    case DisableOutput => s.(ctl := k.(outputOn := false), c0 := s.c0.(change := Bump))
    case Bump =>
      if s.c0.stop then
        s.(ctl := k.(epoch := k.epoch + 1, eras := k.eras + k.eras[Max(|k.eras| - 1, 0)..]),
           log := s.log.(stops := s.log.stops + {k.epoch + 1}),
           c0 := if scratch then Rejecting(true) else Idle)
      else
        s.(ctl := k.(epoch := k.epoch + 1, eras := k.eras + [Era(s.end.opening, s.end.active)]),
           seen := Current(s.end), c0 := LoadAck)
  }

  function OpenNext(s: State): State
    requires s.c0.Opening?
  {
    match s.c0.open
    case TakeStale => s.(from := Take(s.from, CAPACITY), c0 := Opening(FreeStale))
    case FreeStale => s.(from := GiveBack(s.from), c0 := Opening(EnableInput))
    case EnableInput => s.(ctl := s.ctl.(inputOn := true), c0 := Opening(EnableOutput))
    case EnableOutput => s.(ctl := s.ctl.(outputOn := true), c0 := Pumping(TakeOut))
  }

  function PumpNext(s: State): State
    requires s.c0.Pumping?
  {
    match s.c0.pump
    case TakeOut =>
      var n := Max(CAPACITY - |s.end.tx|, 0);
      s.(from := Take(s.from, n), c0 := Pumping(FreeOut(Taken(s.from, n))))
    case FreeOut(out) => s.(from := GiveBack(s.from), c0 := Pumping(WriteHost(out)))
    case WriteHost(out) =>
      var written := if s.end.active then Max(0, Min(|out|, CAPACITY - |s.end.tx|)) else 0;
      s.(end := s.end.(tx := s.end.tx + out[..written]),
         log := s.log.(failed := s.log.failed || written != |out|),
         c0 := if written != |out| then Idle else Pumping(LoadRoom))
    case LoadRoom =>
      var n := if s.end.active then Max(0, Min(s.to.Free(), |s.end.rx|)) else 0;
      s.(end := s.end.(rx := s.end.rx[n..]),
         c0 := if n == 0 then Idle else Pumping(PushRoom(InEpoch(s.end.rx[..n], s.ctl.epoch))))
    case PushRoom(data) => s.(c0 := Pumping(PushStore(data, s.to.Free())))
    case PushStore(data, room) =>
      var written := Max(0, Min(|data|, room));
      s.(to := Append(s.to, data[..written]),
         log := s.log.(failed := s.log.failed || written != |data|), c0 := Idle)
  }

  function Core0Next(s: State, scratch: bool): State {
    match s.c0
    case Idle => s
    case Changing(_, _) => ChangeNext(s, scratch)
    case LoadAck =>
      s.(c0 := if !s.end.active || !Same(s.ctl.ack, s.ctl.epoch) then Rejecting(true)
               else if !s.ctl.outputOn then Opening(TakeStale) else Pumping(TakeOut))
    case Rejecting(take) =>
      if take then s.(from := Take(s.from, CAPACITY), c0 := Rejecting(false))
      else s.(from := GiveBack(s.from), c0 := Idle)
    case Opening(_) => OpenNext(s)
    case Pumping(_) => PumpNext(s)
  }

  function DrainNext(s: State): State
    requires s.c1.Draining?
  {
    match s.c1.drain
    case DrainTake => s.(to := Take(s.to, CAPACITY), log := s.log.(lost := true), c1 := s.c1.(drain := DrainFree))
    case DrainFree => s.(to := GiveBack(s.to), c1 := s.c1.(drain := DrainAck))
    case DrainAck => s.(ctl := s.ctl.(ack := s.c1.e), log := s.log.(lost := false), c1 := Running)
  }

  function PopNext(s: State): State
    requires s.c1.Popping?
  {
    var e := s.c1.e;
    match s.c1.pop
    case PopTake => s.(to := Take(s.to, 1), c1 := Popping(e, PopFree(Taken(s.to, 1))))
    case PopFree(got) =>
      s.(to := GiveBack(s.to), c1 := if got == [] then Running else Popping(e, RecheckEpoch(got[0])))
    case RecheckEpoch(v) =>
      if Same(s.ctl.epoch, e) then s.(c1 := Popping(e, RecheckEnabled(v)))
      else s.(log := s.log.(lost := true), c1 := Running)
    case RecheckEnabled(v) =>
      if s.ctl.inputOn then s.(log := s.log.(returned := s.log.returned + [v]), c1 := Running)
      else s.(log := s.log.(lost := true), c1 := Running)
  }

  function Core1Next(s: State): State {
    match s.c1
    case Running => s
    case BoundaryLoad =>
      s.(c1 := if Same(s.ctl.ack, s.ctl.epoch) then Running else Draining(s.ctl.epoch, DrainTake))
    case Draining(_, _) => DrainNext(s)
    case WriteCheck(data) => s.(c1 := if s.ctl.outputOn then WriteRoom(data) else Running)
    case WriteRoom(data) => s.(c1 := WriteStore(data, s.from.Free()))
    case WriteStore(data, room) =>
      s.(from := Append(s.from, Mark(data[..Max(0, Min(|data|, room))], s.ctl.ack, 0)), c1 := Running)
    case ReadEpoch => s.(c1 := ReadEnabled(s.ctl.epoch))
    case ReadEnabled(e) => s.(c1 := if !s.ctl.inputOn || !Same(s.ctl.ack, e) then Running else Popping(e, PopTake))
    case Popping(_, _) => PopNext(s)
  }

  function Next(s: State, a: Action): State {
    match a
    case PollCall => s.(c0 := if Current(s.end) != s.seen then Changing(DisableInput, false) else LoadAck)
    case StopCall => s.(c0 := Changing(DisableInput, true))
    case Core0Step(scratch) => Core0Next(s, scratch)
    case Core1Step => Core1Next(s)
    case CallBoundary => s.(c1 := BoundaryLoad)
    case CallWrite(data) => s.(c1 := WriteCheck(data))
    case CallRead => s.(c1 := ReadEpoch)
    case HostOpen(owner) =>
      s.(end := Endpoint(true, owner, Min(s.end.generation + 1, WORD_SPAN - 1), s.end.opening + 1, [], []))
    case HostClose => s.(end := s.end.(active := false, owner := 0, rx := [], tx := []))
    case HostSend(data) =>
      s.(end := s.end.(rx := s.end.rx + Mark(data, 0, s.end.opening)),
         log := s.log.(hostSent := s.log.hostSent + Mark(data, 0, s.end.opening)))
    case HostReceive(count) =>
      var n := Min(count, |s.end.tx|);
      s.(end := s.end.(tx := s.end.tx[n..]),
         log := s.log.(hostGot := s.log.hostGot + ForOpening(s.end.tx[..n], s.end.opening)))
  }

  /** The two hypotheses: fewer than 2^32 epoch bumps between acknowledgements, and the endpoint's
      generation not saturated. */
  predicate Unsaturated(s: State) {
    s.ctl.epoch - s.ctl.ack < WORD_SPAN && s.end.opening < WORD_SPAN
  }

  function Exec(actions: seq<Action>): State {
    if actions == [] then START else Next(Exec(actions[..|actions| - 1]), actions[|actions| - 1])
  }

  predicate Legal(actions: seq<Action>) {
    actions == [] ||
    (var n := |actions| - 1; var s := Exec(actions[..n]);
     Legal(actions[..n]) && Unsaturated(s) && Enabled(s, actions[n]) && Unsaturated(Next(s, actions[n])))
  }

  // ---- The handshake ----

  lemma SameIff(a: nat, b: nat)
    requires b <= a < b + WORD_SPAN
    ensures Same(a, b) <==> a == b
    ensures Same(b, a) <==> a == b
  {
    WrapEqual(a, b);
  }

  /** Core 0 has seen the current epoch acknowledged in this poll(). */
  predicate Past(c: Core0) {
    c.Opening? || c.Pumping?
  }

  /** Input is off and, except while enabling, so is output. */
  predicate InputOff(c: Core0) {
    (c.Changing? && !c.change.DisableInput?) || (c.Opening? && !c.open.EnableOutput?)
  }

  predicate OutputOff(c: Core0) {
    (c.Changing? && c.change.Bump?) || c.Opening?
  }

  predicate Writing(c: Core1) {
    c.WriteRoom? || c.WriteStore?
  }

  predicate ControlInv(s: State) {
    && s.ctl.ack <= s.ctl.epoch && |s.ctl.eras| == s.ctl.epoch + 1
    && (s.ctl.inputOn || s.ctl.outputOn || Past(s.c0) ==> s.ctl.ack == s.ctl.epoch)
    && (InputOff(s.c0) ==> !s.ctl.inputOn)
    && (OutputOff(s.c0) ==> !s.ctl.outputOn)
    && (s.c0.Pumping? ==> s.ctl.outputOn)
    && (!s.c0.Changing? && !s.c0.Opening? ==> s.ctl.inputOn == s.ctl.outputOn)
    && (s.c0.Opening? && s.c0.open.EnableOutput? ==> s.ctl.inputOn)
    && (s.c1.Draining? ==> s.ctl.ack < s.c1.e <= s.ctl.epoch)
    && (Writing(s.c1) ==> s.ctl.outputOn || s.ctl.ack < s.ctl.epoch || (s.c0.Changing? && s.c0.change.Bump?))
    && (s.c1.ReadEnabled? ==> s.ctl.ack <= s.c1.e <= s.ctl.epoch)
    && (s.c1.Popping? ==> s.c1.e == s.ctl.ack)
  }

  predicate EndInv(s: State) {
    && s.end.generation == s.end.opening && |s.ctl.eras| == s.ctl.epoch + 1
    && (!s.c0.Changing? || s.c0.stop ==> s.ctl.eras[s.ctl.epoch] == Era(s.seen.generation, s.seen.active))
    && (Past(s.c0) ==> s.end.active)
    && (Past(s.c0) || s.c0.LoadAck? ==> s.ctl.eras[s.ctl.epoch] == Era(s.end.opening, s.end.active))
    && (!s.end.active ==> s.end.rx == [] && s.end.tx == [])
  }

  lemma ControlCore0(s: State, scratch: bool)
    requires ControlInv(s) && Unsaturated(s) && !s.c0.Idle?
    ensures ControlInv(Core0Next(s, scratch))
  {
    hide Same, Taken, InEpoch, Take, GiveBack, Append;
    SameIff(s.ctl.epoch, s.ctl.ack);
  }

  lemma ControlCore1(s: State)
    requires ControlInv(s) && Unsaturated(s)
    ensures ControlInv(Core1Next(s))
  {
    hide Same, Taken, Mark, Take, GiveBack, Append;
    SameIff(s.ctl.epoch, s.ctl.ack);
    if s.c1.ReadEnabled? {
      SameIff(s.c1.e, s.ctl.ack);
    }
  }

  lemma EndCore0(s: State, scratch: bool)
    requires EndInv(s) && !s.c0.Idle?
    ensures EndInv(Core0Next(s, scratch))
  {
    hide Same, Taken, InEpoch, Take, GiveBack, Append;
  }

  lemma ControlStep(s: State, a: Action)
    requires ControlInv(s) && EndInv(s) && Unsaturated(s) && Enabled(s, a) && Unsaturated(Next(s, a))
    ensures ControlInv(Next(s, a))
  {
    hide Core0Next, Core1Next, Mark, ForOpening;
    match a
    case Core0Step(scratch) => ControlCore0(s, scratch);
    case Core1Step => ControlCore1(s);
    case _ =>
  }

  lemma EndCore1(s: State)
    requires EndInv(s)
    ensures EndInv(Core1Next(s))
  {
    hide Same, Taken, Mark, Take, GiveBack, Append;
  }

  lemma EndStep(s: State, a: Action)
    requires EndInv(s) && Unsaturated(s) && Enabled(s, a) && Unsaturated(Next(s, a))
    ensures EndInv(Next(s, a))
  {
    hide Core0Next, Core1Next, Mark, ForOpening;
    match a
    case Core0Step(scratch) => EndCore0(s, scratch);
    case Core1Step => EndCore1(s);
    case _ =>
  }
}
