/**
 Sketch replacement on two cores. Core 0 runs boot, Replacement::request and
 Replacement::poll; core 1 loops over park_if_requested() and tick(). Every
 atomic load or store, every flash call and every write of RAM or entry metadata
 is one step, and steps of the two cores interleave freely.
 Core1Pause::request() is three steps: load, load, store.
 */
module TwoCore {
  import opened Bytes
  import opened StatefulImage

  const PAUSE_TIMEOUT := 1000

  type Sector = s: seq<byte> | |s| == MAXIMUM_CAPSULE witness Fill(MAXIMUM_CAPSULE, 255)
  type Span = n: nat | n <= MAXIMUM_CAPSULE
  type Layout = i: Info | i.load + i.data == i.total <= MAXIMUM_CAPSULE witness NO_INFO

  /** Trusted facts of one boot. */
  datatype Config = Config(sha: Hash, contract: Contract, arena: Arena, slotPointer: nat)

  /** Where core 1 is: the first five are park_if_requested(), the others tick(). */
  datatype Core1 =
    | CheckOnce | CheckTwice | SetParked | Spinning | ClearParked
    | LoadPublished
    | EnterSetup(gen: uint32) | InSetup(gen: uint32)
    | EnterLoop(gen: uint32) | InLoop(gen: uint32) | StoreReturned(gen: uint32)

  datatype Outcome = Booted | BootFailed | Denied | TimedOut | Rejected | Failed(touched: bool) | Complete

  /** The part of poll() that follows a successful parked() check; boot shares it from Start on. */
  datatype Work =
    | Revalidate
    | StopPublished | StopReturned | StopGeneration
    | FlashBegin | FlashErase | FlashProgram(at: nat) | FlashEnd(ok: bool) | Readback
    | Start(mapped: Span)
    | ClearArena(info: Layout) | CopyData(info: Layout) | SetImage(info: Layout)
    | ResetReturned | Publish
    | Finish(outcome: Outcome)

  datatype Core0 =
    | Idle
    | LoadRequested(now: uint32) | LoadParked(now: uint32) | StoreRequested(now: uint32) // Core1Pause::request
    | Polling(now: uint32)
    | Replacing(work: Work)
    | Cancelling(outcome: Outcome)
    | Booting(work: Work)

  /** Runtime, Generation, arena and flash sector, with the capsule of every generation so far. */
  datatype Device = Device(
    published: uint32, returned: uint32, active: bool, last: uint32, image: Info, ram: seq<byte>,
    slot: Sector, flashOpen: bool,
    images: seq<seq<byte>>, writes: nat)

  /** Replacement's own fields. */
  datatype Pending = Pending(staged: seq<byte>, bytes: nat, startedAt: uint32)

  /** An entry call made by core 1, with the RAM it found. */
  datatype Call = Setup(gen: uint32, address: uint32, ram: seq<byte>) | Loop(gen: uint32, address: uint32)

  /** A loop entry that came back, and how many entry calls had been made by then. */
  datatype Return = Return(gen: uint32, at: nat)

  /** What a replacement request captured, and the state it was made in. */
  datatype Base = Base(image: seq<byte>, slot: Sector, published: uint32, writes: nat)

  /** The latest request() call. */
  datatype Asked = Asked(image: seq<byte>, armed: bool, now: uint32)

  /** A poll() of an active replacement: its arguments, what parked() answered, whether flash agreed to
      begin, and whether any flash call failed. */
  datatype Visit = Visit(now: uint32, armed: bool, parked: bool, flashed: bool, fault: bool)

  /** A poll() that returned, the time of the request it was about, and how the replacement ended, if it did. */
  datatype Visited = Visited(visit: Visit, asked: uint32, end: Option<Outcome>)

  datatype Polls = Polls(asked: Asked, visit: Visit, visits: seq<Visited>)

  datatype State = State(
    requested: bool, parked: bool, observed: uint32, bootAttempted: bool,
    dev: Device, pending: Pending, c0: Core0, c1: Core1,
    calls: seq<Call>, back: seq<Return>, outcomes: seq<Outcome>, base: Base,
    polls: Polls)

  /** What the environment decides: the caller's arguments, the flash port's answers, sketch stores. */
  datatype Action =
    | BootCall(mapped: Span)
    | RequestCall(image: seq<byte>, armed: bool, now: uint32)
    | PollCall(armed: bool, now: uint32)
    | Core0Step(port: Port)
    | Core1Step
    | SketchStores(ram: seq<byte>)

  datatype Port = Port(ok: bool, present: bool, sector: Sector)

  predicate Initial(cfg: Config, s: State) {
    && !s.requested && !s.parked && s.observed == 0 && !s.bootAttempted
    && s.dev.published == s.dev.returned == s.dev.last == 0 && !s.dev.active && s.dev.image == NO_INFO
    && |s.dev.ram| == cfg.arena.bytes && !s.dev.flashOpen && s.dev.images == []
    && s.pending.staged == [] && s.pending.bytes == 0
    && s.c0 == Idle && s.c1 == CheckOnce && s.calls == [] && s.back == [] && s.outcomes == [] && s.polls.visits == []
  }

  predicate Accepted(cfg: Config, image: seq<byte>) {
    Validate(cfg.sha, image, cfg.contract).error == Ok
  }

  predicate Enabled(cfg: Config, s: State, a: Action) {
    match a
    case BootCall(_) => s.c0.Idle? && !s.bootAttempted
    case RequestCall(image, armed, _) =>
      && s.c0.Idle? && s.pending.bytes == 0 && armed && s.bootAttempted && s.dev.last < WORD_SPAN - 1
      && |image| <= MAXIMUM_CAPSULE && Accepted(cfg, image)
    case PollCall(_, _) => s.c0.Idle? && s.pending.bytes != 0
    case Core0Step(_) => !s.c0.Idle?
    case Core1Step => true
    case SketchStores(ram) => (s.c1.InSetup? || s.c1.InLoop?) && |ram| == cfg.arena.bytes
  }

  /** The sector read back exactly as the snapshot, padded with erased bytes, and still valid. */
  predicate ReadsBack(cfg: Config, slot: Sector, staged: seq<byte>) {
    && |staged| <= |slot| && slot[..|staged|] == staged && Accepted(cfg, slot[..|staged|])
    && (forall i :: |staged| <= i < |slot| ==> slot[i] == 255)
  }

  function Started(cfg: Config, d: Device, mapped: Span, present: bool): Result {
    StartResult(cfg.sha, d.active, d.last, if present then d.slot[..mapped] else [],
                cfg.slotPointer, cfg.contract, cfg.arena)
  }

  function WorkNext(cfg: Config, d: Device, staged: seq<byte>, w: Work, port: Port): (Device, Work) {
    match w
    case Revalidate => (d, if Accepted(cfg, staged) then StopPublished else Finish(Rejected))
    case StopPublished => (d.(published := 0), StopReturned)
    case StopReturned => (d.(returned := 0), StopGeneration)
    case StopGeneration => (d.(active := false, image := NO_INFO), FlashBegin)
    case FlashBegin => if port.ok then (d.(flashOpen := true), FlashErase) else (d, Finish(Failed(false)))
    case FlashErase => (d.(slot := port.sector), if port.ok then FlashProgram(0) else FlashEnd(false))
    case FlashProgram(at) =>
      (d.(slot := port.sector),
       if !port.ok then FlashEnd(false) else if at + 256 < |staged| then FlashProgram(at + 256) else FlashEnd(true))
    case FlashEnd(written) =>
      (d.(slot := port.sector, flashOpen := false), if written then Readback else Finish(Failed(true)))
    case Readback =>
      (d, if port.present && ReadsBack(cfg, d.slot, staged) then Start(MAXIMUM_CAPSULE) else Finish(Failed(true)))
    case Start(mapped) =>
      StartedShape(cfg.sha, d.active, d.last, if port.present then d.slot[..mapped] else [],
                   cfg.slotPointer, cfg.contract, cfg.arena);
      var r := Started(cfg, d, mapped, port.present);
      (d, if r.error == Ok then ClearArena(r.info) else Finish(Failed(true)))
    case ClearArena(info) => (d.(ram := Fill(cfg.arena.bytes, 0), writes := d.writes + 1), CopyData(info))
    case CopyData(info) =>
      (d.(ram := InitialRam(d.slot, info, cfg.arena.bytes), writes := d.writes + 1,
          last := Wrap32(d.last + 1), active := true, images := d.images + [d.slot[..info.total]]),
       SetImage(info))
    case SetImage(info) => (d.(image := info), ResetReturned)
    case ResetReturned => (d.(returned := 0), Publish)
    case Publish => (d.(published := d.last), Finish(Complete))
    case Finish(_) => (d, w)
  }

  function Refused(s: State): State {
    s.(c0 := Idle, pending := Pending([], 0, s.pending.startedAt))
  }

  function Answered(v: Visit, w: Work, port: Port): Visit {
    v.(flashed := if w.FlashBegin? then port.ok else v.flashed,
       fault := v.fault || (match w
         case FlashBegin | FlashErase | FlashProgram(_) => !port.ok
         case Readback | Start(_) => !port.present
         case _ => false))
  }

  function Returned(p: Polls, end: Option<Outcome>): Polls {
    p.(visits := p.visits + [Visited(p.visit, p.asked.now, end)])
  }

  function Released(s: State, o: Outcome): State {
    Refused(s).(requested := false, outcomes := s.outcomes + [o],
                polls := Returned(s.polls, Some(o)))
  }

  /** One step inside request, poll or boot. */
  function Core0Next(cfg: Config, s: State, port: Port): State {
    match s.c0
    case Idle => s
    case LoadRequested(now) => if s.requested then Refused(s) else s.(c0 := LoadParked(now))
    case LoadParked(now) => if s.parked then Refused(s) else s.(c0 := StoreRequested(now))
    case StoreRequested(now) =>
      s.(requested := true, pending := Pending(s.pending.staged, |s.pending.staged|, now), c0 := Idle,
         base := Base(s.pending.staged, s.dev.slot, s.dev.published, s.dev.writes))
    case Polling(now) =>
      var p := s.polls.(visit := s.polls.visit.(parked := s.parked));
      if s.parked then s.(c0 := Replacing(Revalidate), polls := p)
      else if Wrap32(now - s.pending.startedAt) < PAUSE_TIMEOUT then s.(c0 := Idle, polls := Returned(p, None))
      else s.(c0 := Cancelling(TimedOut), polls := p)
    case Replacing(w) =>
      if w.Finish? then Released(s, w.outcome)
      else
        var (d, w') := WorkNext(cfg, s.dev, s.pending.staged, w, port);
        s.(dev := d, c0 := Replacing(w'),
           polls := s.polls.(visit := Answered(s.polls.visit, w, port)))
    case Cancelling(o) => Released(s, o)
    case Booting(w) =>
      if w.Finish? then
        s.(c0 := Idle, outcomes := s.outcomes + [if w.outcome.Complete? then Booted else BootFailed])
      else var (d, w') := WorkNext(cfg, s.dev, s.pending.staged, w, port); s.(dev := d, c0 := Booting(w'))
  }

  /** One step of `while (true) { park_if_requested(); tick(); }`. */
  function Core1Next(s: State): State {
    match s.c1
    case CheckOnce => s.(c1 := if s.requested then CheckTwice else LoadPublished)
    case CheckTwice => s.(c1 := if s.requested then SetParked else LoadPublished)
    case SetParked => s.(parked := true, c1 := Spinning)
    case Spinning => if s.requested then s else s.(c1 := ClearParked)
    case ClearParked => s.(parked := false, c1 := LoadPublished)
    case LoadPublished =>
      var current := s.dev.published;
      if current == 0 then s.(observed := 0, c1 := CheckOnce)
      else if s.observed != current then s.(observed := current, c1 := EnterSetup(current))
      else s.(c1 := EnterLoop(current))
    case EnterSetup(g) => s.(calls := s.calls + [Setup(g, s.dev.image.setup, s.dev.ram)], c1 := InSetup(g))
    case InSetup(g) => s.(c1 := EnterLoop(g))
    case EnterLoop(g) => s.(calls := s.calls + [Loop(g, s.dev.image.loop)], c1 := InLoop(g))
    case InLoop(g) => s.(back := s.back + [Return(g, |s.calls|)], c1 := StoreReturned(g))
    case StoreReturned(g) => s.(dev := s.dev.(returned := g), c1 := CheckOnce)
  }

  /** Core 0 leaves core 1's variables alone and only ever clears `returned`. */
  lemma WorkFrame(cfg: Config, d: Device, staged: seq<byte>, w: Work, port: Port)
    ensures var d' := WorkNext(cfg, d, staged, w, port).0; d'.returned == d.returned || d'.returned == 0
  {
    hide Accepted, ReadsBack, Started, InitialRam;
  }

  lemma Core0Frame(cfg: Config, s: State, port: Port)
    ensures var t := Core0Next(cfg, s, port);
      && t.c1 == s.c1 && t.calls == s.calls && t.back == s.back && t.observed == s.observed && t.parked == s.parked
      && (t.dev.returned == s.dev.returned || t.dev.returned == 0)
  {
    hide WorkNext;
    if s.c0.Replacing? || s.c0.Booting? {
      WorkFrame(cfg, s.dev, s.pending.staged, s.c0.work, port);
    }
  }

  /** Core 1 writes only its own atomics and its log. */
  lemma Core1Frame(s: State)
    ensures var t := Core1Next(s);
      && t.c0 == s.c0 && t.pending == s.pending && t.outcomes == s.outcomes && t.base == s.base
      && t.polls == s.polls && t.requested == s.requested && t.bootAttempted == s.bootAttempted
      && t.dev == s.dev.(returned := t.dev.returned)
  {
    match s.c1
    case StoreReturned(_) =>
    case _ => assert Core1Next(s).dev == s.dev;
  }

  function Next(cfg: Config, s: State, a: Action): State {
    match a
    case BootCall(mapped) => s.(bootAttempted := true, c0 := Booting(Start(mapped)))
    case RequestCall(image, armed, now) =>
      s.(pending := s.pending.(staged := image), c0 := LoadRequested(now), polls := s.polls.(asked := Asked(image, armed, now)))
    case PollCall(armed, now) =>
      s.(c0 := if armed then Polling(now) else Cancelling(Denied),
         polls := s.polls.(visit := Visit(now, armed, false, false, false)))
    case Core0Step(port) => Core0Next(cfg, s, port)
    case Core1Step => Core1Next(s)
    case SketchStores(ram) => s.(dev := s.dev.(ram := ram))
  }

  /** A park attempt for a request that has since been released: core 1 passed its second check
      and has not stored `parked` yet. */
  predicate StaleAttempt(s: State) {
    s.c1.SetParked? && !s.requested
  }

  /** The timing hypothesis: no request() starts while a stale park attempt is in flight. */
  predicate Timely(s: State, a: Action) {
    a.RequestCall? ==> !StaleAttempt(s)
  }

  /** The state after a sequence of actions. */
  function Exec(cfg: Config, s: State, actions: seq<Action>): State {
    if actions == [] then s
    else Next(cfg, Exec(cfg, s, actions[..|actions| - 1]), actions[|actions| - 1])
  }

  /** Each action is enabled where it happens. */
  predicate Legal(cfg: Config, s: State, actions: seq<Action>) {
    actions == [] ||
    (var n := |actions| - 1;
     Legal(cfg, s, actions[..n]) && Enabled(cfg, Exec(cfg, s, actions[..n]), actions[n]))
  }

  /** A legal run that respects the timing hypothesis at every request. */
  predicate TimelyRun(cfg: Config, s: State, actions: seq<Action>) {
    actions == [] ||
    (var n := |actions| - 1; var before := Exec(cfg, s, actions[..n]);
     TimelyRun(cfg, s, actions[..n]) && Enabled(cfg, before, actions[n]) && Timely(before, actions[n]))
  }

  // ---- The pause handshake ----

  predicate Requesting(c: Core0) {
    c.LoadRequested? || c.LoadParked? || c.StoreRequested?
  }

  predicate PauseInv(cfg: Config, s: State) {
    && (s.parked <==> s.c1.Spinning? || s.c1.ClearParked?)
    && (s.c1.ClearParked? ==> !s.requested)
    && (s.c0.Replacing? ==> s.c1.Spinning?)
    && (s.requested <==> s.pending.bytes > 0)
    && (Requesting(s.c0) ==> s.pending.bytes == 0 && !s.c1.SetParked?)
    && (s.c0.StoreRequested? ==> !s.parked)
    && (s.c0.Polling? || s.c0.Replacing? || s.c0.Cancelling? ==> s.pending.bytes > 0)
    && (Requesting(s.c0) || s.pending.bytes > 0 ==>
          0 < |s.pending.staged| <= MAXIMUM_CAPSULE && Accepted(cfg, s.pending.staged))
    && (s.pending.bytes > 0 ==> s.pending.bytes == |s.pending.staged|)
    && (s.c0.Cancelling? ==> s.c0.outcome.Denied? || s.c0.outcome.TimedOut?)
    && (s.c0.Booting? || !s.bootAttempted ==> s.pending.bytes == 0)
    && (!s.bootAttempted ==> s.c0.Idle?)
  }

  lemma PauseCore0(cfg: Config, s: State, port: Port)
    requires PauseInv(cfg, s) && !s.c0.Idle?
    ensures PauseInv(cfg, Core0Next(cfg, s, port))
  {
    hide WorkNext, Accepted;
  }

  lemma PauseCore1(cfg: Config, s: State)
    requires PauseInv(cfg, s)
    ensures PauseInv(cfg, Core1Next(s))
  {
    hide Accepted;
  }

  lemma PauseStep(cfg: Config, s: State, a: Action)
    requires Enabled(cfg, s, a) && Timely(s, a) && PauseInv(cfg, s)
    ensures PauseInv(cfg, Next(cfg, s, a))
  {
    if a.RequestCall? {
      AcceptedNonempty(cfg, a.image);
    }
    hide Core0Next, Core1Next, Accepted;
    if a.Core0Step? {
      PauseCore0(cfg, s, a.port);
    } else if a.Core1Step? {
      PauseCore1(cfg, s);
    }
  }

  lemma AcceptedNonempty(cfg: Config, image: seq<byte>)
    ensures Accepted(cfg, image) ==> |image| > 0
  {
    hide Join, ValidateLayout;
  }

  // ---- Generations, RAM and entry metadata ----

  predicate InEntry(c: Core1) {
    c.EnterSetup? || c.InSetup? || c.EnterLoop? || c.InLoop? || c.StoreReturned?
  }

  function InfoOf(cfg: Config, image: seq<byte>): Info {
    Validate(cfg.sha, image, cfg.contract).info
  }

  /** `ram` is what generation `image` must find at its setup: its data, then zeros. */
  predicate FreshRam(cfg: Config, image: seq<byte>, ram: seq<byte>) {
    var info := InfoOf(cfg, image);
    && Accepted(cfg, image) && info.load + info.data == |image| && info.data <= cfg.arena.bytes
    && ram == image[info.load..] + Fill(cfg.arena.bytes - info.data, 0)
  }

  predicate Fresh(cfg: Config, d: Device) {
    0 < d.last == |d.images| && Accepted(cfg, d.images[d.last - 1]) && FreshRam(cfg, d.images[d.last - 1], d.ram)
  }

  predicate WorkInv(cfg: Config, d: Device, staged: seq<byte>, w: Work, boot: bool) {
    match w
    case Revalidate | StopPublished => !boot
    case StopReturned | StopGeneration => !boot && d.published == 0
    case FlashBegin | FlashErase | FlashProgram(_) | FlashEnd(_) | Readback => !boot && d.published == 0 && !d.active
    case Start(mapped) =>
      && d.published == 0 && !d.active
      && (!boot ==> mapped == MAXIMUM_CAPSULE && ReadsBack(cfg, d.slot, staged))
    case ClearArena(info) => CanStart(cfg, d, staged, info, boot)
    case CopyData(info) => CanStart(cfg, d, staged, info, boot)
    case SetImage(info) =>
      && d.published == 0 && d.active && Fresh(cfg, d) && info == InfoOf(cfg, d.images[d.last - 1])
      && (!boot ==> ReadsBack(cfg, d.slot, staged) && d.images[d.last - 1] == staged)
    case ResetReturned | Publish =>
      && d.published == 0 && d.active && Fresh(cfg, d) && d.image == InfoOf(cfg, d.images[d.last - 1])
      && (!boot ==> ReadsBack(cfg, d.slot, staged) && d.images[d.last - 1] == staged)
    case Finish(o) =>
      && (o.Complete? ==> d.published == d.last != 0 && |d.images| == d.last)
      && (o.Complete? && !boot ==> ReadsBack(cfg, d.slot, staged) && d.images[d.last - 1] == staged)
      && (o.Failed? ==> d.published == 0)
      && (o.Failed? || o.Complete?)
  }

  predicate CanStart(cfg: Config, d: Device, staged: seq<byte>, info: Layout, boot: bool) {
    && d.published == 0 && !d.active && d.last < WORD_SPAN - 1 && info.data <= cfg.arena.bytes
    && Validate(cfg.sha, d.slot[..info.total], cfg.contract) == Result(Ok, info)
    && (!boot ==> ReadsBack(cfg, d.slot, staged) && info.total == |staged|)
  }

  predicate DeviceShape(cfg: Config, d: Device) {
    && |d.images| == d.last && |d.ram| == cfg.arena.bytes
    && (d.published == 0 || d.published == d.last)
    && (d.published != 0 ==> d.active && Accepted(cfg, d.images[d.last - 1]) &&
                             d.image == InfoOf(cfg, d.images[d.last - 1]))
  }

  lemma ReadBackSpan(cfg: Config, slot: Sector, staged: seq<byte>)
    requires ReadsBack(cfg, slot, staged)
    ensures SlotSpan(slot, cfg.contract) == (Ok, |staged|) && slot == Padded(staged)
  {
    hide Validate;
    PaddedSpan(cfg.sha, staged, cfg.contract);
    assert slot == Padded(staged);
  }

  lemma WorkStart(cfg: Config, d: Device, staged: seq<byte>, mapped: Span, present: bool, boot: bool)
    requires WorkInv(cfg, d, staged, Start(mapped), boot)
    ensures var r := Started(cfg, d, mapped, present);
      r.error == Ok ==> r.info.load + r.info.data == r.info.total <= MAXIMUM_CAPSULE && CanStart(cfg, d, staged, r.info, boot)
  {
    var r := Started(cfg, d, mapped, present);
    var view := if present then d.slot[..mapped] else [];
    StartedShape(cfg.sha, d.active, d.last, view, cfg.slotPointer, cfg.contract, cfg.arena);
    if r.error == Ok {
      hide Validate;
      assert view[..r.info.total] == d.slot[..r.info.total];
      if !boot {
        ReadBackSpan(cfg, d.slot, staged);
        assert view == d.slot;
        StartSpan(cfg.sha, d.active, d.last, view, cfg.slotPointer, cfg.contract, cfg.arena);
      }
    }
  }

  lemma StartSpan(sha: Hash, active: bool, last: uint32, slot: seq<byte>, source: nat, c: Contract, arena: Arena)
    ensures var r := StartResult(sha, active, last, slot, source, c, arena);
      r.error == Ok ==> SlotSpan(slot, c) == (Ok, r.info.total as nat)
  {
    hide Join, Validate;
    var (e, bytes) := SlotSpan(slot, c);
    if e == Ok && Validate(sha, slot[..bytes], c).error == Ok {
      AcceptedShape(sha, slot[..bytes], c);
    }
  }

  predicate WorkKept(cfg: Config, r: (Device, Work), staged: seq<byte>, boot: bool) {
    DeviceShape(cfg, r.0) && WorkInv(cfg, r.0, staged, r.1, boot)
  }

  lemma WorkClear(cfg: Config, d: Device, staged: seq<byte>, info: Layout, boot: bool, port: Port)
    requires DeviceShape(cfg, d) && WorkInv(cfg, d, staged, ClearArena(info), boot)
    ensures WorkKept(cfg, WorkNext(cfg, d, staged, ClearArena(info), port), staged, boot)
  {
    hide Validate, ReadsBack;
  }

  lemma WorkCopy(cfg: Config, d: Device, staged: seq<byte>, info: Layout, boot: bool, port: Port)
    requires DeviceShape(cfg, d) && WorkInv(cfg, d, staged, CopyData(info), boot)
    ensures WorkKept(cfg, WorkNext(cfg, d, staged, CopyData(info), port), staged, boot)
  {
    hide Validate;
    var image := d.slot[..info.total];
    assert d.slot[info.load..info.load + info.data] == image[info.load..];
    assert !boot ==> image == staged;
    hide ReadsBack;
  }

  lemma WorkOther(cfg: Config, d: Device, staged: seq<byte>, w: Work, boot: bool, port: Port)
    requires DeviceShape(cfg, d) && WorkInv(cfg, d, staged, w, boot)
    requires !w.Start? && !w.ClearArena? && !w.CopyData? && !w.Finish?
    requires !boot ==> Accepted(cfg, staged)
    ensures WorkKept(cfg, WorkNext(cfg, d, staged, w, port), staged, boot)
  {
    hide Validate, Accepted, ReadsBack, FreshRam, InfoOf, Started, InitialRam, CanStart;
  }

  lemma WorkBegin(cfg: Config, d: Device, staged: seq<byte>, mapped: Span, boot: bool, port: Port)
    requires DeviceShape(cfg, d) && WorkInv(cfg, d, staged, Start(mapped), boot)
    ensures WorkKept(cfg, WorkNext(cfg, d, staged, Start(mapped), port), staged, boot)
  {
    hide Validate, Accepted, ReadsBack, Started, CanStart, StartResult;
    WorkStart(cfg, d, staged, mapped, port.present, boot);
  }

  lemma WorkStep(cfg: Config, d: Device, staged: seq<byte>, w: Work, boot: bool, port: Port)
    requires DeviceShape(cfg, d) && WorkInv(cfg, d, staged, w, boot) && !w.Finish?
    requires !boot ==> Accepted(cfg, staged)
    ensures WorkKept(cfg, WorkNext(cfg, d, staged, w, port), staged, boot)
  {
    hide WorkInv, WorkNext, DeviceShape;
    match w
    case Start(mapped) => WorkBegin(cfg, d, staged, mapped, boot, port);
    case ClearArena(info) => WorkClear(cfg, d, staged, info, boot, port);
    case CopyData(info) => WorkCopy(cfg, d, staged, info, boot, port);
    case _ => WorkOther(cfg, d, staged, w, boot, port);
  }

  /** Loaded, but not yet offered to core 1. */
  predicate Unpublished(w: Work) {
    w.SetImage? || w.ResetReturned? || w.Publish?
  }

  predicate Working(c: Core0) {
    c.Replacing? || c.Booting?
  }

  /** The published generation has not had its setup call yet. */
  predicate SetupDue(s: State) {
    s.dev.published != 0 && (s.observed != s.dev.published || s.c1.EnterSetup?)
  }

  predicate RuntimeInv(cfg: Config, s: State) {
    && DeviceShape(cfg, s.dev) && s.observed <= s.dev.last
    && (!s.bootAttempted ==> s.dev.last == 0 && !s.dev.active)
    && (Working(s.c0) ==> WorkInv(cfg, s.dev, s.pending.staged, s.c0.work, s.c0.Booting?))
    && (Working(s.c0) && Unpublished(s.c0.work) ==> s.observed < s.dev.last)
    && (InEntry(s.c1) ==> s.c1.gen == s.dev.published == s.observed != 0)
    && (SetupDue(s) ==> Fresh(cfg, s.dev))
  }

  lemma WorkQuiet(cfg: Config, d: Device, staged: seq<byte>, w: Work, boot: bool, returned: uint32, ram: seq<byte>)
    requires WorkInv(cfg, d, staged, w, boot)
    ensures d.published != 0 ==> w.Finish? || (!boot && (w.Revalidate? || w.StopPublished?))
    ensures Unpublished(w) ==> Fresh(cfg, d)
    ensures w.Finish? ==> WorkInv(cfg, d.(returned := returned), staged, w, boot)
    ensures w.Finish? ==> WorkInv(cfg, d.(ram := ram), staged, w, boot)
  {
    hide Accepted, ReadsBack, FreshRam, InfoOf, Validate;
  }

  lemma WorkProgress(cfg: Config, d: Device, staged: seq<byte>, w: Work, port: Port, boot: bool)
    requires WorkInv(cfg, d, staged, w, boot) && DeviceShape(cfg, d) && !w.Finish?
    ensures var (d', w') := WorkNext(cfg, d, staged, w, port);
      && d.last <= d'.last && d.images <= d'.images
      && (Unpublished(w') && !Unpublished(w) ==> d.last < d'.last)
      && (Unpublished(w) ==> d'.last == d.last)
      && (d'.published != 0 ==> (d' == d && w.Revalidate?) || (Unpublished(w) && d'.published == d'.last))
      && (w.Publish? ==> Fresh(cfg, d'))
      && (Unpublished(w) && d'.published != 0 ==> w.Publish?)
  {
    hide Validate, Accepted, ReadsBack, FreshRam, InfoOf, Started, InitialRam;
  }

  lemma RuntimeWork(cfg: Config, s: State, port: Port)
    requires PauseInv(cfg, s) && RuntimeInv(cfg, s) && Working(s.c0) && !s.c0.work.Finish?
    ensures RuntimeInv(cfg, Core0Next(cfg, s, port))
  {
    hide Accepted, WorkInv, WorkNext, DeviceShape, Fresh;
    WorkQuiet(cfg, s.dev, s.pending.staged, s.c0.work, s.c0.Booting?, 0, []);
    WorkStep(cfg, s.dev, s.pending.staged, s.c0.work, s.c0.Booting?, port);
    WorkProgress(cfg, s.dev, s.pending.staged, s.c0.work, port, s.c0.Booting?);
  }

  lemma RuntimeCore1(cfg: Config, s: State)
    requires PauseInv(cfg, s) && RuntimeInv(cfg, s)
    ensures RuntimeInv(cfg, Core1Next(s))
  {
    hide Accepted, FreshRam, InfoOf, WorkInv;
    if Working(s.c0) {
      WorkQuiet(cfg, s.dev, s.pending.staged, s.c0.work, s.c0.Booting?,
                if s.c1.StoreReturned? then s.c1.gen else 0, []);
    }
  }

  lemma RuntimeQuick(cfg: Config, s: State, port: Port)
    requires PauseInv(cfg, s) && RuntimeInv(cfg, s) && (Working(s.c0) ==> s.c0.work.Finish?)
    ensures RuntimeInv(cfg, Core0Next(cfg, s, port))
  {
    hide Accepted, FreshRam, InfoOf, ReadsBack, CanStart, WorkNext;
  }

  lemma RuntimeStores(cfg: Config, s: State, ram: seq<byte>)
    requires PauseInv(cfg, s) && RuntimeInv(cfg, s) && Enabled(cfg, s, SketchStores(ram))
    ensures RuntimeInv(cfg, Next(cfg, s, SketchStores(ram)))
  {
    hide Accepted, FreshRam, InfoOf, WorkInv;
    if Working(s.c0) {
      WorkQuiet(cfg, s.dev, s.pending.staged, s.c0.work, s.c0.Booting?, 0, ram);
    }
  }

  lemma RuntimeStep(cfg: Config, s: State, a: Action)
    requires Enabled(cfg, s, a) && PauseInv(cfg, s) && RuntimeInv(cfg, s)
    ensures RuntimeInv(cfg, Next(cfg, s, a))
  {
    hide Accepted, FreshRam, InfoOf, ReadsBack, Core0Next, Core1Next;
    match a
    case Core0Step(port) =>
      if Working(s.c0) && !s.c0.work.Finish? {
        RuntimeWork(cfg, s, port);
      } else {
        RuntimeQuick(cfg, s, port);
      }
    case Core1Step => RuntimeCore1(cfg, s);
    case SketchStores(ram) => RuntimeStores(cfg, s, ram);
    case _ =>
  }
}
