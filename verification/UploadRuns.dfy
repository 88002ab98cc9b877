/**
 Upload transactions driving the two-core replacement. Core 0 runs the session
 callbacks, Upload::poll and, inside it, Replacement::request and poll, whose
 steps interleave with core 1 as in TwoCore.
 */
module UploadRuns {
  import opened Bytes
  import Image = StatefulImage
  import opened Upload
  import Core = TwoCore
  import Runs = TwoCoreRuns

  /** Where core 0 is inside Upload::poll. */
  datatype Phase = Resting | Requesting(now: uint32) | Polling(before: nat)

  datatype Event = Event(id: uint32, state: Stage)

  /** The IDs handed out, every state change, every replacement request, the chunks of the current ID, the
      arguments of the latest poll(), and its time when the current ID began. */
  datatype Log = Log(begun: seq<uint32>, trail: seq<Event>, requests: seq<uint32>, content: seq<byte>,
                     clock: uint32, armed: bool, begunAt: uint32)

  datatype State = State(up: Upload, dev: Core.State, phase: Phase, log: Log)

  datatype Action =
    | Called(call: Call)
    | PollCall(now: uint32, armed: bool)
    | Resume
    | Device(a: Core.Action)

  /** The calls sessions make. */
  datatype Call =
    | BeginCall(armed: bool, owner: uint32, size: uint32, digest: Image.Digest)
    | ChunkCall(owner: uint32, id: uint32, offset: uint32, data: seq<byte>)
    | FinishCall(owner: uint32, id: uint32)
    | CommitCall(armed: bool, owner: uint32, id: uint32)
    | AbortCall(owner: uint32, id: uint32)
    | DisconnectCall(owner: uint32)

  predicate Initial(cfg: Core.Config, s: State) {
    s.up == Fresh() && Core.Initial(cfg, s.dev) && s.phase == Resting && s.log == Log([], [], [], [], 0, false, 0)
  }

  predicate Enabled(cfg: Core.Config, s: State, a: Action) {
    match a
    case Called(_) | PollCall(_, _) => s.phase.Resting? && s.dev.c0.Idle?
    case Resume => !s.phase.Resting? && s.dev.c0.Idle?
    case Device(d) =>
      && Core.Enabled(cfg, s.dev, d)
      && (d.Core0Step? || d.Core1Step? || d.SketchStores? || (d.BootCall? && s.phase.Resting?))
  }

  function CallNext(cfg: Core.Config, u: Upload, replacing: bool, c: Call): Upload {
    match c
    case BeginCall(armed, owner, size, digest) => Begin(u, cfg.contract, armed, replacing, owner, size, digest).0
    case ChunkCall(owner, id, offset, data) => Chunk(u, owner, id, offset, data).0
    case FinishCall(owner, id) => Finish(u, cfg.sha, cfg.contract, owner, id).0
    case CommitCall(armed, owner, id) => Commit(u, armed, owner, id).0
    case AbortCall(owner, id) => Abort(u, owner, id).0
    case DisconnectCall(owner) => Disconnect(u, owner)
  }

  /** State changes and IDs are recorded as they happen, accepted chunks in arrival order. */
  function Logged(log: Log, was: Status, last: Status, data: seq<byte>): Log {
    log.(begun := if last.id != was.id then log.begun + [last.id] else log.begun,
         trail := if last.id != was.id || last.state != was.state then log.trail + [Event(last.id, last.state)] else log.trail,
         content := if last.id != was.id then [] else if last.received != was.received then log.content + data else log.content,
         begunAt := if last.id != was.id then log.clock else log.begunAt)
  }

  function With(s: State, u: Upload, phase: Phase, dev: Core.State): State {
    State(u, dev, phase, Logged(s.log, s.up.last, u.last, []))
  }

  function PollNext(cfg: Core.Config, s: State, now: uint32, armed: bool): State {
    match PollOpening(s.up, now, armed, s.dev.pending.bytes != 0, s.dev.dev.published, s.dev.dev.returned)
    case Done(u) => With(s, u, Resting, s.dev)
    case Request(u) =>
      var call := Core.RequestCall(Staged(u), true, now);
      var t := if Core.Enabled(cfg, s.dev, call) then With(s, u, Requesting(now), Core.Next(cfg, s.dev, call))
               else With(s, Fail(u, IoError), Resting, s.dev);
      t.(log := t.log.(requests := t.log.requests + [u.last.id]))
    case Poll(u) =>
      if s.dev.pending.bytes == 0 then With(s, PollClosing(u, Idle), Resting, s.dev)
      else With(s, u, Polling(|s.dev.outcomes|), Core.Next(cfg, s.dev, Core.PollCall(armed, now)))
  }

  function ReportOf(dev: Core.State): Report {
    if dev.pending.bytes != 0 then Waiting
    else if dev.outcomes == [] then Idle
    else
      match dev.outcomes[|dev.outcomes| - 1]
      case Denied => Report.Denied
      case TimedOut => Report.TimedOut
      case Complete => Report.Complete(dev.dev.published)
      case Failed(touched) => Report.Failed(touched)
      case _ => Report.Failed(false)
  }

  function ResumeNext(cfg: Core.Config, s: State): State {
    match s.phase
    case Resting => s
    case Requesting(now) =>
      if s.dev.pending.bytes == 0 then With(s, Fail(s.up, IoError), Resting, s.dev)
      else With(s, Cleared(s.up), Polling(|s.dev.outcomes|), Core.Next(cfg, s.dev, Core.PollCall(true, now)))
    case Polling(_) => With(s, PollClosing(s.up, ReportOf(s.dev)), Resting, s.dev)
  }

  function Timed(s: State, now: uint32, armed: bool): State {
    s.(log := s.log.(clock := now, armed := armed))
  }

  function Next(cfg: Core.Config, s: State, a: Action): State {
    match a
    case Called(c) =>
      var u := CallNext(cfg, s.up, s.dev.pending.bytes != 0, c);
      State(u, s.dev, s.phase, Logged(s.log, s.up.last, u.last, if c.ChunkCall? then c.data else []))
    case PollCall(now, armed) => Timed(PollNext(cfg, s, now, armed), now, armed)
    case Resume => ResumeNext(cfg, s)
    case Device(d) => s.(dev := Core.Next(cfg, s.dev, d))
  }

  /** No replacement request starts while a stale park attempt is in flight. */
  predicate Timely(s: State, a: Action) {
    a.PollCall? && StartsRequest(s, a.now, a.armed) ==> !Core.StaleAttempt(s.dev)
  }

  /** Whether this poll() calls Replacement::request(). */
  predicate StartsRequest(s: State, now: uint32, armed: bool) {
    PollOpening(s.up, now, armed, s.dev.pending.bytes != 0, s.dev.dev.published, s.dev.dev.returned).Request?
  }

  function Exec(cfg: Core.Config, s: State, actions: seq<Action>): State {
    if actions == [] then s
    else Next(cfg, Exec(cfg, s, actions[..|actions| - 1]), actions[|actions| - 1])
  }

  predicate TimelyRun(cfg: Core.Config, s: State, actions: seq<Action>) {
    actions == [] ||
    (var n := |actions| - 1; var before := Exec(cfg, s, actions[..n]);
     TimelyRun(cfg, s, actions[..n]) && Enabled(cfg, before, actions[n]) && Timely(before, actions[n]))
  }

  // ---- IDs, state changes and requests ----

  predicate Counting(begun: seq<uint32>) {
    forall i :: 0 <= i < |begun| ==> begun[i] == i + 1
  }

  predicate Increasing(ids: seq<uint32>) {
    forall i, j :: 0 <= i < j < |ids| ==> ids[i] < ids[j]
  }

  predicate Follows(a: Event, b: Event) {
    || (b.id == a.id && Moves(a.state, b.state))
    || (b.id == a.id + 1 && b.state.Accepted? && !Staging(a.state))
  }

  predicate Path(trail: seq<Event>) {
    && (forall i :: 0 <= i < |trail| - 1 ==> Follows(trail[i], trail[i + 1]))
    && (trail != [] ==> trail[0] == Event(1, Accepted))
  }

  predicate IdInv(u: Upload, log: Log) {
    Counting(log.begun) && |log.begun| == u.last.id
  }

  predicate TrailInv(u: Upload, log: Log) {
    && Path(log.trail)
    && (if u.last.id == 0 then log.trail == [] && u.last.state.Aborted?
        else log.trail != [] && log.trail[|log.trail| - 1] == Event(u.last.id, u.last.state))
  }

  predicate Unrequested(u: Upload) {
    u.last.state.Accepted? || u.last.state.Verified? || u.commitPending
  }

  predicate RequestInv(u: Upload, log: Log) {
    && Increasing(log.requests)
    && (forall i :: 0 <= i < |log.requests| ==> log.requests[i] <= u.last.id)
    && (Unrequested(u) ==> forall i :: 0 <= i < |log.requests| ==> log.requests[i] < u.last.id)
  }

  /** One operation changes the record by at most one move, or starts the next ID. */
  predicate OneMove(u: Upload, v: Upload) {
    || (v.last.id == u.last.id && v.nextId == u.nextId && (v.last.state == u.last.state || Moves(u.last.state, v.last.state)))
    || (v.last.id == u.nextId != 0 && v.last.state.Accepted? && !BlocksConsole(u) &&
        v.nextId == (if u.nextId + 1 == WORD_SPAN then 0 else u.nextId + 1))
  }

  lemma TrailStep(u: Upload, v: Upload, log: Log, data: seq<byte>)
    requires StageInv(u) && IdInv(u, log) && TrailInv(u, log) && OneMove(u, v)
    ensures IdInv(v, Logged(log, u.last, v.last, data)) && TrailInv(v, Logged(log, u.last, v.last, data))
  {
    var t := Logged(log, u.last, v.last, data).trail;
    if t != log.trail {
      assert forall i :: 0 <= i < |log.trail| ==> t[i] == log.trail[i];
    }
  }

  // ---- What was staged, and what the device holds ----

  /** The replacement has been asked for and has not reported an end. */
  predicate AtCall(u: Upload) {
    u.last.state.Committing? && !u.commitPending
  }

  predicate Settled(u: Upload) {
    u.last.state.Installed? || u.last.state.BootConfirmed?
  }

  predicate ContentInv(cfg: Core.Config, u: Upload, content: seq<byte>) {
    && (Unrequested(u) ==> |content| == u.last.received <= STAGE && content == u.stage[..u.last.received])
    && (u.last.state.Verified? || u.last.state.Committing? || Settled(u) ==>
          |content| == u.last.size && cfg.sha(content) == u.last.digest)
  }

  predicate RequestRunning(dev: Core.State, content: seq<byte>) {
    || (Core.Requesting(dev.c0) && dev.pending.bytes == 0 && dev.pending.staged == content)
    || (dev.c0.Idle? && (dev.pending.bytes == 0 || dev.base.image == content))
  }

  predicate PollRunning(dev: Core.State, content: seq<byte>, before: nat) {
    && dev.base.image == content
    && if dev.pending.bytes == 0 then dev.c0.Idle? && |dev.outcomes| == before + 1
       else |dev.outcomes| == before && !Core.Requesting(dev.c0) && !dev.c0.Booting?
  }

  predicate Linked(u: Upload, phase: Phase, dev: Core.State, content: seq<byte>) {
    && (match phase
        case Resting =>
          && (dev.c0.Idle? || dev.c0.Booting?) && (dev.pending.bytes != 0 <==> AtCall(u))
          && (dev.pending.bytes != 0 ==> dev.base.image == content)
        case Requesting(_) => AtCall(u) && RequestRunning(dev, content)
        case Polling(before) => AtCall(u) && PollRunning(dev, content, before))
    && (Settled(u) ==>
          && phase.Resting? && dev.c0.Idle? && Runs.Ended(dev, Core.Complete)
          && dev.base.image == content && u.generation == dev.dev.published)
    && (u.last.state.BootConfirmed? ==> dev.dev.returned == u.generation)
  }

  predicate RecordInv(cfg: Core.Config, u: Upload, log: Log) {
    StageInv(u) && IdInv(u, log) && TrailInv(u, log) && RequestInv(u, log) && ContentInv(cfg, u, log.content)
  }

  predicate Inv(cfg: Core.Config, s: State) {
    && RecordInv(cfg, s.up, s.log) && Linked(s.up, s.phase, s.dev, s.log.content)
    && Runs.Inv(cfg, s.dev) && Runs.LoopInv(s.dev)
  }

  // ---- Session calls ----

  lemma CallMove(cfg: Core.Config, u: Upload, replacing: bool, c: Call)
    requires StageInv(u)
    ensures var v := CallNext(cfg, u, replacing, c);
      && StageInv(v) && OneMove(u, v)
      && (v.last.id != u.last.id ==> v.last.received == 0 && !v.commitPending)
      && (AtCall(v) <==> AtCall(u)) && (AtCall(v) ==> v.last == u.last) && (Settled(v) ==> v.last == u.last && v.generation == u.generation)
      && (Unrequested(v) && v.last.id == u.last.id ==> Unrequested(u))
  {
    hide Image.Validate;
  }

  lemma CallContent(cfg: Core.Config, u: Upload, replacing: bool, c: Call, log: Log)
    requires StageInv(u) && ContentInv(cfg, u, log.content)
    ensures var v := CallNext(cfg, u, replacing, c);
      ContentInv(cfg, v, Logged(log, u.last, v.last, if c.ChunkCall? then c.data else []).content)
  {
    hide Image.Validate;
    var v := CallNext(cfg, u, replacing, c);
    if c.ChunkCall? && v.last.received != u.last.received {
      var data, at := c.data, u.last.received;
      assert Splice(u.stage, at, data)[..at + |data|] == u.stage[..at] + data;
    }
  }

  lemma RequestKept(u: Upload, v: Upload, log: Log, data: seq<byte>)
    requires StageInv(u) && RequestInv(u, log) && OneMove(u, v)
    requires Unrequested(v) && v.last.id == u.last.id ==> Unrequested(u)
    ensures RequestInv(v, Logged(log, u.last, v.last, data))
  {
  }

  lemma CallRecord(cfg: Core.Config, u: Upload, replacing: bool, c: Call, log: Log)
    requires RecordInv(cfg, u, log)
    ensures var v := CallNext(cfg, u, replacing, c);
      RecordInv(cfg, v, Logged(log, u.last, v.last, if c.ChunkCall? then c.data else []))
  {
    hide CallNext, OneMove, StageInv, IdInv, TrailInv, RequestInv, ContentInv;
    var v := CallNext(cfg, u, replacing, c);
    var data := if c.ChunkCall? then c.data else [];
    CallMove(cfg, u, replacing, c);
    CallContent(cfg, u, replacing, c, log);
    TrailStep(u, v, log, data);
    RequestKept(u, v, log, data);
  }

  lemma CallStep(cfg: Core.Config, s: State, c: Call)
    requires Enabled(cfg, s, Called(c)) && Inv(cfg, s)
    ensures Inv(cfg, Next(cfg, s, Called(c)))
  {
    hide CallNext, OneMove, StageInv, IdInv, TrailInv, RequestInv, ContentInv, Runs.Inv, Runs.LoopInv, Runs.Ended, Runs.HasReturn;
    CallRecord(cfg, s.up, s.dev.pending.bytes != 0, c, s.log);
    CallMove(cfg, s.up, s.dev.pending.bytes != 0, c);
  }

  // ---- Upload::poll ----

  /** What one part of poll() may do to the record. */
  predicate PollMove(u: Upload, v: Upload) {
    && StageInv(v) && OneMove(u, v) && v.last.id == u.last.id && v.last.received == u.last.received
    && v.last.size == u.last.size && v.last.digest == u.last.digest
    && (Unrequested(v) ==> Unrequested(u) && v.stage == u.stage)
    && (v.last.state.Verified? || v.last.state.Committing? || Settled(v) ==>
          u.last.state.Verified? || u.last.state.Committing? || Settled(u))
  }

  lemma PollRecord(cfg: Core.Config, u: Upload, v: Upload, log: Log)
    requires RecordInv(cfg, u, log) && PollMove(u, v)
    ensures RecordInv(cfg, v, Logged(log, u.last, v.last, []))
  {
    TrailStep(u, v, log, []);
    RequestKept(u, v, log, []);
  }

  lemma OpeningMove(u: Upload, now: uint32, armed: bool, replacing: bool, published: uint32, returned: uint32)
    requires StageInv(u)
    ensures var o := PollOpening(u, now, armed, replacing, published, returned);
      && PollMove(u, o.u)
      && (o.Done? ==> (AtCall(o.u) ==> o.u.last == u.last && AtCall(u)))
      && (o.Done? && Settled(o.u) ==> Settled(u) && o.u.generation == u.generation)
      && (o.Done? && replacing && AtCall(u) ==> AtCall(o.u))
      && (o.Done? && o.u.last.state.BootConfirmed? && o.u.last != u.last ==>
            u.generation != 0 && published == u.generation && returned == published)
      && (o.Request? ==> u.commitPending && AtCall(o.u) && o.u.stage == u.stage)
      && (o.Poll? ==> AtCall(u) && AtCall(o.u) && o.u.last == u.last)
  {
  }

  lemma ClosingMove(u: Upload, r: Report)
    requires StageInv(u) && AtCall(u)
    ensures var v := PollClosing(u, r);
      && PollMove(u, v) && !v.last.state.BootConfirmed?
      && (AtCall(v) <==> r.Waiting?) && (Settled(v) <==> r.Complete?) && (r.Complete? ==> v.generation == r.generation)
  {
  }

  lemma StagedContent(cfg: Core.Config, u: Upload, v: Upload, log: Log)
    requires RecordInv(cfg, u, log) && u.commitPending && v.stage == u.stage && v.last.size == u.last.size
    ensures Staged(v) == log.content
  {
  }

  /** The device starts a request that it accepts. */
  lemma RequestBegins(cfg: Core.Config, dev: Core.State, image: seq<byte>, now: uint32)
    requires var a := Core.RequestCall(image, true, now);
      Runs.Inv(cfg, dev) && Core.Enabled(cfg, dev, a) && !Core.StaleAttempt(dev)
    ensures var t := Core.Next(cfg, dev, Core.RequestCall(image, true, now));
      && Core.Requesting(t.c0) && t.pending.bytes == 0 && t.pending.staged == image && t.calls == dev.calls
      && Runs.Inv(cfg, t) && (Runs.LoopInv(dev) ==> Runs.LoopInv(t))
  {
    hide Runs.Inv, Core.Accepted, Runs.HasReturn;
    Runs.InvStep(cfg, dev, Core.RequestCall(image, true, now));
  }

  lemma PollBegins(cfg: Core.Config, dev: Core.State, armed: bool, now: uint32)
    requires Runs.Inv(cfg, dev) && dev.c0.Idle? && dev.pending.bytes != 0
    ensures var t := Core.Next(cfg, dev, Core.PollCall(armed, now));
      && PollRunning(t, dev.base.image, |dev.outcomes|) && t.calls == dev.calls
      && Runs.Inv(cfg, t) && (Runs.LoopInv(dev) ==> Runs.LoopInv(t))
  {
    hide Runs.Inv, Core.Accepted, Runs.HasReturn;
    Runs.InvStep(cfg, dev, Core.PollCall(armed, now));
  }

  lemma DoneStep(cfg: Core.Config, s: State, now: uint32, armed: bool)
    requires Enabled(cfg, s, PollCall(now, armed)) && Inv(cfg, s)
    requires PollOpening(s.up, now, armed, s.dev.pending.bytes != 0, s.dev.dev.published, s.dev.dev.returned).Done?
    ensures Inv(cfg, PollNext(cfg, s, now, armed))
  {
    hide RecordInv, Runs.Inv, Runs.Ended, PollOpening, PollMove, StageInv;
    RecordStage(cfg, s.up, s.log);
    OpeningMove(s.up, now, armed, s.dev.pending.bytes != 0, s.dev.dev.published, s.dev.dev.returned);
    var o := PollOpening(s.up, now, armed, s.dev.pending.bytes != 0, s.dev.dev.published, s.dev.dev.returned);
    PollRecord(cfg, s.up, o.u, s.log);
    PollKeeps(s.up, o.u, s.log);
  }

  lemma RecordStage(cfg: Core.Config, u: Upload, log: Log)
    requires RecordInv(cfg, u, log)
    ensures StageInv(u)
  {
  }

  lemma PollKeeps(u: Upload, v: Upload, log: Log)
    requires PollMove(u, v)
    ensures Logged(log, u.last, v.last, []).content == log.content
  {
  }

  lemma RequestLogged(cfg: Core.Config, u: Upload, v: Upload, log: Log)
    requires RecordInv(cfg, u, log) && u.commitPending && PollMove(u, v) && !Unrequested(v)
    ensures var l := Logged(log, u.last, v.last, []);
      RecordInv(cfg, v, l.(requests := l.requests + [u.last.id])) && l.content == log.content
  {
    PollRecord(cfg, u, v, log);
    hide TrailInv, ContentInv, IdInv, OneMove;
  }

  lemma FailedMove(u: Upload, v: Upload, e: Error)
    requires StageInv(u) && PollMove(u, v) && u.last.state.Committing? && v.last.state.Committing?
    ensures PollMove(u, Fail(v, e))
  {
  }

  lemma RequestStep(cfg: Core.Config, s: State, now: uint32, armed: bool)
    requires Enabled(cfg, s, PollCall(now, armed)) && Timely(s, PollCall(now, armed)) && Inv(cfg, s)
    requires PollOpening(s.up, now, armed, s.dev.pending.bytes != 0, s.dev.dev.published, s.dev.dev.returned).Request?
    ensures Inv(cfg, PollNext(cfg, s, now, armed))
  {
    hide RecordInv, Runs.Inv, Runs.Ended, PollOpening, PollMove, StageInv, Core.Enabled, Core.Next, Runs.LoopInv;
    RecordStage(cfg, s.up, s.log);
    OpeningMove(s.up, now, armed, s.dev.pending.bytes != 0, s.dev.dev.published, s.dev.dev.returned);
    var u := PollOpening(s.up, now, armed, s.dev.pending.bytes != 0, s.dev.dev.published, s.dev.dev.returned).u;
    PendingCommits(s.up, u);
    StagedContent(cfg, s.up, u, s.log);
    var call := Core.RequestCall(Staged(u), true, now);
    if Core.Enabled(cfg, s.dev, call) {
      RequestBegins(cfg, s.dev, Staged(u), now);
      RequestLogged(cfg, s.up, u, s.log);
    } else {
      FailedMove(s.up, u, IoError);
      RequestLogged(cfg, s.up, Fail(u, IoError), s.log);
    }
  }

  lemma PendingCommits(u: Upload, v: Upload)
    requires StageInv(u) && u.commitPending && PollMove(u, v) && AtCall(v)
    ensures u.last.state.Committing? && v.last.size == u.last.size
  {
  }

  lemma PollStep(cfg: Core.Config, s: State, now: uint32, armed: bool)
    requires Enabled(cfg, s, PollCall(now, armed)) && Inv(cfg, s)
    requires PollOpening(s.up, now, armed, s.dev.pending.bytes != 0, s.dev.dev.published, s.dev.dev.returned).Poll?
    ensures Inv(cfg, PollNext(cfg, s, now, armed))
  {
    hide RecordInv, Runs.Inv, Runs.Ended, PollOpening, PollMove, StageInv, Core.Enabled, Core.Next, Runs.LoopInv, PollRunning;
    RecordStage(cfg, s.up, s.log);
    OpeningMove(s.up, now, armed, s.dev.pending.bytes != 0, s.dev.dev.published, s.dev.dev.returned);
    var u := PollOpening(s.up, now, armed, s.dev.pending.bytes != 0, s.dev.dev.published, s.dev.dev.returned).u;
    PollRecord(cfg, s.up, u, s.log);
    PollKeeps(s.up, u, s.log);
    PollBegins(cfg, s.dev, armed, now);
  }

  lemma ClearedMove(u: Upload)
    requires StageInv(u) && AtCall(u)
    ensures PollMove(u, Cleared(u)) && PollMove(u, Fail(u, IoError))
  {
  }

  lemma ResumeRequest(cfg: Core.Config, s: State)
    requires Enabled(cfg, s, Resume) && Inv(cfg, s) && s.phase.Requesting?
    ensures Inv(cfg, ResumeNext(cfg, s))
  {
    hide RecordInv, Runs.Inv, Runs.Ended, PollMove, StageInv, Core.Enabled, Core.Next, Runs.LoopInv, PollRunning;
    RecordStage(cfg, s.up, s.log);
    ClearedMove(s.up);
    if s.dev.pending.bytes == 0 {
      PollRecord(cfg, s.up, Fail(s.up, IoError), s.log);
      PollKeeps(s.up, Fail(s.up, IoError), s.log);
    } else {
      PollRecord(cfg, s.up, Cleared(s.up), s.log);
      PollKeeps(s.up, Cleared(s.up), s.log);
      PollBegins(cfg, s.dev, true, s.phase.now);
    }
  }

  lemma ResumePoll(cfg: Core.Config, s: State)
    requires Enabled(cfg, s, Resume) && Inv(cfg, s) && s.phase.Polling?
    ensures Inv(cfg, ResumeNext(cfg, s))
  {
    hide RecordInv, Runs.Inv, PollMove, StageInv, Runs.LoopInv, PollClosing, Runs.HasReturn;
    RecordStage(cfg, s.up, s.log);
    var r := ReportOf(s.dev);
    ClosingMove(s.up, r);
    PollRecord(cfg, s.up, PollClosing(s.up, r), s.log);
    PollKeeps(s.up, PollClosing(s.up, r), s.log);
  }

  // ---- Device steps ----

  predicate SameLinks(d: Core.State, t: Core.State) {
    && t.c0 == d.c0 && t.pending == d.pending && t.outcomes == d.outcomes && t.base == d.base
    && t.dev.published == d.dev.published
    && (t.dev.returned == d.dev.returned || t.dev.returned == d.dev.published)
  }

  lemma LinksKept(u: Upload, phase: Phase, d: Core.State, t: Core.State, content: seq<byte>)
    requires Linked(u, phase, d, content) && SameLinks(d, t)
    ensures Linked(u, phase, t, content)
  {
  }

  lemma Core0Links(cfg: Core.Config, u: Upload, phase: Phase, d: Core.State, content: seq<byte>, port: Core.Port)
    requires Linked(u, phase, d, content) && Core.PauseInv(cfg, d) && !d.c0.Idle?
    ensures Linked(u, phase, Core.Core0Next(cfg, d, port), content)
  {
    hide Core.WorkNext, Core.Accepted, Runs.HasReturn;
  }

  lemma BootLinks(cfg: Core.Config, u: Upload, d: Core.State, content: seq<byte>, mapped: Core.Span)
    requires Linked(u, Resting, d, content) && Runs.OutcomeInv(cfg, d) && Core.Enabled(cfg, d, Core.BootCall(mapped))
    ensures Linked(u, Resting, Core.Next(cfg, d, Core.BootCall(mapped)), content)
  {
    hide Core.Core0Next, Core.Core1Next, Runs.HasReturn, Runs.Installed, Runs.Live, Runs.Untouched;
  }

  lemma DeviceStep(cfg: Core.Config, s: State, a: Core.Action)
    requires Enabled(cfg, s, Device(a)) && Inv(cfg, s)
    ensures Inv(cfg, Next(cfg, s, Device(a)))
  {
    hide RecordInv, Runs.LoopInv, Core.Core0Next, Core.Core1Next, Runs.CallsInv, Runs.OutcomeInv, Core.PauseInv, Core.RuntimeInv, Linked;
    Runs.InvStep(cfg, s.dev, a);
    Runs.LoopStep(cfg, s.dev, a);
    match a
    case Core0Step(port) => Core0Links(cfg, s.up, s.phase, s.dev, s.log.content, port);
    case BootCall(mapped) => BootLinks(cfg, s.up, s.dev, s.log.content, mapped);
    case Core1Step =>
      Core.Core1Frame(s.dev);
      Core1Returns(cfg, s.dev);
      LinksKept(s.up, s.phase, s.dev, Core.Core1Next(s.dev), s.log.content);
    case SketchStores(ram) => LinksKept(s.up, s.phase, s.dev, Core.Next(cfg, s.dev, a), s.log.content);
  }

  lemma Core1Returns(cfg: Core.Config, d: Core.State)
    requires Core.RuntimeInv(cfg, d)
    ensures var r := Core.Core1Next(d).dev.returned; r == d.dev.returned || r == d.dev.published
  {
    hide Core.WorkInv, Core.DeviceShape, Core.Fresh;
  }

  lemma InvStep(cfg: Core.Config, s: State, a: Action)
    requires Enabled(cfg, s, a) && Timely(s, a) && Inv(cfg, s)
    ensures Inv(cfg, Next(cfg, s, a))
  {
    hide Inv, Core.Next, CallNext, PollOpening, Enabled, ResumeNext;
    match a
    case Called(c) => CallStep(cfg, s, c);
    case PollCall(now, armed) =>
      match PollOpening(s.up, now, armed, s.dev.pending.bytes != 0, s.dev.dev.published, s.dev.dev.returned) {
        case Done(_) => DoneStep(cfg, s, now, armed);
        case Request(_) => RequestStep(cfg, s, now, armed);
        case Poll(_) => PollStep(cfg, s, now, armed);
      }
      TimedInv(cfg, PollNext(cfg, s, now, armed), now, armed);
    case Resume => ResumeStep(cfg, s);
    case Device(d) => DeviceStep(cfg, s, d);
  }

  lemma TimedInv(cfg: Core.Config, s: State, now: uint32, armed: bool)
    requires Inv(cfg, s)
    ensures Inv(cfg, Timed(s, now, armed))
  {
    hide Runs.Inv, Runs.LoopInv, Linked, StageInv, ContentInv, Path, Counting, Increasing;
  }

  lemma ResumeStep(cfg: Core.Config, s: State)
    requires Enabled(cfg, s, Resume) && Inv(cfg, s)
    ensures Inv(cfg, ResumeNext(cfg, s))
  {
    hide Inv, ResumeNext;
    if s.phase.Requesting? {
      ResumeRequest(cfg, s);
    } else {
      ResumePoll(cfg, s);
    }
  }

  lemma {:induction false} InvRun(cfg: Core.Config, s: State, actions: seq<Action>)
    requires Inv(cfg, s) && TimelyRun(cfg, s, actions)
    ensures Inv(cfg, Exec(cfg, s, actions))
  {
    hide Inv, Enabled, Timely, Next;
    if actions != [] {
      var n := |actions| - 1;
      InvRun(cfg, s, actions[..n]);
      InvStep(cfg, Exec(cfg, s, actions[..n]), actions[n]);
    }
  }

  // ---- The theorem ----

  /** IDs count up without reuse; every upload follows the allowed moves; each ID asks for at most one
      replacement. */
  predicate Orderly(log: Log) {
    Counting(log.begun) && Path(log.trail) && Increasing(log.requests)
  }

  /** An installed upload's chunks, in order, have the declared size and digest, are what the slot holds
      and what the running generation was started from. */
  predicate InstalledMeans(cfg: Core.Config, t: State) {
    var d := t.dev.dev;
    Settled(t.up) ==>
      && |t.log.content| == t.up.last.size <= STAGE && cfg.sha(t.log.content) == t.up.last.digest
      && d.slot == Image.Padded(t.log.content)
      && 0 < t.up.generation == d.published == |d.images| && d.images[d.published - 1] == t.log.content
  }

  /** A confirmed boot's generation had its loop called, and the call came back. */
  predicate ConfirmedMeans(t: State) {
    t.up.last.state.BootConfirmed? ==>
      && t.dev.dev.returned == t.up.generation == t.dev.dev.published
      && exists r :: r in t.dev.back && r.gen == t.up.generation && Runs.CameBack(t.dev.calls, r)
  }

  lemma Transactions(cfg: Core.Config, s: State, actions: seq<Action>)
    requires Initial(cfg, s) && TimelyRun(cfg, s, actions)
    ensures var t := Exec(cfg, s, actions); Orderly(t.log) && InstalledMeans(cfg, t) && ConfirmedMeans(t)
  {
    InitialInv(cfg, s);
    InvRun(cfg, s, actions);
    InvMeans(cfg, Exec(cfg, s, actions));
    hide Inv, Exec, TimelyRun;
  }

  lemma InitialInv(cfg: Core.Config, s: State)
    requires Initial(cfg, s)
    ensures Inv(cfg, s)
  {
    hide Runs.Inv;
    Runs.InitialInv(cfg, s.dev);
  }

  lemma InvMeans(cfg: Core.Config, t: State)
    requires Inv(cfg, t)
    ensures Orderly(t.log) && InstalledMeans(cfg, t) && ConfirmedMeans(t)
  {
    hide Runs.Inv, Counting, Path, Increasing, Runs.Live, Runs.Untouched, Runs.Stopped, Runs.CameBack;
    Runs.InvReports(cfg, t.dev);
    if t.up.last.state.BootConfirmed? {
      var r :| r in t.dev.back && r.gen == t.dev.dev.returned;
      assert Runs.CameBack(t.dev.calls, r);
    }
  }
}
