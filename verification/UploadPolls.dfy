/** When and why Upload::poll() ends a transaction: the staging lease, the arm input and the replacement's report. */
module UploadPolls {
  import opened Bytes
  import opened Upload
  import opened UploadRuns
  import Core = TwoCore
  import Runs = TwoCoreRuns
  import Polls = ReplacementPolls

  /** Milliseconds from the poll() before the transaction began to this one, on the 32-bit clock. */
  function Age(s: State, now: uint32): nat {
    (now - s.log.begunAt) % 0x1_0000_0000
  }

  /** The record's clock is the latest poll's, a staged transaction began at the logged time, and only an
      ended one has an error. */
  predicate ClockInv(s: State) {
    && s.up.now == s.log.clock && (BlocksConsole(s.up) ==> s.up.stagedAt == s.log.begunAt)
    && (s.up.last.error != NoError ==> s.up.last.state.Failed? || s.up.last.state.Aborted?)
  }

  /** A poll() that is inside Replacement::poll() passed its own arguments, and a returned one left the
      report that Upload::poll() is about to read. */
  predicate VisitLink(s: State) {
    var p, d := s.dev.polls, s.dev;
    && (s.phase.Requesting? ==> s.phase.now == s.log.clock && s.log.armed)
    && (s.phase.Polling? ==>
          && p.visit.armed == s.log.armed && p.visit.now == s.log.clock
          && (d.c0.Idle? ==>
                && p.visits != [] && p.visits[|p.visits| - 1].visit == p.visit
                && p.visits[|p.visits| - 1].asked == p.asked.now
                && (if d.pending.bytes != 0 then p.visits[|p.visits| - 1].end == None
                    else d.outcomes != [] && p.visits[|p.visits| - 1].end == Some(d.outcomes[|d.outcomes| - 1]))))
  }

  predicate PollInv(s: State) {
    ClockInv(s) && VisitLink(s)
  }

  lemma CallClock(cfg: Core.Config, s: State, c: Call)
    requires PollInv(s) && StageInv(s.up) && s.phase.Resting?
    ensures PollInv(Next(cfg, s, Called(c)))
  {
    hide Image.Validate;
  }

  lemma PollClock(cfg: Core.Config, s: State, now: uint32, armed: bool)
    requires PollInv(s) && StageInv(s.up) && s.phase.Resting? && s.dev.c0.Idle?
    ensures PollInv(Next(cfg, s, PollCall(now, armed)))
  {
    hide Core.Accepted, Core.Enabled, Elapsed;
  }

  lemma ResumeClock(cfg: Core.Config, s: State)
    requires PollInv(s) && StageInv(s.up) && !s.phase.Resting? && s.dev.c0.Idle? && s.up.last.state.Committing?
    ensures PollInv(Next(cfg, s, Resume))
  {
    hide Core.Accepted, ReportOf;
  }

  lemma DeviceClock(cfg: Core.Config, s: State, a: Core.Action)
    requires PollInv(s) && Enabled(cfg, s, Device(a)) && Core.PauseInv(cfg, s.dev)
    requires s.phase.Polling? ==> !Core.Requesting(s.dev.c0) && !s.dev.c0.Booting?
    ensures PollInv(Next(cfg, s, Device(a)))
  {
    hide Core.WorkNext, Core.Accepted, Core.Core1Next, Elapsed;
    if a.Core1Step? {
      Core.Core1Frame(s.dev);
    }
  }

  /** Every device move that Upload::poll() makes is a step of the two-core machine. */
  lemma DeviceMoves(cfg: Core.Config, s: State, a: Action)
    requires Enabled(cfg, s, a) && Inv(cfg, s) && Polls.VisitInv(s.dev)
    ensures Polls.VisitInv(Next(cfg, s, a).dev)
  {
    hide RecordInv, Runs.LoopInv, Core.RuntimeInv, Runs.CallsInv, Runs.OutcomeInv, Core.PauseInv, Polls.VisitInv, Core.Next, CallNext,
      PollOpening, Core.Accepted;
    match a
    case Called(_) =>
    case PollCall(now, armed) =>
      var o := PollOpening(s.up, now, armed, s.dev.pending.bytes != 0, s.dev.dev.published, s.dev.dev.returned);
      var call := Core.RequestCall(Staged(o.u), true, now);
      if Core.Enabled(cfg, s.dev, call) {
        Polls.VisitStep(cfg, s.dev, call);
      }
      if s.dev.pending.bytes != 0 {
        Polls.VisitStep(cfg, s.dev, Core.PollCall(armed, now));
      }
    case Resume =>
      if s.phase.Requesting? && s.dev.pending.bytes != 0 {
        Polls.VisitStep(cfg, s.dev, Core.PollCall(true, s.phase.now));
      }
    case Device(d) => Polls.VisitStep(cfg, s.dev, d);
  }

  lemma PollInvStep(cfg: Core.Config, s: State, a: Action)
    requires Enabled(cfg, s, a) && Inv(cfg, s) && PollInv(s)
    ensures PollInv(Next(cfg, s, a))
  {
    hide PollInv, Next, IdInv, TrailInv, RequestInv, ContentInv, Runs.LoopInv, StageInv, Core.PauseInv, Core.RuntimeInv, Runs.CallsInv,
      Runs.OutcomeInv;
    match a
    case Called(c) => CallClock(cfg, s, c);
    case PollCall(now, armed) => PollClock(cfg, s, now, armed);
    case Resume => ResumeClock(cfg, s);
    case Device(d) => DeviceClock(cfg, s, d);
  }

  lemma {:induction false} PollInvRun(cfg: Core.Config, s: State, actions: seq<Action>)
    requires Initial(cfg, s) && TimelyRun(cfg, s, actions)
    ensures var t := Exec(cfg, s, actions); PollInv(t) && Inv(cfg, t) && Polls.VisitInv(t.dev)
  {
    hide Inv, Enabled, Timely, Next, Polls.WorkVisit;
    InitialInv(cfg, s);
    InvRun(cfg, s, actions);
    if actions != [] {
      hide PollInv, Initial, Polls.VisitInv;
      var n := |actions| - 1;
      PollInvRun(cfg, s, actions[..n]);
      PollInvStep(cfg, Exec(cfg, s, actions[..n]), actions[n]);
      DeviceMoves(cfg, Exec(cfg, s, actions[..n]), actions[n]);
    }
  }

  // ---- What each poll() does, after every run ----

  /** Nothing but the clock. */
  function Ticked(s: State, now: uint32, armed: bool): State {
    s.(up := s.up.(now := now), log := s.log.(clock := now, armed := armed))
  }

  /** The record of a transaction that poll() gave up on. */
  function GaveUp(last: Status, e: Error): Status {
    last.(state := Stage.Failed, error := e)
  }

  lemma LinkedIdle(s: State)
    requires Linked(s.up, s.phase, s.dev, s.log.content) && s.phase.Resting?
    ensures s.up.last.state.Accepted? || s.up.last.state.Verified? || s.up.commitPending ==> s.dev.pending.bytes == 0
  {
    hide Runs.Ended;
  }

  /** A staged transaction outlives a poll() exactly while less than 30 seconds have passed since the
      clock at its begin; then nothing but the clock changes, and otherwise it fails with io_error. */
  lemma StagingPoll(cfg: Core.Config, s: State, actions: seq<Action>, now: uint32, armed: bool)
    requires Initial(cfg, s) && TimelyRun(cfg, s, actions) && Enabled(cfg, Exec(cfg, s, actions), PollCall(now, armed))
    requires var u := Exec(cfg, s, actions).up; u.last.id != 0 && (u.last.state.Accepted? || u.last.state.Verified?)
    ensures var t := Exec(cfg, s, actions); var u := Next(cfg, t, PollCall(now, armed));
      && t.dev.pending.bytes == 0 && u.dev == t.dev && u.phase.Resting?
      && (u.up.last.state.Failed? <==> Age(t, now) >= 30000)
      && (Age(t, now) >= 30000 ==> u.up.last == GaveUp(t.up.last, IoError) && u.up.stage == Fill(STAGE, 0))
      && (Age(t, now) < 30000 ==> u == Ticked(t, now, armed))
  {
    hide TimelyRun, Exec, Initial, RecordInv, Runs.Inv, Runs.LoopInv, Polls.VisitInv, Linked;
    PollInvRun(cfg, s, actions);
    var t := Exec(cfg, s, actions);
    LinkedIdle(t);
  }

  /** A queued commit: past the lease it fails with io_error, unarmed with unauthorized; otherwise the
      replacement is asked for, once, and if it refuses outright the commit fails with io_error. */
  lemma CommitPoll(cfg: Core.Config, s: State, actions: seq<Action>, now: uint32, armed: bool)
    requires Initial(cfg, s) && TimelyRun(cfg, s, actions) && Enabled(cfg, Exec(cfg, s, actions), PollCall(now, armed))
    requires Exec(cfg, s, actions).up.commitPending
    ensures var t := Exec(cfg, s, actions); var u := Next(cfg, t, PollCall(now, armed));
      && (Age(t, now) >= 30000 ==> u.up.last == GaveUp(t.up.last, IoError) && u.log.requests == t.log.requests && u.dev == t.dev)
      && (Age(t, now) < 30000 && !armed ==>
            u.up.last == GaveUp(t.up.last, Unauthorized) && u.log.requests == t.log.requests && u.dev == t.dev)
      && (Age(t, now) < 30000 && armed ==>
            && u.log.requests == t.log.requests + [t.up.last.id]
            && (if u.phase == Requesting(now) then u.up.last == t.up.last && u.dev.polls.asked == Core.Asked(t.log.content, true, now)
                else u.phase.Resting? && u.up.last == GaveUp(t.up.last, IoError) && u.dev == t.dev))
  {
    hide TimelyRun, Exec, Initial, Runs.Inv, Runs.LoopInv, Polls.VisitInv, IdInv, TrailInv, RequestInv, Core.Accepted, Core.Enabled;
    PollInvRun(cfg, s, actions);
    var t := Exec(cfg, s, actions);
    LinkedIdle(t);
    StagedContent(cfg, t.up, t.up, t.log);
    assert Staged(t.up.(now := now, commitPending := false)) == Staged(t.up);
  }

  /** The poll() that asked continues: a replacement that did not take the request fails it with io_error. */
  lemma RequestedPoll(cfg: Core.Config, s: State, actions: seq<Action>)
    requires Initial(cfg, s) && TimelyRun(cfg, s, actions) && Enabled(cfg, Exec(cfg, s, actions), Resume)
    requires Exec(cfg, s, actions).phase.Requesting?
    ensures var t := Exec(cfg, s, actions); var u := Next(cfg, t, Resume);
      if t.dev.pending.bytes == 0 then u.phase.Resting? && u.up.last == GaveUp(t.up.last, IoError) && u.dev == t.dev
      else u.phase.Polling? && u.up.last == t.up.last && u.up.stage == Fill(STAGE, 0) &&
           u.dev.c0 == Core.Polling(t.log.clock)
  {
    hide TimelyRun, Exec, Initial, RecordInv, Runs.Inv, Runs.LoopInv, Polls.VisitInv, Linked;
    PollInvRun(cfg, s, actions);
  }

  /** What the report of one Replacement::poll() makes of a committing record. */
  function Reported(last: Status, end: Option<Core.Outcome>): Status {
    match end
    case None => last.(touched := false)
    case Some(o) =>
      match o
      case Denied => GaveUp(last, Unauthorized).(touched := false)
      case TimedOut => GaveUp(last, ParkTimeout).(touched := false)
      case Complete => last.(state := Installed, touched := true)
      case Failed(touched) => GaveUp(last, InstallFailed).(touched := touched)
      case _ => last
  }

  /** The end of a poll() that went through the replacement: the record follows the report, and the report
      follows the poll's own arm input, core 1's answer and the time since the request. */
  lemma ReportedPoll(cfg: Core.Config, s: State, actions: seq<Action>)
    requires Initial(cfg, s) && TimelyRun(cfg, s, actions) && Enabled(cfg, Exec(cfg, s, actions), Resume)
    requires Exec(cfg, s, actions).phase.Polling?
    ensures var t := Exec(cfg, s, actions); var u := Next(cfg, t, Resume); var visits := t.dev.polls.visits;
      && visits != []
      && var v := visits[|visits| - 1];
         && Polls.Fair(v) && v.visit.armed == t.log.armed && v.visit.now == t.log.clock
         && u.phase.Resting? && u.up.last == Reported(t.up.last, v.end) && u.dev == t.dev
         && (v.end == Some(Core.Complete) ==> u.up.generation == t.dev.dev.published)
  {
    hide TimelyRun, Exec, Initial, RecordInv, Runs.Inv, Runs.LoopInv, Polls.Fair, Polls.Endings, Polls.Replacements, Polls.WorkVisit;
    PollInvRun(cfg, s, actions);
    var t := Exec(cfg, s, actions);
    var v := t.dev.polls.visits[|t.dev.polls.visits| - 1];
    assert Polls.Fair(v);
    FairEnds(v);
    PollingCommits(cfg, t);
  }

  lemma FairEnds(v: Core.Visited)
    requires Polls.Fair(v)
    ensures v.end.None? || v.end.value.Denied? || v.end.value.TimedOut? || v.end.value.Complete? || v.end.value.Failed?
  {
  }

  lemma PollingCommits(cfg: Core.Config, t: State)
    requires Inv(cfg, t) && t.phase.Polling?
    ensures t.up.last.state.Committing?
  {
    hide RecordInv, Runs.Inv, Runs.LoopInv;
  }

  /** An installed capsule is confirmed by exactly the polls that find its generation published and its
      loop returned; every other poll() of a record that is not staged changes nothing but the clock. */
  lemma SettledPoll(cfg: Core.Config, s: State, actions: seq<Action>, now: uint32, armed: bool)
    requires Initial(cfg, s) && TimelyRun(cfg, s, actions) && Enabled(cfg, Exec(cfg, s, actions), PollCall(now, armed))
    requires !BlocksConsole(Exec(cfg, s, actions).up)
    ensures var t := Exec(cfg, s, actions); var u := Next(cfg, t, PollCall(now, armed)); var d := t.dev.dev;
      if t.up.last.state.Installed? && d.published != 0 && d.published == d.returned then
        u.up.last == t.up.last.(state := BootConfirmed) && u.dev == t.dev
      else u == Ticked(t, now, armed)
  {
    hide TimelyRun, Exec, Initial, IdInv, TrailInv, RequestInv, ContentInv, Runs.LoopInv, Polls.VisitInv, Runs.Inv;
    PollInvRun(cfg, s, actions);
    var t := Exec(cfg, s, actions);
    if t.up.last.state.Installed? {
      InstalledRuns(cfg, t);
    }
  }

  lemma InstalledRuns(cfg: Core.Config, t: State)
    requires Inv(cfg, t) && t.up.last.state.Installed?
    ensures t.up.generation == t.dev.dev.published
  {
    hide RecordInv, Runs.Inv, Runs.LoopInv;
  }

  /** A poll() ends a transaction as unauthorized only with the arm input off. */
  lemma UnauthorizedMeansUnarmed(cfg: Core.Config, s: State, actions: seq<Action>, a: Action)
    requires Initial(cfg, s) && TimelyRun(cfg, s, actions) && Enabled(cfg, Exec(cfg, s, actions), a) && (a.PollCall? || a.Resume?)
    ensures var t := Exec(cfg, s, actions); var u := Next(cfg, t, a);
      u.up.last != t.up.last && u.up.last.error == Unauthorized ==> u.log.armed == false && u.up.last.state.Failed?
  {
    hide TimelyRun, Exec, Initial, Inv, Polls.VisitInv, Polls.Fair;
    var t := Exec(cfg, s, actions);
    PollInvRun(cfg, s, actions);
    if a.Resume? && t.phase.Polling? {
      hide Next;
      ReportedPoll(cfg, s, actions);
      PollingCommits(cfg, t);
      UnauthorizedVisit(t.dev.polls.visits[|t.dev.polls.visits| - 1]);
      ResumeKeepsInput(cfg, t);
    } else if a.Resume? {
      hide Next;
      RequestedPoll(cfg, s, actions);
      ResumeKeepsInput(cfg, t);
    } else {
    }
  }

  lemma ResumeKeepsInput(cfg: Core.Config, t: State)
    ensures Next(cfg, t, Resume).log.armed == t.log.armed
  {
    hide Core.Next, PollClosing, ReportOf;
  }

  lemma UnauthorizedVisit(v: Core.Visited)
    requires Polls.Fair(v)
    ensures v.end == Some(Core.Denied) ==> !v.visit.armed
  {
  }
}
