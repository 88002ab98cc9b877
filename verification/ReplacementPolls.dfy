/** How every poll() of a replacement ends, from its arguments and what parked() answered. */
module ReplacementPolls {
  import opened Bytes
  import opened StatefulImage
  import opened TwoCore
  import opened TwoCoreRuns

  /** Milliseconds since the request, on the 32-bit clock. */
  function Waited(v: Visited): nat {
    (v.visit.now - v.asked) % 0x1_0000_0000
  }

  /** The end of one poll(): denied exactly when the arm input is off; otherwise, while core 1 is not
      parked, it times out exactly from the 1000th millisecond on; parked, it runs to a result, which says
      the slot was touched exactly when flash agreed to begin and is a failure if any flash call failed. */
  predicate Fair(v: Visited) {
    var armed, parked := v.visit.armed, v.visit.parked;
    && (v.end == Some(Denied) <==> !armed)
    && (v.end == Some(TimedOut) <==> armed && !parked && Waited(v) >= 1000)
    && (v.end == None <==> armed && !parked && Waited(v) < 1000)
    && (v.end.Some? && (v.end.value.Complete? || v.end.value.Failed?) <==> armed && parked)
    && (v.end.Some? && v.end.value.Failed? ==> v.end.value.touched == v.visit.flashed)
    && (v.end == Some(Complete) ==> v.visit.flashed && !v.visit.fault)
  }

  predicate AllFair(visits: seq<Visited>) {
    forall i :: 0 <= i < |visits| ==> Fair(visits[i])
  }

  /** The ends of these polls, in order. */
  function Endings(visits: seq<Visited>): seq<Outcome> {
    if visits == [] then []
    else
      var v := visits[|visits| - 1];
      Endings(visits[..|visits| - 1]) + if v.end.Some? then [v.end.value] else []
  }

  /** The outcomes of replacements among all outcomes. */
  function Replacements(outcomes: seq<Outcome>): seq<Outcome> {
    if outcomes == [] then []
    else
      var o := outcomes[|outcomes| - 1];
      Replacements(outcomes[..|outcomes| - 1]) + if o.Booted? || o.BootFailed? then [] else [o]
  }

  predicate BeforeFlash(w: Work) {
    w.Revalidate? || w.StopPublished? || w.StopReturned? || w.StopGeneration? || w.FlashBegin?
  }

  predicate WorkVisit(w: Work, v: Visit) {
    && v.armed && v.parked && (BeforeFlash(w) ==> !v.flashed)
    && (!BeforeFlash(w) && !w.Finish? ==> v.flashed)
    && (w.Finish? ==> !w.outcome.Denied? && !w.outcome.TimedOut? && !w.outcome.Booted? && !w.outcome.BootFailed?)
    && (w.Finish? && w.outcome.Failed? ==> w.outcome.touched == v.flashed)
    && (w.Finish? && w.outcome.Complete? ==> v.flashed)
    && (v.fault ==> w == FlashEnd(false) || (w.Finish? && w.outcome.Failed?))
    && (w.Finish? ==> !w.outcome.Rejected?)
  }

  predicate VisitInv(s: State) {
    && AllFair(s.polls.visits) && Endings(s.polls.visits) == Replacements(s.outcomes)
    && (Requesting(s.c0) ==> s.c0.now == s.polls.asked.now && s.pending.staged == s.polls.asked.image)
    && (s.pending.bytes > 0 ==> s.pending.startedAt == s.polls.asked.now && s.pending.staged == s.polls.asked.image)
    && match s.c0
       case Polling(now) => s.polls.visit == Visit(now, true, false, false, false)
       case Cancelling(o) =>
         var v := s.polls.visit;
         && (o.Denied? ==> !v.armed)
         && (o.TimedOut? ==> v.armed && !v.parked && Waited(Visited(v, s.polls.asked.now, None)) >= 1000)
       case Replacing(w) => WorkVisit(w, s.polls.visit)
       case _ => true
  }

  lemma EndingsSnoc(visits: seq<Visited>, v: Visited)
    ensures Endings(visits + [v]) == Endings(visits) + if v.end.Some? then [v.end.value] else []
  {
    assert (visits + [v])[..|visits|] == visits;
  }

  lemma ReplacementsSnoc(outcomes: seq<Outcome>, o: Outcome)
    ensures Replacements(outcomes + [o]) == Replacements(outcomes) + if o.Booted? || o.BootFailed? then [] else [o]
  {
    assert (outcomes + [o])[..|outcomes|] == outcomes;
  }

  lemma ReleasedVisits(s: State, o: Outcome)
    requires VisitInv(s) && !o.Booted? && !o.BootFailed? && Fair(Visited(s.polls.visit, s.polls.asked.now, Some(o)))
    ensures VisitInv(Released(s, o))
  {
    hide Fair, Endings, Replacements, WorkVisit;
    EndingsSnoc(s.polls.visits, Visited(s.polls.visit, s.polls.asked.now, Some(o)));
    ReplacementsSnoc(s.outcomes, o);
  }

  lemma WorkVisits(cfg: Config, d: Device, staged: seq<byte>, w: Work, port: Port, v: Visit)
    requires WorkVisit(w, v) && !w.Finish? && Accepted(cfg, staged)
    ensures WorkVisit(WorkNext(cfg, d, staged, w, port).1, Answered(v, w, port))
  {
    hide Accepted, ReadsBack, Started, InitialRam;
    if w.Start? {
      AbsentFails(cfg, d, w.mapped);
    }
  }

  lemma AbsentFails(cfg: Config, d: Device, mapped: Span)
    ensures Started(cfg, d, mapped, false).error != Ok
  {
  }

  lemma VisitCore0(cfg: Config, s: State, port: Port)
    requires PauseInv(cfg, s) && VisitInv(s) && !s.c0.Idle?
    ensures VisitInv(Core0Next(cfg, s, port))
  {
    hide WorkNext, Accepted, Endings, Replacements, Released;
    match s.c0
    case Polling(now) =>
      var v := Visited(s.polls.visit.(parked := s.parked), s.polls.asked.now, None);
      EndingsSnoc(s.polls.visits, v);
      assert Endings(s.polls.visits) + [] == Endings(s.polls.visits);
    case Cancelling(o) => ReleasedVisits(s, o);
    case Replacing(w) =>
      if w.Finish? {
        ReleasedVisits(s, w.outcome);
      } else {
        WorkVisits(cfg, s.dev, s.pending.staged, w, port, s.polls.visit);
      }
    case Booting(w) =>
      if w.Finish? {
        ReplacementsSnoc(s.outcomes, if w.outcome.Complete? then Booted else BootFailed);
        assert Replacements(s.outcomes) + [] == Replacements(s.outcomes);
      }
    case _ =>
  }

  lemma VisitStep(cfg: Config, s: State, a: Action)
    requires Enabled(cfg, s, a) && PauseInv(cfg, s) && VisitInv(s)
    ensures VisitInv(Next(cfg, s, a))
  {
    hide Core0Next, Core1Next, PauseInv, AllFair, Endings, Replacements, WorkVisit, Accepted;
    match a
    case Core0Step(port) => VisitCore0(cfg, s, port);
    case Core1Step => Core1Frame(s);
    case _ =>
  }

  lemma {:induction false} VisitRun(cfg: Config, s: State, actions: seq<Action>)
    requires Initial(cfg, s) && TimelyRun(cfg, s, actions)
    ensures VisitInv(Exec(cfg, s, actions))
  {
    hide Inv, Enabled, Timely, Next, PauseInv, RuntimeInv, CallsInv, OutcomeInv;
    if actions != [] {
      hide VisitInv, Initial;
      var n := |actions| - 1;
      VisitRun(cfg, s, actions[..n]);
      InitialInv(cfg, s);
      InvRun(cfg, s, actions[..n]);
      InvPause(cfg, Exec(cfg, s, actions[..n]));
      VisitStep(cfg, Exec(cfg, s, actions[..n]), actions[n]);
    }
  }

  lemma InvPause(cfg: Config, s: State)
    requires Inv(cfg, s)
    ensures PauseInv(cfg, s)
  {
    hide PauseInv, RuntimeInv, CallsInv, OutcomeInv;
  }

  /** Over every timely run: each poll() of a replacement that returned ended as its arm input, core 1's
      answer and the time since the request say, these ends are the replacement outcomes, in order, and a
      replacement under way holds the image that request() was given. */
  lemma PollDecisions(cfg: Config, s: State, actions: seq<Action>)
    requires Initial(cfg, s) && TimelyRun(cfg, s, actions)
    ensures var t := Exec(cfg, s, actions);
      && (forall i :: 0 <= i < |t.polls.visits| ==> Fair(t.polls.visits[i]))
      && Endings(t.polls.visits) == Replacements(t.outcomes)
      && (t.pending.bytes > 0 ==> t.pending.staged == t.base.image == t.polls.asked.image)
  {
    hide Inv, TimelyRun, Exec, Fair, Endings, Replacements, WorkVisit, CallsInv, PauseInv, RuntimeInv, Padded;
    VisitRun(cfg, s, actions);
    InitialInv(cfg, s);
    InvRun(cfg, s, actions);
    InvBase(cfg, Exec(cfg, s, actions));
  }

  lemma InvBase(cfg: Config, s: State)
    requires Inv(cfg, s)
    ensures s.pending.bytes > 0 ==> s.base.image == s.pending.staged
  {
    hide PauseInv, RuntimeInv, CallsInv, Padded;
  }

  /** A poll() that has to wait changes nothing. */
  lemma WaitChangesNothing(cfg: Config, s: State, actions: seq<Action>, port: Port)
    requires Initial(cfg, s) && TimelyRun(cfg, s, actions)
    requires var t := Exec(cfg, s, actions); t.c0.Polling? && !t.parked
    ensures var t := Exec(cfg, s, actions); var u := Core0Next(cfg, t, port);
      if (t.c0.now - t.polls.asked.now) % 0x1_0000_0000 < 1000 then u == t.(c0 := Idle, polls := u.polls)
      else u == t.(c0 := Cancelling(TimedOut), polls := u.polls)
  {
    hide TimelyRun, Exec, AllFair, Endings, Replacements, WorkVisit, Inv, Initial, PauseInv;
    VisitRun(cfg, s, actions);
    InitialInv(cfg, s);
    InvRun(cfg, s, actions);
    var t := Exec(cfg, s, actions);
    InvPause(cfg, t);
    PollingPends(cfg, t);
  }

  lemma PollingPends(cfg: Config, t: State)
    requires PauseInv(cfg, t) && t.c0.Polling?
    ensures t.pending.bytes > 0
  {
    hide Accepted;
  }
}
