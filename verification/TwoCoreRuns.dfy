/**
 What whole runs of the two-core machine keep: mutual exclusion, one fresh setup
 per generation, and the outcomes of replacements.
 */
module TwoCoreRuns {
  import opened Bytes
  import opened StatefulImage
  import opened TwoCore

  // ---- Entry calls ----

  predicate CallOk(cfg: Config, images: seq<seq<byte>>, c: Call) {
    && 1 <= c.gen <= |images|
    && match c
       case Setup(g, address, ram) => address == InfoOf(cfg, images[g - 1]).setup && FreshRam(cfg, images[g - 1], ram)
       case Loop(g, address) => address == InfoOf(cfg, images[g - 1]).loop
  }

  predicate CallsOk(cfg: Config, images: seq<seq<byte>>, calls: seq<Call>) {
    forall c :: c in calls ==> CallOk(cfg, images, c)
  }

  predicate HasSetup(calls: seq<Call>, g: uint32) {
    exists c :: c in calls && c.Setup? && c.gen == g
  }

  predicate Below(calls: seq<Call>, g: uint32) {
    forall c :: c in calls ==> c.gen < g
  }

  /** Generations never go back, a setup opens its generation, and every loop follows its setup. */
  predicate InOrder(calls: seq<Call>) {
    calls == [] ||
    (var n := |calls| - 1; var c := calls[n];
     && InOrder(calls[..n])
     && (if c.Setup? then Below(calls[..n], c.gen)
         else HasSetup(calls[..n], c.gen) && forall b :: b in calls[..n] ==> b.gen <= c.gen))
  }

  predicate CallsInv(cfg: Config, s: State) {
    && CallsOk(cfg, s.dev.images, s.calls) && InOrder(s.calls)
    && (SetupDue(s) || (Working(s.c0) && Unpublished(s.c0.work)) ==> Below(s.calls, s.dev.last))
    && (s.dev.published != 0 && !SetupDue(s) ==> HasSetup(s.calls, s.dev.published))
  }

  lemma Appended(calls: seq<Call>, c: Call)
    requires InOrder(calls)
    requires if c.Setup? then Below(calls, c.gen) else HasSetup(calls, c.gen) && forall b :: b in calls ==> b.gen <= c.gen
    ensures InOrder(calls + [c])
  {
    assert (calls + [c])[..|calls|] == calls;
  }

  lemma CallsSetup(cfg: Config, s: State)
    requires RuntimeInv(cfg, s) && CallsInv(cfg, s) && s.c1.EnterSetup?
    ensures CallsInv(cfg, Core1Next(s))
  {
    hide Accepted, FreshRam, InfoOf, WorkInv, InOrder;
    var c := Setup(s.c1.gen, s.dev.image.setup, s.dev.ram);
    Appended(s.calls, c);
    assert CallOk(cfg, s.dev.images, c);
    hide CallOk, Fresh, DeviceShape;
    assert c in s.calls + [c];
  }

  lemma CallsLoop(cfg: Config, s: State)
    requires RuntimeInv(cfg, s) && CallsInv(cfg, s) && s.c1.EnterLoop?
    ensures CallsInv(cfg, Core1Next(s))
  {
    hide Accepted, FreshRam, InfoOf, WorkInv, InOrder;
    var c := Loop(s.c1.gen, s.dev.image.loop);
    Appended(s.calls, c);
    assert CallOk(cfg, s.dev.images, c);
    hide CallOk, Fresh, DeviceShape;
    var b :| b in s.calls && b.Setup? && b.gen == c.gen;
    assert b in s.calls + [c];
  }

  lemma CallsCore1(cfg: Config, s: State)
    requires RuntimeInv(cfg, s) && CallsInv(cfg, s)
    ensures CallsInv(cfg, Core1Next(s))
  {
    hide Accepted, CallsOk, WorkInv, InOrder, Fresh, DeviceShape;
    match s.c1
    case EnterSetup(_) => CallsSetup(cfg, s);
    case EnterLoop(_) => CallsLoop(cfg, s);
    case _ =>
  }

  lemma CallsWork(cfg: Config, s: State, port: Port)
    requires RuntimeInv(cfg, s) && CallsInv(cfg, s) && Working(s.c0) && !s.c0.work.Finish?
    ensures CallsInv(cfg, Core0Next(cfg, s, port))
  {
    hide Accepted, FreshRam, InfoOf, WorkInv, InOrder, WorkNext, Fresh;
    WorkProgress(cfg, s.dev, s.pending.staged, s.c0.work, port, s.c0.Booting?);
  }

  lemma CallsStep(cfg: Config, s: State, a: Action)
    requires Enabled(cfg, s, a) && RuntimeInv(cfg, s) && CallsInv(cfg, s) && PauseInv(cfg, s)
    ensures CallsInv(cfg, Next(cfg, s, a))
  {
    hide Accepted, CallsOk, WorkInv, InOrder, Fresh, DeviceShape, WorkNext;
    match a
    case Core1Step => CallsCore1(cfg, s);
    case Core0Step(port) =>
      if Working(s.c0) && !s.c0.work.Finish? {
        CallsWork(cfg, s, port);
      }
    case _ =>
  }

  // ---- Outcomes ----

  /** poll() has cleared `published`; the old generation can no longer be kept. */
  predicate Stopped(c: Core0) {
    c.Replacing? && !c.work.Revalidate? && !c.work.StopPublished?
  }

  /** Whether the latest boot or replacement that got past the stop succeeded. */
  predicate Live(outcomes: seq<Outcome>) {
    outcomes != [] &&
    match outcomes[|outcomes| - 1]
    case Booted | Complete => true
    case BootFailed | Failed(_) => false
    case _ => Live(outcomes[..|outcomes| - 1])
  }

  predicate Untouched(s: State) {
    s.dev.slot == s.base.slot && s.dev.published == s.base.published && s.dev.writes == s.base.writes
  }

  predicate Installed(s: State) {
    && |s.base.image| <= MAXIMUM_CAPSULE && s.dev.slot == Padded(s.base.image)
    && 0 < s.dev.last == s.dev.published == |s.dev.images| && s.dev.images[s.dev.last - 1] == s.base.image
  }

  predicate Flashing(c: Core0) {
    c.Replacing? && (c.work.FlashErase? || c.work.FlashProgram? || c.work.FlashEnd?)
  }

  predicate Ended(s: State, o: Outcome) {
    s.pending.bytes == 0 && s.outcomes != [] && s.outcomes[|s.outcomes| - 1] == o
  }

  predicate OutcomeInv(cfg: Config, s: State) {
    && (s.pending.bytes > 0 ==> s.base.image == s.pending.staged && (!Stopped(s.c0) ==> Untouched(s)))
    && (Ended(s, Denied) || Ended(s, TimedOut) ==> Untouched(s))
    && (Ended(s, Complete) ==> Installed(s))
    && (s.outcomes != [] || s.pending.bytes > 0 ==> s.bootAttempted && !s.c0.Booting?)
    && (!Stopped(s.c0) && !s.c0.Booting? ==> (s.dev.published != 0 <==> Live(s.outcomes)))
    && (s.dev.flashOpen <==> Flashing(s.c0))
  }

  lemma OutcomeWork(cfg: Config, s: State, port: Port)
    requires PauseInv(cfg, s) && RuntimeInv(cfg, s) && OutcomeInv(cfg, s) && Working(s.c0) && !s.c0.work.Finish?
    ensures OutcomeInv(cfg, Core0Next(cfg, s, port))
  {
    hide Accepted, Padded, Started, InitialRam, ReadsBack, FreshRam, InfoOf, Live, Validate;
  }

  lemma LiveAppend(outcomes: seq<Outcome>, o: Outcome)
    ensures Live(outcomes + [o]) == (o.Booted? || o.Complete? || (!o.BootFailed? && !o.Failed? && Live(outcomes)))
    ensures outcomes + [o] != [] && (outcomes + [o])[|outcomes + [o]| - 1] == o
  {
    assert (outcomes + [o])[..|outcomes|] == outcomes;
  }

  lemma OutcomeFinish(cfg: Config, s: State, port: Port)
    requires PauseInv(cfg, s) && RuntimeInv(cfg, s) && OutcomeInv(cfg, s) && Working(s.c0) && s.c0.work.Finish?
    ensures OutcomeInv(cfg, Core0Next(cfg, s, port))
  {
    hide Accepted, Padded, InitialRam, WorkNext, Live, Validate;
    var o := s.c0.work.outcome;
    if s.c0.Replacing? {
      LiveAppend(s.outcomes, o);
      if o.Complete? {
        ReadBackSpan(cfg, s.dev.slot, s.pending.staged);
      }
    } else {
      LiveAppend(s.outcomes, if o.Complete? then Booted else BootFailed);
    }
    hide ReadsBack;
  }

  lemma OutcomeQuick(cfg: Config, s: State, port: Port)
    requires PauseInv(cfg, s) && OutcomeInv(cfg, s) && !Working(s.c0)
    ensures OutcomeInv(cfg, Core0Next(cfg, s, port))
  {
    hide Accepted, Padded, Live;
    if s.c0.Cancelling? {
      LiveAppend(s.outcomes, s.c0.outcome);
    }
  }

  lemma OutcomeCore1(cfg: Config, s: State)
    requires OutcomeInv(cfg, s)
    ensures OutcomeInv(cfg, Core1Next(s))
  {
    Core1Frame(s);
    hide Padded, Live, Core1Next;
  }

  lemma OutcomeCall(cfg: Config, s: State, a: Action)
    requires Enabled(cfg, s, a) && PauseInv(cfg, s) && OutcomeInv(cfg, s) && !a.Core0Step? && !a.Core1Step?
    ensures OutcomeInv(cfg, Next(cfg, s, a))
  {
    hide Accepted, Padded, Live;
  }

  lemma OutcomeStep(cfg: Config, s: State, a: Action)
    requires Enabled(cfg, s, a) && PauseInv(cfg, s) && RuntimeInv(cfg, s) && OutcomeInv(cfg, s)
    ensures OutcomeInv(cfg, Next(cfg, s, a))
  {
    hide PauseInv, RuntimeInv, OutcomeInv, Core0Next, Core1Next;
    if a.Core1Step? {
      OutcomeCore1(cfg, s);
    } else if !a.Core0Step? {
      OutcomeCall(cfg, s, a);
    } else if !Working(s.c0) {
      OutcomeQuick(cfg, s, a.port);
    } else if s.c0.work.Finish? {
      OutcomeFinish(cfg, s, a.port);
    } else {
      OutcomeWork(cfg, s, a.port);
    }
  }

  // ---- Every timely run ----

  predicate Inv(cfg: Config, s: State) {
    PauseInv(cfg, s) && RuntimeInv(cfg, s) && CallsInv(cfg, s) && OutcomeInv(cfg, s)
  }

  lemma InitialInv(cfg: Config, s: State)
    requires Initial(cfg, s)
    ensures Inv(cfg, s)
  {
    hide Accepted;
  }

  lemma InvStep(cfg: Config, s: State, a: Action)
    requires Enabled(cfg, s, a) && Timely(s, a) && Inv(cfg, s)
    ensures Inv(cfg, Next(cfg, s, a))
  {
    PauseStep(cfg, s, a);
    RuntimeStep(cfg, s, a);
    CallsStep(cfg, s, a);
    OutcomeStep(cfg, s, a);
  }

  lemma {:induction false} InvRun(cfg: Config, s: State, actions: seq<Action>)
    requires Inv(cfg, s) && TimelyRun(cfg, s, actions)
    ensures Inv(cfg, Exec(cfg, s, actions))
  {
    hide Inv, Enabled, Timely, Next;
    if actions != [] {
      var n := |actions| - 1;
      InvRun(cfg, s, actions[..n]);
      InvStep(cfg, Exec(cfg, s, actions[..n]), actions[n]);
    }
  }

  /** While flash is open, or core 0 is anywhere between its parked() check and its release, core 1 is
      in the park loop; until boot publishes, core 1 is in no sketch entry. */
  predicate Excluded(s: State) {
    && (s.dev.flashOpen || s.c0.Replacing? ==> s.c1.Spinning? && s.parked)
    && (s.c0.Booting? && !s.c0.work.Finish? ==> !InEntry(s.c1))
  }

  lemma MutualExclusion(cfg: Config, s: State, actions: seq<Action>)
    requires Initial(cfg, s) && TimelyRun(cfg, s, actions)
    ensures Excluded(Exec(cfg, s, actions))
  {
    InitialInv(cfg, s);
    InvRun(cfg, s, actions);
    var t := Exec(cfg, s, actions);
    if t.c0.Booting? {
      WorkQuiet(cfg, t.dev, t.pending.staged, t.c0.work, true, 0, []);
    }
    hide CallsInv, WorkInv, Exec, TimelyRun;
  }

  // ---- One fresh setup per generation ----

  lemma {:induction false} OrderedPair(calls: seq<Call>, i: nat, j: nat)
    requires InOrder(calls) && i < j < |calls|
    ensures calls[i].gen <= calls[j].gen
    ensures calls[j].Setup? ==> calls[i].gen < calls[j].gen
  {
    var n := |calls| - 1;
    if j < n {
      OrderedPair(calls[..n], i, j);
    } else {
      assert calls[i] in calls[..n];
    }
  }

  lemma {:induction false} SetupPrecedes(calls: seq<Call>, j: nat)
    requires InOrder(calls) && j < |calls| && calls[j].Loop?
    ensures exists i :: 0 <= i < j && calls[i].Setup? && calls[i].gen == calls[j].gen
  {
    var n := |calls| - 1;
    if j < n {
      SetupPrecedes(calls[..n], j);
      var i :| 0 <= i < j && calls[..n][i].Setup? && calls[..n][i].gen == calls[..n][j].gen;
      assert calls[i].Setup?;
    } else {
      var c :| c in calls[..n] && c.Setup? && c.gen == calls[j].gen;
      var i :| 0 <= i < n && calls[..n][i] == c;
      assert calls[i].Setup?;
    }
  }

  /** Setup runs at most once per generation and before its first loop, on RAM holding that capsule's
      data followed by zeros, and every call uses that capsule's own entry. */
  lemma SetupOnceOnFreshRam(cfg: Config, s: State, actions: seq<Action>)
    requires Initial(cfg, s) && TimelyRun(cfg, s, actions)
    ensures var t := Exec(cfg, s, actions);
      && (forall j :: 0 <= j < |t.calls| ==> CallOk(cfg, t.dev.images, t.calls[j]))
      && (forall i, j :: 0 <= i < j < |t.calls| && t.calls[j].Setup? ==> t.calls[i].gen < t.calls[j].gen)
      && (forall j :: 0 <= j < |t.calls| && t.calls[j].Loop? ==>
            exists i :: 0 <= i < j && t.calls[i].Setup? && t.calls[i].gen == t.calls[j].gen)
  {
    InitialInv(cfg, s);
    InvRun(cfg, s, actions);
    var t := Exec(cfg, s, actions);
    assert InOrder(t.calls) && CallsOk(cfg, t.dev.images, t.calls);
    hide Exec, TimelyRun, Inv, InOrder, CallOk;
    forall i, j | 0 <= i < j < |t.calls| ensures t.calls[j].Setup? ==> t.calls[i].gen < t.calls[j].gen {
      OrderedPair(t.calls, i, j);
    }
    forall j | 0 <= j < |t.calls| && t.calls[j].Loop?
      ensures exists i :: 0 <= i < j && t.calls[i].Setup? && t.calls[i].gen == t.calls[j].gen {
      SetupPrecedes(t.calls, j);
    }
  }

  // ---- Generation numbers ----

  predicate Offering(s: State) {
    Working(s.c0) && Unpublished(s.c0.work)
  }

  lemma LastStep(cfg: Config, s: State, a: Action)
    requires Enabled(cfg, s, a) && Inv(cfg, s)
    ensures var t := Next(cfg, s, a);
      && s.dev.last <= t.dev.last && s.dev.images <= t.dev.images
      && (Offering(t) && !Offering(s) ==> s.dev.last < t.dev.last)
      && (t.dev.published != s.dev.published && t.dev.published != 0 ==> Offering(s) && t.dev.published == s.dev.last)
  {
    hide Inv, WorkNext, Accepted, Core1Next;
    if a.Core0Step? && Working(s.c0) && !s.c0.work.Finish? {
      hide Core0Next;
      LastWork(cfg, s, a.port);
    } else if a.Core1Step? {
      Core1Frame(s);
    }
  }

  lemma LastWork(cfg: Config, s: State, port: Port)
    requires Inv(cfg, s) && Working(s.c0) && !s.c0.work.Finish?
    ensures var t := Core0Next(cfg, s, port);
      && s.dev.last <= t.dev.last && s.dev.images <= t.dev.images
      && (Offering(t) && !Offering(s) ==> s.dev.last < t.dev.last)
      && (t.dev.published != s.dev.published && t.dev.published != 0 ==> Offering(s) && t.dev.published == s.dev.last)
  {
    hide CallsInv, OutcomeInv, WorkInv, WorkNext, PauseInv, DeviceShape, Fresh;
    WorkProgress(cfg, s.dev, s.pending.staged, s.c0.work, port, s.c0.Booting?);
  }

  lemma {:induction false} LastGrows(cfg: Config, s: State, actions: seq<Action>, k: nat)
    requires Inv(cfg, s) && TimelyRun(cfg, s, actions) && k <= |actions|
    ensures TimelyRun(cfg, s, actions[..k])
    ensures var b := Exec(cfg, s, actions[..k]); var t := Exec(cfg, s, actions);
      && b.dev.last <= t.dev.last
      && (Offering(t) && !Offering(b) ==> b.dev.last < t.dev.last)
  {
    hide Inv, Enabled, Timely, Next, Offering;
    var n := |actions| - 1;
    if k == |actions| {
      assert actions[..k] == actions;
    } else {
      assert actions[..n][..k] == actions[..k];
      LastGrows(cfg, s, actions[..n], k);
      InvRun(cfg, s, actions[..n]);
      LastStep(cfg, Exec(cfg, s, actions[..n]), actions[n]);
    }
  }

  /** A newly published generation number exceeds every number published before it. */
  lemma GenerationsIncrease(cfg: Config, s: State, actions: seq<Action>, a: Action, k: nat)
    requires Initial(cfg, s) && TimelyRun(cfg, s, actions + [a]) && k <= |actions|
    ensures var b := Exec(cfg, s, actions[..k]).dev.published;
      var before := Exec(cfg, s, actions).dev.published; var after := Exec(cfg, s, actions + [a]).dev.published;
      after != before && after != 0 ==> b < after
  {
    InitialInv(cfg, s);
    assert (actions + [a])[..|actions|] == actions;
    LastGrows(cfg, s, actions, k);
    InvRun(cfg, s, actions);
    InvRun(cfg, s, actions[..k]);
    var past, now := Exec(cfg, s, actions[..k]), Exec(cfg, s, actions);
    LastStep(cfg, now, a);
    if Working(past.c0) {
      WorkQuiet(cfg, past.dev, past.pending.staged, past.c0.work, past.c0.Booting?, 0, []);
    }
    hide Exec, TimelyRun, Next, WorkInv, CallsInv, OutcomeInv, PauseInv, Accepted;
  }

  // ---- What a report means ----

  predicate ReportsHold(t: State) {
    && (Ended(t, Denied) || Ended(t, TimedOut) ==> Untouched(t))
    && (Ended(t, Complete) ==> Installed(t))
    && (!Stopped(t.c0) && !t.c0.Booting? ==> (t.dev.published != 0 <==> Live(t.outcomes)))
    && (Stopped(t.c0) && t.dev.published != 0 ==> t.c0.work == Finish(Complete))
    && t.c0 != Replacing(Finish(Rejected))
  }

  lemma InvReports(cfg: Config, t: State)
    requires Inv(cfg, t)
    ensures ReportsHold(t)
  {
    hide CallsInv, Accepted, ReadsBack, CanStart, Fresh, PauseInv, Padded, Live, DeviceShape;
    if t.c0.Replacing? {
      WorkQuiet(cfg, t.dev, t.pending.staged, t.c0.work, false, 0, []);
    }
  }

  /** Denied and timed-out replacements leave slot, core-0 RAM writes and the published generation as
      they were at the request; a completed one left the sector exactly the captured capsule padded
      with erased bytes, running; and the device runs something exactly when the latest boot or
      replacement that passed the stop succeeded. A snapshot is never found invalid on revalidation. */
  lemma ReplacementOutcomes(cfg: Config, s: State, actions: seq<Action>)
    requires Initial(cfg, s) && TimelyRun(cfg, s, actions)
    ensures ReportsHold(Exec(cfg, s, actions))
  {
    hide Inv, TimelyRun, Exec, ReportsHold;
    InitialInv(cfg, s);
    InvRun(cfg, s, actions);
    InvReports(cfg, Exec(cfg, s, actions));
  }

  // ---- Runtime::loop_returned ----

  /** The latest entry call is this generation's loop. */
  predicate InItsLoop(calls: seq<Call>, g: uint32) {
    calls != [] && calls[|calls| - 1].Loop? && calls[|calls| - 1].gen == g
  }

  /** The return came from a loop call of that generation, the latest call made by then. */
  predicate CameBack(calls: seq<Call>, r: Return) {
    r.at <= |calls| && InItsLoop(calls[..r.at], r.gen)
  }

  predicate HasReturn(back: seq<Return>, g: uint32) {
    exists r :: r in back && r.gen == g
  }

  predicate LoopInv(s: State) {
    && (s.c1.InLoop? ==> InItsLoop(s.calls, s.c1.gen))
    && (forall r :: r in s.back ==> CameBack(s.calls, r))
    && (s.dev.returned != 0 ==> HasReturn(s.back, s.dev.returned))
    && (s.c1.StoreReturned? ==> HasReturn(s.back, s.c1.gen))
  }

  predicate LoopReturned(s: State) {
    s.dev.published != 0 && s.dev.returned == s.dev.published
  }

  lemma CalledAgain(calls: seq<Call>, back: seq<Return>, c: Call)
    requires forall r :: r in back ==> CameBack(calls, r)
    ensures forall r :: r in back ==> CameBack(calls + [c], r)
  {
    forall r | r in back ensures CameBack(calls + [c], r) {
      assert CameBack(calls, r);
      assert (calls + [c])[..r.at] == calls[..r.at];
    }
  }

  lemma ReturnedNow(s: State)
    requires LoopInv(s) && s.c1.InLoop?
    ensures LoopInv(Core1Next(s))
  {
    var r := Return(s.c1.gen, |s.calls|);
    var t := Core1Next(s);
    assert s.calls[..|s.calls|] == s.calls;
    assert r in t.back;
    if s.dev.returned != 0 {
      var q :| q in s.back && q.gen == s.dev.returned;
      assert q in t.back;
    }
  }

  lemma LoopCore1(s: State)
    requires LoopInv(s)
    ensures LoopInv(Core1Next(s))
  {
    hide CameBack, HasReturn;
    if s.c1.InLoop? {
      ReturnedNow(s);
    } else if s.c1.EnterSetup? {
      CalledAgain(s.calls, s.back, Setup(s.c1.gen, s.dev.image.setup, s.dev.ram));
    } else if s.c1.EnterLoop? {
      CalledAgain(s.calls, s.back, Loop(s.c1.gen, s.dev.image.loop));
    }
  }

  lemma LoopStep(cfg: Config, s: State, a: Action)
    requires LoopInv(s)
    ensures LoopInv(Next(cfg, s, a))
  {
    hide CameBack, HasReturn, InItsLoop, Core0Next, Core1Next;
    if a.Core1Step? {
      LoopCore1(s);
    } else if a.Core0Step? {
      Core0Frame(cfg, s, a.port);
    }
  }

  lemma {:induction false} LoopRun(cfg: Config, s: State, actions: seq<Action>)
    requires LoopInv(s) && Legal(cfg, s, actions)
    ensures LoopInv(Exec(cfg, s, actions))
  {
    hide LoopInv, Enabled, Next;
    if actions != [] {
      var n := |actions| - 1;
      LoopRun(cfg, s, actions[..n]);
      LoopStep(cfg, Exec(cfg, s, actions[..n]), actions[n]);
    }
  }

  /** loop_returned() is only ever true of a generation whose loop entry was called and came back. */
  lemma LoopReturnedMeansCameBack(cfg: Config, s: State, actions: seq<Action>)
    requires Initial(cfg, s) && Legal(cfg, s, actions)
    ensures var t := Exec(cfg, s, actions);
      LoopReturned(t) ==> exists r :: r in t.back && r.gen == t.dev.published && CameBack(t.calls, r)
  {
    hide Legal, Exec, CameBack;
    LoopRun(cfg, s, actions);
    var t := Exec(cfg, s, actions);
    if LoopReturned(t) {
      var r :| r in t.back && r.gen == t.dev.returned;
      assert CameBack(t.calls, r);
    }
  }
}
