/**
 Core1Pause::request() loads twice and then stores. The exact condition under
 which that is safe: no park attempt of an already released request is pending.
 */
module RequestRace {
  import opened Bytes
  import opened StatefulImage
  import opened TwoCore
  import opened TwoCoreRuns

  /** No request() after the first action. */
  predicate OneRequest(actions: seq<Action>) {
    forall i :: 1 <= i < |actions| ==> !actions[i].RequestCall?
  }

  /** However this replacement continues, flash is never open with core 1 outside its park loop. */
  ghost predicate SafeFrom(cfg: Config, s: State, request: Action) {
    forall actions: seq<Action> ::
      actions != [] && actions[0] == request && OneRequest(actions) && Legal(cfg, s, actions) ==>
      FlashExcluded(Exec(cfg, s, actions))
  }

  predicate FlashExcluded(s: State) {
    s.dev.flashOpen ==> s.c1.Spinning?
  }

  lemma {:induction false} TimelyContinuation(cfg: Config, s: State, actions: seq<Action>)
    requires Inv(cfg, s) && !StaleAttempt(s) && OneRequest(actions) && Legal(cfg, s, actions)
    ensures TimelyRun(cfg, s, actions)
  {
    hide Inv, Next, Enabled;
    if actions != [] {
      var n := |actions| - 1;
      TimelyContinuation(cfg, s, actions[..n]);
      if n == 0 {
        assert Exec(cfg, s, actions[..n]) == s;
      }
    }
  }

  lemma Push(cfg: Config, s: State, actions: seq<Action>, t: State, a: Action)
    requires Legal(cfg, s, actions) && Exec(cfg, s, actions) == t && Enabled(cfg, t, a)
    ensures Legal(cfg, s, actions + [a]) && Exec(cfg, s, actions + [a]) == Next(cfg, t, a)
  {
    assert (actions + [a])[..|actions|] == actions;
  }

  const ANY: Port := Port(true, true, Fill(MAXIMUM_CAPSULE, 255))

  /** A stale attempt slips between request()'s loads and its store. */
  lemma RaceToStore(cfg: Config, s: State, image: seq<byte>, now: uint32)
    returns (actions: seq<Action>, t: State)
    requires Inv(cfg, s) && StaleAttempt(s) && Enabled(cfg, s, RequestCall(image, true, now))
    ensures |actions| > 0 && actions[0] == RequestCall(image, true, now) && OneRequest(actions)
    ensures Legal(cfg, s, actions) && Exec(cfg, s, actions) == t
    ensures t.c0 == StoreRequested(now) && t.c1 == ClearParked && t.parked && t.pending.staged == image
    ensures t.dev == s.dev && t.observed == s.observed && Accepted(cfg, image)
  {
    hide Accepted, WorkNext, RuntimeInv, CallsInv, OutcomeInv, Legal, Exec;
    assert Legal(cfg, s, []) && Exec(cfg, s, []) == s by { NoActions(cfg, s); }
    var steps := [RequestCall(image, true, now), Core0Step(ANY), Core0Step(ANY), Core1Step, Core1Step];
    Push(cfg, s, [], s, steps[0]);
    actions, t := [steps[0]], Next(cfg, s, steps[0]);
    assert [] + actions == actions;
    Push(cfg, s, actions, t, steps[1]);
    actions, t := actions + [steps[1]], Next(cfg, t, steps[1]);
    Push(cfg, s, actions, t, steps[2]);
    actions, t := actions + [steps[2]], Next(cfg, t, steps[2]);
    Push(cfg, s, actions, t, steps[3]);
    actions, t := actions + [steps[3]], Next(cfg, t, steps[3]);
    Push(cfg, s, actions, t, steps[4]);
    actions, t := actions + [steps[4]], Next(cfg, t, steps[4]);
    assert actions == steps;
  }

  /** The store revives the attempt, and the next poll() believes it. */
  lemma RaceToPoll(cfg: Config, s: State, image: seq<byte>, now: uint32)
    returns (actions: seq<Action>, t: State)
    requires Inv(cfg, s) && StaleAttempt(s) && Enabled(cfg, s, RequestCall(image, true, now))
    ensures |actions| > 0 && actions[0] == RequestCall(image, true, now) && OneRequest(actions)
    ensures Legal(cfg, s, actions) && Exec(cfg, s, actions) == t
    ensures t.c0 == Replacing(Revalidate) && t.c1 == ClearParked && t.requested
    ensures t.pending.staged == image && t.dev == s.dev && t.observed == s.observed && Accepted(cfg, image)
  {
    AcceptedNonempty(cfg, image);
    hide Accepted, WorkNext, Inv, Legal, Exec;
    actions, t := RaceToStore(cfg, s, image, now);
    Push(cfg, s, actions, t, Core0Step(ANY));
    actions, t := actions + [Core0Step(ANY)], Next(cfg, t, Core0Step(ANY));
    Push(cfg, s, actions, t, PollCall(true, now));
    actions, t := actions + [PollCall(true, now)], Next(cfg, t, PollCall(true, now));
    Push(cfg, s, actions, t, Core0Step(ANY));
    actions, t := actions + [Core0Step(ANY)], Next(cfg, t, Core0Step(ANY));
  }

  lemma NoActions(cfg: Config, s: State)
    ensures Legal(cfg, s, []) && Exec(cfg, s, []) == s
  {
  }

  /** Core 1 leaves the park loop and re-enters a live sketch. */
  lemma RaceLeavesPark(cfg: Config, s: State, image: seq<byte>, now: uint32)
    returns (actions: seq<Action>, t: State)
    requires Inv(cfg, s) && StaleAttempt(s) && Enabled(cfg, s, RequestCall(image, true, now))
    ensures |actions| > 0 && actions[0] == RequestCall(image, true, now) && OneRequest(actions)
    ensures Legal(cfg, s, actions) && Exec(cfg, s, actions) == t
    ensures t.c0 == Replacing(Revalidate) && Accepted(cfg, t.pending.staged)
    ensures !t.c1.Spinning? && (s.dev.published != 0 ==> InEntry(t.c1))
  {
    hide Accepted, Inv, Legal, Exec, Core0Next;
    actions, t := RaceToPoll(cfg, s, image, now);
    Push(cfg, s, actions, t, Core1Step);
    actions, t := actions + [Core1Step], Next(cfg, t, Core1Step);
    Push(cfg, s, actions, t, Core1Step);
    actions, t := actions + [Core1Step], Next(cfg, t, Core1Step);
  }

  lemma WorkPush(cfg: Config, s: State, actions: seq<Action>, t: State)
    requires Legal(cfg, s, actions) && Exec(cfg, s, actions) == t && t.c0.Replacing? && !t.c0.work.Finish?
    ensures var (d, w) := WorkNext(cfg, t.dev, t.pending.staged, t.c0.work, ANY);
      && Legal(cfg, s, actions + [Core0Step(ANY)])
      && var u := Exec(cfg, s, actions + [Core0Step(ANY)]); u == t.(dev := d, c0 := Replacing(w), polls := u.polls)
  {
    hide Legal, Exec, WorkNext;
    Push(cfg, s, actions, t, Core0Step(ANY));
  }

  /** Meanwhile core 0 goes on to open flash. */
  lemma RaceToFlash(cfg: Config, s: State, image: seq<byte>, now: uint32)
    returns (actions: seq<Action>)
    requires Inv(cfg, s) && StaleAttempt(s) && Enabled(cfg, s, RequestCall(image, true, now))
    ensures |actions| > 0 && actions[0] == RequestCall(image, true, now) && OneRequest(actions)
    ensures Legal(cfg, s, actions)
    ensures var t := Exec(cfg, s, actions);
      t.dev.flashOpen && !t.c1.Spinning? && (s.dev.published != 0 ==> InEntry(t.c1))
  {
    hide Accepted, Inv, Legal, Exec, Enabled, Next;
    var t;
    actions, t := RaceLeavesPark(cfg, s, image, now);
    for i := 0 to 5
      invariant |actions| > 0 && actions[0] == RequestCall(image, true, now) && OneRequest(actions)
      invariant Legal(cfg, s, actions) && Exec(cfg, s, actions) == t
      invariant t.c0 == Replacing([Revalidate, StopPublished, StopReturned, StopGeneration, FlashBegin, FlashErase][i])
      invariant i == 0 ==> Accepted(cfg, t.pending.staged)
      invariant i == 5 ==> t.dev.flashOpen
      invariant !t.c1.Spinning? && (s.dev.published != 0 ==> InEntry(t.c1))
    {
      WorkPush(cfg, s, actions, t);
      actions := actions + [Core0Step(ANY)];
      t := Exec(cfg, s, actions);
    }
  }

  /** request() is safe exactly when no stale park attempt is in flight where it starts. */
  lemma RequestSafeIff(cfg: Config, s: State, image: seq<byte>, now: uint32)
    requires Inv(cfg, s) && Enabled(cfg, s, RequestCall(image, true, now))
    ensures SafeFrom(cfg, s, RequestCall(image, true, now)) <==> !StaleAttempt(s)
  {
    var request := RequestCall(image, true, now);
    if StaleAttempt(s) {
      var actions := RaceToFlash(cfg, s, image, now);
      assert !FlashExcluded(Exec(cfg, s, actions));
    } else {
      forall actions | actions != [] && actions[0] == request && OneRequest(actions) && Legal(cfg, s, actions)
        ensures FlashExcluded(Exec(cfg, s, actions))
      {
        hide Accepted, Legal, Exec, TimelyRun, RuntimeInv, CallsInv, Enabled;
        TimelyContinuation(cfg, s, actions);
        InvRun(cfg, s, actions);
      }
    }
  }
}
