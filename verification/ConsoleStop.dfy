/** stop() begins an epoch for an owner that has already sent bytes, so what sketch_read then returns is
    not the start of what that owner sent: a run that shows it. */
module ConsoleStop {
  import opened Bytes
  import opened Queue
  import opened Console
  import opened ConsoleIsolation
  import opened ConsoleOwner

  lemma Push(actions: seq<Action>, t: State, a: Action) returns (more: seq<Action>, u: State)
    requires Legal(actions) && Exec(actions) == t && Enabled(t, a) && Unsaturated(t) && Unsaturated(Next(t, a))
    ensures more == actions + [a] && u == Next(t, a) && Legal(more) && Exec(more) == u
  {
    more, u := actions + [a], Next(t, a);
    assert more[..|actions|] == actions;
  }

  const GO := Core0Step(false)

  lemma Small()
    ensures !Same(0, 1) && !Same(1, 2) && Same(1, 1) && Same(2, 2)
  {
  }

  /** Between two calls on either core. */
  predicate Resting(s: State) {
    s.c0.Idle? && s.c1.Running? && s.end.tx == [] && s.end.opening == s.end.generation == 1 && s.end.active && s.end.owner == 1
    && s.seen == Current(s.end)
  }

  /** The owner connects and core 0 begins epoch 1 for it. */
  lemma Connects() returns (actions: seq<Action>, t: State)
    ensures Legal(actions) && Exec(actions) == t && Resting(t)
    ensures t.ctl == Control(1, 0, false, false, [Era(0, false), Era(1, true)]) && t.end.rx == []
    ensures t.to == Fifo([], 0, 0) && t.from == Fifo([], 0, 0) && t.log == START.log
  {
    hide Legal, Exec;
    Small();
    actions, t := Observes();
    actions, t := Push(actions, t, GO);
    actions, t := Push(actions, t, GO);
    actions, t := Push(actions, t, GO);
  }

  /** Core 0 sees the new owner, turns the stream off and bumps the epoch. */
  lemma Observes() returns (actions: seq<Action>, t: State)
    ensures Legal(actions) && Exec(actions) == t
    ensures t == START.(ctl := Control(1, 0, false, false, [Era(0, false), Era(1, true)]), c0 := LoadAck,
                        end := Endpoint(true, 1, 1, 1, [], []), seen := Seen(1, 1, true))
  {
    hide Legal, Exec;
    Begins();
    actions, t := Push([], START, HostOpen(1));
    actions, t := Push(actions, t, PollCall);
    actions, t := Push(actions, t, GO);
    actions, t := Push(actions, t, GO);
    actions, t := Push(actions, t, GO);
  }

  lemma Begins()
    ensures Legal([]) && Exec([]) == START
  {
  }

  /** Core 1 reaches a loop boundary: it drains the ring and acknowledges the epoch. */
  lemma Acknowledges(before: seq<Action>, s: State) returns (actions: seq<Action>, t: State)
    requires Legal(before) && Exec(before) == s && Resting(s) && s.ctl.epoch == s.ctl.ack + 1 <= 2 && s.to.Valid()
    requires s.to.freed == s.to.taken
    ensures Legal(actions) && Exec(actions) == t && Resting(t)
    ensures t.ctl == s.ctl.(ack := s.ctl.epoch) && t.end == s.end && t.from == s.from
    ensures t.to == Fifo(s.to.sent, |s.to.sent|, |s.to.sent|) && t.log == s.log.(lost := false)
  {
    hide Legal, Exec, Same;
    Small();
    actions, t := Push(before, s, CallBoundary);
    actions, t := Push(actions, t, Core1Step);
    actions, t := Push(actions, t, Core1Step);
    actions, t := Push(actions, t, Core1Step);
    actions, t := Push(actions, t, Core1Step);
  }

  /** The owner sends one byte and core 0, finding the epoch acknowledged, opens the stream and forwards it. */
  lemma Opens(before: seq<Action>, s: State, b: byte) returns (actions: seq<Action>, t: State)
    requires Legal(before) && Exec(before) == s && Resting(s) && 1 <= s.ctl.epoch == s.ctl.ack <= 2
    requires !s.ctl.outputOn && !s.ctl.inputOn && s.end.rx == [] && s.from == Fifo([], 0, 0)
    ensures Legal(actions) && Exec(actions) == t && t.ctl == s.ctl.(inputOn := true, outputOn := true)
    ensures t.c0 == Pumping(TakeOut) && t.c1.Running? && t.from == s.from && t.to == s.to && t.seen == s.seen
    ensures t.end == s.end.(rx := [Tag(b, 0, 1)])
    ensures t.log == s.log.(hostSent := s.log.hostSent + [Tag(b, 0, 1)])
  {
    hide Legal, Exec, Next, Unsaturated, Same;
    actions, t := Sends(before, s, b);
    actions, t := TurnsOn(actions, t);
  }

  lemma Sends(before: seq<Action>, s: State, b: byte) returns (actions: seq<Action>, t: State)
    requires Legal(before) && Exec(before) == s && Resting(s) && 1 <= s.ctl.epoch == s.ctl.ack <= 2 && s.end.rx == []
    ensures Legal(actions) && Exec(actions) == t && Unsaturated(t)
    ensures t == s.(c0 := LoadAck, end := s.end.(rx := [Tag(b, 0, 1)]), log := s.log.(hostSent := s.log.hostSent + [Tag(b, 0, 1)]))
  {
    hide Legal, Exec, Same;
    assert Mark([b], 0, 1) == [Tag(b, 0, 1)];
    assert [] + [Tag(b, 0, 1)] == [Tag(b, 0, 1)];
    actions, t := Push(before, s, HostSend([b]));
    actions, t := Push(actions, t, PollCall);
  }

  lemma TurnsOn(before: seq<Action>, s: State) returns (actions: seq<Action>, t: State)
    requires Legal(before) && Exec(before) == s && s.c0.LoadAck? && Unsaturated(s) && s.end.active && 1 <= s.ctl.epoch == s.ctl.ack <= 2
    requires !s.ctl.outputOn && s.from == Fifo([], 0, 0)
    ensures Legal(actions) && Exec(actions) == t
    ensures t == s.(c0 := Pumping(TakeOut), ctl := s.ctl.(inputOn := true, outputOn := true))
  {
    hide Legal, Exec, Same;
    Small();
    actions, t := Push(before, s, GO);
    assert t == s.(c0 := Opening(TakeStale));
    actions, t := Push(actions, t, GO);
    assert t == s.(c0 := Opening(FreeStale));
    actions, t := Push(actions, t, GO);
    assert t == s.(c0 := Opening(EnableInput));
    actions, t := Push(actions, t, GO);
    actions, t := Push(actions, t, GO);
  }

  lemma Forwards(before: seq<Action>, s: State, b: byte) returns (actions: seq<Action>, t: State)
    requires Legal(before) && Exec(before) == s && s.c0 == Pumping(TakeOut) && s.c1.Running? && Unsaturated(s)
    requires s.from == Fifo([], 0, 0) && s.end.active && s.end.tx == [] && s.end.rx == [Tag(b, 0, 1)]
    requires s.to.freed == s.to.taken == |s.to.sent|
    ensures Legal(actions) && Exec(actions) == t && t == s.(
      c0 := Idle, end := s.end.(rx := []), to := Append(s.to, [Tag(b, s.ctl.epoch, 1)]))
  {
    hide Legal, Exec, Next, Unsaturated;
    actions, t := PumpsNothing(before, s);
    actions, t := PumpsOne(actions, t, b);
  }

  lemma PumpsNothing(before: seq<Action>, s: State) returns (actions: seq<Action>, t: State)
    requires Legal(before) && Exec(before) == s && s.c0 == Pumping(TakeOut) && Unsaturated(s)
    requires s.from == Fifo([], 0, 0) && s.end.active && s.end.tx == []
    ensures Legal(actions) && Exec(actions) == t && t == s.(c0 := Pumping(LoadRoom)) && Unsaturated(t)
  {
    hide Legal, Exec;
    actions, t := Push(before, s, GO);
    assert t == s.(c0 := Pumping(FreeOut([])));
    actions, t := Push(actions, t, GO);
    assert t == s.(c0 := Pumping(WriteHost([])));
    actions, t := Push(actions, t, GO);
  }

  lemma PumpsOne(before: seq<Action>, s: State, b: byte) returns (actions: seq<Action>, t: State)
    requires Legal(before) && Exec(before) == s && s.c0 == Pumping(LoadRoom) && Unsaturated(s)
    requires s.end.active && s.end.rx == [Tag(b, 0, 1)] && s.to.freed == s.to.taken == |s.to.sent|
    ensures Legal(actions) && Exec(actions) == t && t == s.(
      c0 := Idle, end := s.end.(rx := []), to := Append(s.to, [Tag(b, s.ctl.epoch, 1)]))
  {
    hide Legal, Exec;
    var one := [Tag(b, s.ctl.epoch, 1)];
    assert InEpoch([Tag(b, 0, 1)], s.ctl.epoch) == one;
    assert s.end.rx[..1] == s.end.rx && s.end.rx[1..] == [];
    actions, t := Push(before, s, GO);
    assert t == s.(c0 := Pumping(PushRoom(one)), end := s.end.(rx := []));
    actions, t := Push(actions, t, GO);
    assert t.c0 == Pumping(PushStore(one, CAPACITY));
    assert one[..1] == one;
    actions, t := Push(actions, t, GO);
  }

  /** stop() begins another epoch for the same owner. */
  lemma Stops(before: seq<Action>, s: State) returns (actions: seq<Action>, t: State)
    requires Legal(before) && Exec(before) == s && Resting(s) && s.ctl.epoch == s.ctl.ack == 1
    requires s.ctl.eras == [Era(0, false), Era(1, true)]
    ensures Legal(actions) && Exec(actions) == t && Resting(t)
    ensures t.ctl == Control(2, 1, false, false, [Era(0, false), Era(1, true), Era(1, true)])
    ensures t.log == s.log.(stops := s.log.stops + {2}) && t.to == s.to && t.from == s.from && t.end == s.end
  {
    hide Legal, Exec;
    actions, t := Push(before, s, StopCall);
    actions, t := Push(actions, t, GO);
    actions, t := Push(actions, t, GO);
    actions, t := Push(actions, t, GO);
  }

  lemma Reads(before: seq<Action>, s: State, v: Tag) returns (actions: seq<Action>, t: State)
    requires Legal(before) && Exec(before) == s && s.c0.Idle? && s.c1.Running? && s.ctl.epoch == s.ctl.ack == 2 && Unsaturated(s)
    requires s.ctl.inputOn && s.to.taken + 1 == |s.to.sent| && s.to.sent[s.to.taken] == v
    ensures Legal(actions) && Exec(actions) == t
    ensures t.log == s.log.(returned := s.log.returned + [v]) && t.ctl == s.ctl && t.to.sent == s.to.sent
  {
    hide Legal, Exec, Next, Unsaturated, Same;
    actions, t := Pops(before, s, v);
    actions, t := Returns(actions, t, v);
  }

  lemma Pops(before: seq<Action>, s: State, v: Tag) returns (actions: seq<Action>, t: State)
    requires Legal(before) && Exec(before) == s && s.c1.Running? && s.ctl.epoch == s.ctl.ack == 2 && Unsaturated(s)
    requires s.ctl.inputOn && s.to.taken + 1 == |s.to.sent| && s.to.sent[s.to.taken] == v
    ensures Legal(actions) && Exec(actions) == t && Unsaturated(t)
    ensures t == s.(c1 := Popping(2, PopFree([v])), to := s.to.(taken := |s.to.sent|))
  {
    hide Legal, Exec, Same;
    Small();
    assert s.to.sent[s.to.taken..s.to.taken + 1] == [v];
    actions, t := Push(before, s, CallRead);
    actions, t := Push(actions, t, Core1Step);
    actions, t := Push(actions, t, Core1Step);
    assert t == s.(c1 := Popping(2, PopTake));
    actions, t := Push(actions, t, Core1Step);
  }

  lemma Returns(before: seq<Action>, s: State, v: Tag) returns (actions: seq<Action>, t: State)
    requires Legal(before) && Exec(before) == s && s.c1 == Popping(2, PopFree([v])) && s.ctl.epoch == 2 && s.ctl.inputOn && Unsaturated(s)
    ensures Legal(actions) && Exec(actions) == t
    ensures t.log == s.log.(returned := s.log.returned + [v]) && t.ctl == s.ctl && t.to.sent == s.to.sent
  {
    hide Legal, Exec, Same;
    Small();
    actions, t := Push(before, s, Core1Step);
    assert t.c1 == Popping(2, RecheckEpoch(v));
    actions, t := Push(actions, t, Core1Step);
    actions, t := Push(actions, t, Core1Step);
  }

  /** The owner sent 65 and 66; in the epoch stop() began, sketch_read returned 66 alone. */
  lemma StopSkips() returns (actions: seq<Action>)
    ensures Legal(actions)
    ensures var s := Exec(actions);
      && s.ctl.eras == [Era(0, false), Era(1, true), Era(1, true)] && 2 in s.log.stops
      && SentIn(s.log.hostSent, 1) == [65, 66] && Raw(Of(s.log.returned, 2)) == [66]
      && Skipped(s, 2) == 1 && !FromTheStart(s, 2)
  {
    hide Legal, Exec, Resting;
    var t;
    actions, t := Connects();
    Rested(t);
    actions, t := Acknowledges(actions, t);
    Rested(t);
    actions, t := Opens(actions, t, 65);
    actions, t := Forwards(actions, t, 65);
    Rests(t);
    actions, t := Stops(actions, t);
    actions, t := Acknowledges(actions, t);
    Rested(t);
    actions, t := Opens(actions, t, 66);
    actions, t := Forwards(actions, t, 66);
    actions, t := Reads(actions, t, Tag(66, 2, 1));
    Amounts(t);
  }

  lemma Rested(s: State)
    requires Resting(s)
    ensures s.end.tx == [] && s.end.active && s.end.opening == s.end.generation == 1 && s.end.owner == 1 && s.seen == Current(s.end)
  {
  }

  lemma Rests(s: State)
    requires s.c0.Idle? && s.c1.Running? && s.end.tx == [] && s.end.opening == s.end.generation == 1
    requires s.end.active && s.end.owner == 1 && s.seen == Current(s.end)
    ensures Resting(s)
  {
  }

  lemma SentTwo(a: Tag, b: Tag)
    requires a.opening == b.opening == 1
    ensures SentIn([a], 1) == [a.b] && SentIn([a, b], 1) == [a.b, b.b]
  {
    hide SentIn;
    NothingSent(1);
    SentSnoc([], a, 1);
    SentSnoc([a], b, 1);
    assert [] + [a] == [a] && [a] + [b] == [a, b];
  }

  lemma EarlierTwo(a: Tag, b: Tag)
    requires a.epoch < 2 == b.epoch
    ensures Earlier([a, b], 2) == [a]
  {
    var ts := [a, b];
    assert ts[..1] == [a] && [a][..0] == [];
    assert Earlier([a], 2) == Earlier([], 2) + [a];
  }

  lemma Amounts(s: State)
    requires s.log.hostSent == [Tag(65, 0, 1), Tag(66, 0, 1)] && s.log.returned == [Tag(66, 2, 1)]
    requires s.to.sent == [Tag(65, 1, 1), Tag(66, 2, 1)] && s.ctl.eras == [Era(0, false), Era(1, true), Era(1, true)]
    ensures SentIn(s.log.hostSent, 1) == [65, 66] && Raw(Of(s.log.returned, 2)) == [66]
    ensures Skipped(s, 2) == 1 && !FromTheStart(s, 2)
  {
    hide SentIn, Of, Earlier;
    SentTwo(Tag(65, 0, 1), Tag(66, 0, 1));
    SentTwo(Tag(65, 1, 1), Tag(66, 2, 1));
    EarlierTwo(Tag(65, 1, 1), Tag(66, 2, 1));
    OfAll(s.log.returned, 2, 2);
    var got, sent := Raw(Of(s.log.returned, 2)), SentIn(s.log.hostSent, 1);
    assert |got| == 1 && got[0] == 66 && sent[0] == 65;
  }
}
