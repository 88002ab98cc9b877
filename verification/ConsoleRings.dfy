/**
 The console's two queues are rings: every console run projects to one run of the
 interleaved byte ring per direction, loads, byte copies and stores included.
 */
module ConsoleRings {
  import opened Bytes
  import opened Queue
  import opened Console
  import opened ConsoleOwner
  import M = Mailbox

  /** A push between its head load and its tail store: the bytes and the room it saw. */
  datatype Push = NoPush | Push(data: seq<byte>, room: int)

  /** A pop between its tail load and its head store: bytes it drops, or hands over. */
  datatype Pop = NoPop | Drops | Keeps(data: seq<byte>)

  function RawFifo(f: Fifo<Tag>): Fifo<byte> {
    Fifo(Raw(f.sent), f.taken, f.freed)
  }

  function PushTo(c: Core0): Push {
    if c.Pumping? && c.pump.PushStore? then Push(Raw(c.pump.data), c.pump.room) else NoPush
  }

  function PopTo(c: Core1): Pop {
    if c.Draining? && c.drain.DrainFree? then Drops
    else if c.Popping? && c.pop.PopFree? then Keeps(Raw(c.pop.got)) else NoPop
  }

  function PushFrom(c: Core1): Push {
    if c.WriteStore? then Push(c.data, c.room) else NoPush
  }

  function PopFrom(c: Core0): Pop {
    if (c.Opening? && c.open.FreeStale?) || (c.Rejecting? && !c.take) then Drops
    else if c.Pumping? && c.pump.FreeOut? then Keeps(Raw(c.pump.out)) else NoPop
  }

  /** One direction: its queue in bytes, and the calls in progress on it. */
  datatype Lane = Lane(f: Fifo<byte>, push: Push, pop: Pop)

  function To(s: State): Lane {
    Lane(RawFifo(s.to), PushTo(s.c0), PopTo(s.c1))
  }

  function From(s: State): Lane {
    Lane(RawFifo(s.from), PushFrom(s.c1), PopFrom(s.c0))
  }

  // ---- What a console step does to a lane ----

  predicate Loads(l: Lane, l': Lane) {
    l'.f == l.f && l'.pop == l.pop && l.push.NoPush? && l'.push.Push? && l'.push.room == l.f.Free()
  }

  predicate Stores(l: Lane, l': Lane) {
    && l'.pop == l.pop && l.push.Push? && l'.push.NoPush?
    && l'.f == Append(l.f, l.push.data[..Max(0, Min(|l.push.data|, l.push.room))])
  }

  predicate Takes(l: Lane, l': Lane, count: nat) {
    && l'.push == l.push && l.pop.NoPop? && !l'.pop.NoPop? && l'.f == Take(l.f, count)
    && (l'.pop.Keeps? && l.f.taken <= |l.f.sent| ==> l'.pop.data == l.f.sent[l.f.taken..l'.f.taken])
  }

  predicate Returns(l: Lane, l': Lane) {
    l'.push == l.push && !l.pop.NoPop? && l'.pop.NoPop? && l'.f == GiveBack(l.f)
  }

  ghost predicate Moves(l: Lane, l': Lane) {
    l' == l || Loads(l, l') || Stores(l, l') || (exists count :: Takes(l, l', count)) || Returns(l, l')
  }

  lemma RawParts(a: seq<Tag>, b: seq<Tag>)
    ensures Raw(a + b) == Raw(a) + Raw(b)
  {
  }

  lemma RawTaken(f: Fifo<Tag>, count: nat)
    ensures RawFifo(Take(f, count)) == Take(RawFifo(f), count) && RawFifo(GiveBack(f)) == GiveBack(RawFifo(f))
    ensures f.taken <= |f.sent| ==>
      Raw(Taken(f, count)) == RawFifo(f).sent[f.taken..Take(RawFifo(f), count).taken]
  {
  }

  lemma RawAppended(f: Fifo<Tag>, data: seq<Tag>)
    ensures RawFifo(Append(f, data)) == Append(RawFifo(f), Raw(data))
  {
    RawParts(f.sent, data);
  }

  lemma RawPrefix(data: seq<Tag>, n: nat)
    requires n <= |data|
    ensures Raw(data[..n]) == Raw(data)[..n]
  {
  }

  lemma RawMark(data: seq<byte>, epoch: nat)
    ensures Raw(Mark(data, epoch, 0)) == data
  {
  }

  lemma ToMoves(s: State, a: Action)
    requires Enabled(s, a)
    ensures Moves(To(s), To(Next(s, a)))
  {
    hide Raw, Taken, GiveBack, Append, Mark, InEpoch, ForOpening, Current, Same;
    RawTaken(s.to, CAPACITY);
    RawTaken(s.to, 1);
    var l, l' := To(s), To(Next(s, a));
    if a.Core0Step? && s.c0.Pumping? && s.c0.pump.PushStore? {
      var written := Max(0, Min(|s.c0.pump.data|, s.c0.pump.room));
      RawAppended(s.to, s.c0.pump.data[..written]);
      RawPrefix(s.c0.pump.data, written);
      assert Stores(l, l');
    } else if a.Core1Step? && s.c1.Draining? && s.c1.drain.DrainTake? {
      assert Takes(l, l', CAPACITY);
    } else if a.Core1Step? && s.c1.Popping? && s.c1.pop.PopTake? {
      assert Takes(l, l', 1);
    }
  }

  lemma FromMoves(s: State, a: Action)
    requires Enabled(s, a)
    ensures Moves(From(s), From(Next(s, a)))
  {
    hide Raw, Taken, GiveBack, Append, Mark, InEpoch, ForOpening, Current, Same;
    RawTaken(s.from, CAPACITY);
    RawTaken(s.from, Max(CAPACITY - |s.end.tx|, 0));
    var l, l' := From(s), From(Next(s, a));
    if a.Core1Step? && s.c1.WriteStore? {
      var data := s.c1.data[..Max(0, Min(|s.c1.data|, s.c1.room))];
      RawAppended(s.from, Mark(data, s.ctl.ack, 0));
      RawMark(data, s.ctl.ack);
      assert Stores(l, l');
    } else if a.Core0Step? && s.c0.Pumping? && s.c0.pump.TakeOut? {
      assert Takes(l, l', Max(CAPACITY - |s.end.tx|, 0));
    } else if a.Core0Step? && ((s.c0.Opening? && s.c0.open.TakeStale?) || (s.c0.Rejecting? && s.c0.take)) {
      assert Takes(l, l', CAPACITY);
    }
  }

  // ---- Ring runs that make those moves ----

  lemma Extend(actions: seq<M.Action>, a: M.Action)
    requires M.Legal(actions) && M.Enabled(M.Exec(actions), a)
    ensures M.Legal(actions + [a]) && M.Exec(actions + [a]) == M.Next(M.Exec(actions), a)
  {
    assert (actions + [a])[..|actions|] == actions;
  }

  lemma LoadHead(actions: seq<M.Action>, data: seq<byte>) returns (more: seq<M.Action>)
    requires M.Legal(actions) && M.Exec(actions).p.Resting?
    ensures M.Legal(more)
    ensures var r := M.Exec(actions); M.Exec(more) == r.(p := M.Writing(data, 0, r.tail, r.head, r.fifo.freed))
  {
    hide M.Legal, M.Exec;
    Extend(actions, M.PushCall(data));
    more := actions + [M.PushCall(data)];
    Extend(more, M.ProducerStep);
    more := more + [M.ProducerStep];
  }

  /** Copying the remaining bytes that fit and storing the tail. */
  lemma {:induction false} StoreTail(actions: seq<M.Action>) returns (more: seq<M.Action>)
    requires M.Legal(actions) && M.Exec(actions).p.Writing?
    ensures M.Legal(more)
    ensures var r, t := M.Exec(actions), M.Exec(more);
      var n := Min(|r.p.data|, CAPACITY - (|r.fifo.sent| - r.p.seen));
      0 <= n && t.p.Resting? && t.c == r.c && t.fifo == Append(r.fifo, r.p.data[..n])
    decreases |M.Exec(actions).p.data| - M.Exec(actions).p.written
  {
    hide M.Legal, M.Exec, M.Cell, M.Holds, Wrap32;
    M.InvRun(actions);
    var r := M.Exec(actions);
    WrapDifference(|r.fifo.sent| + r.p.written, r.p.seen);
    Extend(actions, M.ProducerStep);
    more := actions + [M.ProducerStep];
    if r.p.written < |r.p.data| && Wrap32(r.p.tail - r.p.head) < CAPACITY {
      more := StoreTail(more);
    }
  }

  lemma LoadTail(actions: seq<M.Action>, count: nat) returns (more: seq<M.Action>)
    requires M.Legal(actions) && M.Exec(actions).c.Waiting?
    ensures M.Legal(more)
    ensures var r, t := M.Exec(actions), M.Exec(more);
      t.p == r.p && t.fifo == Take(r.fifo, count) && t.c.Reading? && t.c.out == []
  {
    hide M.Legal, M.Exec;
    Extend(actions, M.PopCall(count));
    more := actions + [M.PopCall(count)];
    Extend(more, M.ConsumerStep);
    more := more + [M.ConsumerStep];
  }

  /** Copying the remaining taken bytes out and storing the head. */
  lemma {:induction false} StoreHead(actions: seq<M.Action>) returns (more: seq<M.Action>)
    requires M.Legal(actions) && M.Exec(actions).c.Reading?
    ensures M.Legal(more)
    ensures var r, t := M.Exec(actions), M.Exec(more); t.c.Waiting? && t.p == r.p && t.fifo == GiveBack(r.fifo)
    decreases M.Exec(actions).c.count - |M.Exec(actions).c.out|
  {
    hide M.Legal, M.Exec, M.Cell, M.Holds, Wrap32;
    M.InvRun(actions);
    var r := M.Exec(actions);
    Extend(actions, M.ConsumerStep);
    more := actions + [M.ConsumerStep];
    if |r.c.out| < r.c.count && r.c.head != r.c.tail {
      more := StoreHead(more);
    }
  }

  /** The ring that a lane describes. */
  predicate RingAt(r: M.Ring, l: Lane) {
    && r.fifo == l.f && l.f.Valid()
    && (if l.push.NoPush? then r.p.Resting?
        else r.p.Writing? && r.p.data == l.push.data && r.p.written == 0 &&
             l.push.room == CAPACITY - (|l.f.sent| - r.p.seen))
    && (if l.pop.NoPop? then r.c.Waiting? else r.c.Reading? && r.c.out == [])
    && (l.pop.Keeps? ==> l.pop.data == l.f.sent[l.f.freed..l.f.taken])
  }

  lemma Realize(actions: seq<M.Action>, l: Lane, l': Lane) returns (more: seq<M.Action>)
    requires M.Legal(actions) && RingAt(M.Exec(actions), l) && Moves(l, l')
    ensures M.Legal(more) && RingAt(M.Exec(more), l')
  {
    hide M.Legal, M.Exec, M.Holds, Wrap32;
    M.InvRun(actions);
    if l' == l {
      more := actions;
    } else if Loads(l, l') {
      more := LoadHead(actions, l'.push.data);
    } else if Stores(l, l') {
      more := StoreTail(actions);
    } else if Returns(l, l') {
      more := StoreHead(actions);
    } else {
      var count :| Takes(l, l', count);
      more := LoadTail(actions, count);
    }
    M.InvRun(more);
  }

  /** Every console run is, on each of its two queues, a run of the byte ring: the ring holds the same
      stream, its pushes and pops stand where the console's stand, and what a pop in progress will hand
      over is what the console takes from it. */
  lemma {:induction false} RunsOnRings(actions: seq<Action>) returns (to: seq<M.Action>, back: seq<M.Action>)
    requires Legal(actions)
    ensures M.Legal(to) && RingAt(M.Exec(to), To(Exec(actions)))
    ensures M.Legal(back) && RingAt(M.Exec(back), From(Exec(actions)))
  {
    hide To, From, Next, Enabled, RingAt;
    if actions == [] {
      to, back := [], [];
      StartRings();
    } else {
      var n := |actions| - 1;
      to, back := RunsOnRings(actions[..n]);
      var s := Exec(actions[..n]);
      ToMoves(s, actions[n]);
      FromMoves(s, actions[n]);
      to := Realize(to, To(s), To(Next(s, actions[n])));
      back := Realize(back, From(s), From(Next(s, actions[n])));
    }
  }

  lemma StartRings()
    ensures M.Legal([]) && RingAt(M.Exec([]), To(START)) && RingAt(M.Exec([]), From(START))
  {
  }
}
