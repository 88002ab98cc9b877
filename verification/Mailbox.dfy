/**
 The single-producer, single-consumer byte ring between the cores. Both indexes
 are 32-bit and wrap; the producer and the consumer interleave at every load,
 byte copy and store.
 */
module Mailbox {
  import opened Bytes
  import opened Queue

  // ---- Wrapping indexes ----

  /** The cell used by stream position `i`. */
  function Cell(i: nat): (k: nat)
    ensures k < CAPACITY
  {
    i % CAPACITY
  }

  lemma WrapIndex(a: nat)
    ensures Cell(Wrap32(a)) == Cell(a)
  {
    assert a == WORD_SPAN * (a / WORD_SPAN) + Wrap32(a);
    assert a == CAPACITY * (WORD_SPAN / CAPACITY * (a / WORD_SPAN)) + Wrap32(a);
  }

  lemma DistinctCells(i: nat, j: nat)
    requires i < j < i + CAPACITY
    ensures Cell(i) != Cell(j)
  {
  }

  // ---- The interleaved ring ----

  /** `seen` is the unwrapped value of the other side's index at the acquire load. */
  datatype Producer =
    | Resting
    | LoadingHead(data: seq<byte>)
    | Writing(data: seq<byte>, written: nat, tail: uint32, head: uint32, seen: nat)

  datatype Consumer =
    | Waiting
    | LoadingTail(count: nat)
    | Reading(count: nat, out: seq<byte>, head: uint32, tail: uint32, seen: nat)

  type Cells = s: seq<byte> | |s| == CAPACITY witness Fill(CAPACITY, 0)

  datatype Ring = Ring(cells: Cells, head: uint32, tail: uint32, p: Producer, c: Consumer,
                       fifo: Fifo<byte>, got: seq<byte>)

  datatype Action = PushCall(data: seq<byte>) | PopCall(count: nat) | ProducerStep | ConsumerStep

  const EMPTY := Ring(Fill(CAPACITY, 0), 0, 0, Resting, Waiting, Fifo([], 0, 0), [])

  predicate Enabled(r: Ring, a: Action) {
    match a
    case PushCall(_) => r.p.Resting?
    case PopCall(_) => r.c.Waiting?
    case ProducerStep => !r.p.Resting?
    case ConsumerStep => !r.c.Waiting?
  }

  function ProducerNext(r: Ring): Ring {
    match r.p
    case Resting => r
    case LoadingHead(data) => r.(p := Writing(data, 0, r.tail, r.head, r.fifo.freed))
    case Writing(data, written, tail, head, seen) =>
      if written < |data| && Wrap32(tail - head) < CAPACITY then
        r.(cells := r.cells[Cell(tail) := data[written]],
           p := Writing(data, written + 1, Wrap32(tail + 1), head, seen))
      else
        r.(tail := tail, p := Resting, fifo := Append(r.fifo, data[..Min(written, |data|)]))
  }

  function ConsumerNext(r: Ring): Ring {
    match r.c
    case Waiting => r
    case LoadingTail(count) =>
      r.(c := Reading(count, [], r.head, r.tail, |r.fifo.sent|),
         fifo := Take(r.fifo, count))
    case Reading(count, out, head, tail, seen) =>
      if |out| < count && head != tail then
        r.(c := Reading(count, out + [r.cells[Cell(head)]], Wrap32(head + 1), tail, seen))
      else r.(head := head, c := Waiting, fifo := GiveBack(r.fifo), got := r.got + out)
  }

  function Next(r: Ring, a: Action): Ring {
    match a
    case PushCall(data) => r.(p := LoadingHead(data))
    case PopCall(count) => r.(c := LoadingTail(count))
    case ProducerStep => ProducerNext(r)
    case ConsumerStep => ConsumerNext(r)
  }

  function Exec(actions: seq<Action>): Ring {
    if actions == [] then EMPTY else Next(Exec(actions[..|actions| - 1]), actions[|actions| - 1])
  }

  predicate Legal(actions: seq<Action>) {
    actions == [] ||
    (var n := |actions| - 1; Legal(actions[..n]) && Enabled(Exec(actions[..n]), actions[n]))
  }

  // ---- Invariants ----

  predicate Holds(cells: Cells, stream: seq<byte>, from: nat) {
    forall i :: from <= i < |stream| ==> cells[Cell(i)] == stream[i]
  }

  predicate ProducerInv(r: Ring) {
    match r.p
    case Writing(data, written, tail, head, seen) =>
      && seen <= r.fifo.freed && written <= |data|
      && tail == Wrap32(|r.fifo.sent| + written) && head == Wrap32(seen)
      && |r.fifo.sent| + written <= seen + CAPACITY
      && Holds(r.cells, r.fifo.sent + data[..written], r.fifo.freed)
    case _ => Holds(r.cells, r.fifo.sent, r.fifo.freed)
  }

  predicate ConsumerInv(r: Ring) {
    match r.c
    case Reading(count, out, head, tail, seen) =>
      && seen <= |r.fifo.sent| && tail == Wrap32(seen)
      && r.fifo.taken == r.fifo.freed + Min(count, seen - r.fifo.freed)
      && r.fifo.freed + |out| <= r.fifo.taken <= seen
      && head == Wrap32(r.fifo.freed + |out|)
      && out == r.fifo.sent[r.fifo.freed..r.fifo.freed + |out|]
    case _ => r.fifo.taken == r.fifo.freed
  }

  predicate Inv(r: Ring) {
    && r.fifo.Valid()
    && r.head == Wrap32(r.fifo.freed) && r.tail == Wrap32(|r.fifo.sent|)
    && r.got == r.fifo.sent[..r.fifo.freed]
    && ProducerInv(r) && ConsumerInv(r)
  }

  lemma HoldsAppend(cells: Cells, stream: seq<byte>, from: nat, b: byte)
    requires Holds(cells, stream, from) && from <= |stream| < from + CAPACITY
    ensures Holds(cells[Cell(|stream|) := b], stream + [b], from)
  {
    hide Cell;
    var n := |stream|;
    var cells' := cells[Cell(n) := b];
    forall i | from <= i < n + 1 ensures cells'[Cell(i)] == (stream + [b])[i] {
      if i < n {
        DistinctCells(i, n);
        assert cells[Cell(i)] == stream[i];
      }
    }
  }

  lemma WriteKeeps(r: Ring)
    requires Inv(r) && r.p.Writing? && r.p.written < |r.p.data| && Wrap32(r.p.tail - r.p.head) < CAPACITY
    ensures Inv(ProducerNext(r))
  {
    hide Wrap32, Cell, Holds;
    var Writing(data, written, tail, head, seen) := r.p;
    var n := |r.fifo.sent| + written;
    WrapDifference(n, seen);
    WrapIndex(n);
    WrapNext(n);
    HoldsAppend(r.cells, r.fifo.sent + data[..written], r.fifo.freed, data[written]);
    assert r.fifo.sent + data[..written] + [data[written]] == r.fifo.sent + data[..written + 1];
    Prefixed(r, r.cells[Cell(n) := data[written]]);
  }

  lemma Prefixed(r: Ring, cells: Cells)
    requires Inv(r)
    ensures ConsumerInv(r.(cells := cells))
  {
    hide Wrap32;
  }

  lemma PublishKeeps(r: Ring)
    requires Inv(r) && r.p.Writing?
    requires r.p.written == |r.p.data| || Wrap32(r.p.tail - r.p.head) >= CAPACITY
    ensures Inv(ProducerNext(r))
  {
    hide Wrap32, Cell, Holds;
    WrapDifference(|r.fifo.sent| + r.p.written, r.p.seen);
    var stream := r.fifo.sent + r.p.data[..Min(r.p.written, |r.p.data|)];
    assert stream[..r.fifo.freed] == r.fifo.sent[..r.fifo.freed];
    if r.c.Reading? {
      var n := r.fifo.freed + |r.c.out|;
      assert stream[r.fifo.freed..n] == r.fifo.sent[r.fifo.freed..n];
    }
  }

  lemma ProducerKeeps(r: Ring)
    requires Inv(r) && !r.p.Resting?
    ensures Inv(ProducerNext(r))
  {
    hide Wrap32, Cell, Holds;
    if r.p.LoadingHead? {
      assert r.fifo.sent + r.p.data[..0] == r.fifo.sent;
    } else if r.p.written < |r.p.data| && Wrap32(r.p.tail - r.p.head) < CAPACITY {
      WriteKeeps(r);
    } else {
      PublishKeeps(r);
    }
  }

  lemma ReadKeeps(r: Ring)
    requires Inv(r) && r.c.Reading? && |r.c.out| < r.c.count && r.c.head != r.c.tail
    ensures Inv(ConsumerNext(r))
  {
    hide Wrap32, Cell;
    var n := r.fifo.freed + |r.c.out|;
    WrapEqual(r.c.seen, n);
    WrapIndex(n);
    WrapNext(n);
    assert (if r.p.Writing? then r.fifo.sent + r.p.data[..r.p.written] else r.fifo.sent)[n] == r.fifo.sent[n];
    assert r.cells[Cell(n)] == r.fifo.sent[n];
    hide Holds;
  }

  lemma HoldsFrom(cells: Cells, stream: seq<byte>, from: nat, later: nat)
    requires Holds(cells, stream, from) && from <= later
    ensures Holds(cells, stream, later)
  {
    hide Cell;
  }

  lemma ReturnKeeps(r: Ring)
    requires Inv(r) && r.c.Reading? && (|r.c.out| == r.c.count || r.c.head == r.c.tail)
    ensures r.fifo.freed + |r.c.out| == r.fifo.taken
    ensures Inv(ConsumerNext(r))
  {
    hide Wrap32, Cell, Holds;
    var n := r.fifo.freed + |r.c.out|;
    WrapEqual(r.c.seen, n);
    assert n == r.fifo.taken;
    var stream := if r.p.Writing? then r.fifo.sent + r.p.data[..r.p.written] else r.fifo.sent;
    HoldsFrom(r.cells, stream, r.fifo.freed, n);
  }

  lemma ConsumerKeeps(r: Ring)
    requires Inv(r) && !r.c.Waiting?
    ensures Inv(ConsumerNext(r))
  {
    hide Wrap32, Cell, Holds;
    if r.c.LoadingTail? {
    } else if |r.c.out| < r.c.count && r.c.head != r.c.tail {
      ReadKeeps(r);
    } else {
      ReturnKeeps(r);
    }
  }

  lemma {:induction false} InvRun(actions: seq<Action>)
    requires Legal(actions)
    ensures Inv(Exec(actions))
  {
    hide Cell, Holds, ProducerNext, ConsumerNext;
    if actions != [] {
      var n := |actions| - 1;
      InvRun(actions[..n]);
      var r := Exec(actions[..n]);
      match actions[n]
      case ProducerStep => ProducerKeeps(r);
      case ConsumerStep => ConsumerKeeps(r);
      case _ =>
    } else {
      EmptyInv();
    }
  }

  lemma EmptyInv()
    ensures Inv(EMPTY)
  {
  }

  /** Whatever the interleaving, and for any number of bytes: what was popped is what was pushed, in
      order, nothing lost or repeated, at most one ring's worth behind. */
  lemma RingIsFifo(actions: seq<Action>)
    requires Legal(actions)
    ensures var r := Exec(actions);
      r.got <= r.fifo.sent && |r.fifo.sent| - |r.got| <= CAPACITY
  {
    hide Exec, Legal, Wrap32, Holds;
    InvRun(actions);
  }

  /** The other side's view of a step: nothing, an append of a prefix of the pushed data that is as
      long as the room seen at the head load allows, a take of what was there at the tail load, or a
      return of exactly the taken cells together with their bytes. */
  predicate Refines(r: Ring, r': Ring)
    requires r.fifo.Valid()
  {
    || r'.fifo == r.fifo
    || (r.p.Writing? && r.p.written == Min(|r.p.data|, CAPACITY - (|r.fifo.sent| - r.p.seen)) &&
        0 <= r.p.written <= r.fifo.Free() && r'.fifo == Append(r.fifo, r.p.data[..r.p.written]))
    || (r.c.LoadingTail? && r'.fifo == Take(r.fifo, r.c.count))
    || (r.c.Reading? && r'.fifo == GiveBack(r.fifo) && r.c.out == r.fifo.sent[r.fifo.freed..r.fifo.taken])
  }

  lemma StepRefines(r: Ring, a: Action)
    requires Inv(r) && Enabled(r, a)
    ensures Refines(r, Next(r, a))
  {
    hide Wrap32, Cell, Holds;
    if a.ProducerStep? && r.p.Writing? {
      WrapDifference(|r.fifo.sent| + r.p.written, r.p.seen);
    } else if a.ConsumerStep? && r.c.Reading? {
      if !(|r.c.out| < r.c.count && r.c.head != r.c.tail) {
        ReturnKeeps(r);
      }
    }
  }

  lemma RunRefines(actions: seq<Action>, a: Action)
    requires Legal(actions + [a])
    ensures Exec(actions).fifo.Valid() && Refines(Exec(actions), Exec(actions + [a]))
  {
    hide ProducerInv, ConsumerInv, Refines, Next;
    assert (actions + [a])[..|actions|] == actions;
    InvRun(actions);
    StepRefines(Exec(actions), a);
  }

  /** size() and free_space(), read by the side that owns the index that cannot move. */
  lemma Occupancy(actions: seq<Action>)
    requires Legal(actions)
    ensures var r := Exec(actions);
      && (r.c.Waiting? ==> Wrap32(r.tail - r.head) == r.fifo.Available())
      && (r.p.Resting? ==> CAPACITY - Wrap32(r.tail - r.head) == r.fifo.Free())
  {
    hide Exec, Legal, Wrap32, Holds;
    InvRun(actions);
    var r := Exec(actions);
    WrapDifference(|r.fifo.sent|, r.fifo.freed);
  }

  // ---- The ring as an object ----

  /** SpscByteRing as its two callers use it, one call at a time. */
  class SpscByteRing {
    const bytes: array<byte>
    var head: uint32
    var tail: uint32
    ghost var fifo: Fifo<byte>

    ghost predicate Valid()
      reads this, bytes
    {
      && bytes.Length == CAPACITY && fifo.Valid() && fifo.taken == fifo.freed
      && head == Wrap32(fifo.freed) && tail == Wrap32(|fifo.sent|)
      && Holds(bytes[..], fifo.sent, fifo.freed)
    }

    /** What is in the ring. */
    ghost function Contents(): seq<byte>
      requires Valid()
      reads this, bytes
    {
      fifo.sent[fifo.freed..]
    }

    constructor ()
      ensures Valid() && fresh(bytes) && Contents() == []
    {
      bytes := new byte[CAPACITY](_ => 0);
      head, tail := 0, 0;
      fifo := Fifo([], 0, 0);
    }

    method Size() returns (n: nat)
      requires Valid()
      ensures n == |Contents()|
    {
      WrapDifference(|fifo.sent|, fifo.freed);
      n := Wrap32(tail - head);
    }

    method FreeSpace() returns (n: nat)
      requires Valid()
      ensures n == CAPACITY - |Contents()|
    {
      WrapDifference(|fifo.sent|, fifo.freed);
      n := CAPACITY - Wrap32(tail - head);
    }

    method Push(data: seq<byte>) returns (written: nat)
      requires Valid()
      modifies this`tail, this`fifo, bytes
      ensures written == Min(|data|, CAPACITY - |old(Contents())|) && written <= |data|
      ensures Valid() && fifo == Append(old(fifo), data[..written])
      ensures Contents() == old(Contents()) + data[..written]
    {
      hide Wrap32, Cell, Holds;
      var t: int, h: int := tail, head;
      written := 0;
      assert fifo.sent + data[..0] == fifo.sent;
      while written < |data| && Wrap32(t - h) < CAPACITY
        invariant written <= |data| && |fifo.sent| + written <= fifo.freed + CAPACITY
        invariant t == Wrap32(|fifo.sent| + written)
        invariant Holds(bytes[..], fifo.sent + data[..written], fifo.freed)
        modifies bytes
      {
        var n := |fifo.sent| + written;
        WrapDifference(n, fifo.freed);
        WrapIndex(n);
        WrapNext(n);
        HoldsAppend(bytes[..], fifo.sent + data[..written], fifo.freed, data[written]);
        assert fifo.sent + data[..written] + [data[written]] == fifo.sent + data[..written + 1];
        bytes[Cell(t)] := data[written];
        written := written + 1;
        t := Wrap32(t + 1);
      }
      WrapDifference(|fifo.sent| + written, fifo.freed);
      tail := t;
      fifo := Append(fifo, data[..written]);
    }

    method Pop(count: nat) returns (out: seq<byte>)
      requires Valid()
      modifies this`head, this`fifo
      ensures Valid() && fifo == GiveBack(Take(old(fifo), count))
      ensures |out| == Min(count, |old(Contents())|)
      ensures old(Contents()) == out + Contents()
    {
      hide Wrap32, Cell;
      var h: int, t: int := head, tail;
      out := [];
      while |out| < count && h != t
        invariant |out| <= Min(count, |fifo.sent| - fifo.freed)
        invariant h == Wrap32(fifo.freed + |out|)
        invariant out == fifo.sent[fifo.freed..fifo.freed + |out|]
        modifies {}
        decreases count - |out|
      {
        var n := fifo.freed + |out|;
        WrapEqual(|fifo.sent|, n);
        WrapIndex(n);
        WrapNext(n);
        assert bytes[..][Cell(n)] == fifo.sent[n];
        out := out + [bytes[Cell(h)]];
        h := Wrap32(h + 1);
      }
      WrapEqual(|fifo.sent|, fifo.freed + |out|);
      head := h;
      HoldsFrom(bytes[..], fifo.sent, fifo.freed, fifo.freed + |out|);
      fifo := GiveBack(Take(fifo, count));
    }
  }
}
