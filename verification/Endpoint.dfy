/** The application endpoint's circular queue: each transfer copies at most two segments. */
module Endpoint {
  import opened Bytes
  import opened Queue

  /** Where the k-th byte after `head` is stored. */
  function Slot(head: nat, k: nat): (i: nat)
    requires head < CAPACITY && k < CAPACITY
    ensures i < CAPACITY && i == (head + k) % CAPACITY
  {
    if head + k < CAPACITY then head + k else head + k - CAPACITY
  }

  /** `size` bytes of a circular buffer, oldest first. */
  function Window(cells: seq<byte>, head: nat, size: nat): (s: seq<byte>)
    requires |cells| == CAPACITY && head < CAPACITY && size <= CAPACITY
    ensures |s| == size
    ensures forall k :: 0 <= k < size ==> s[k] == cells[Slot(head, k)]
  {
    seq(size, k requires 0 <= k < size => cells[Slot(head, k)])
  }

  lemma SlotAfter(head: nat, count: nat, k: nat)
    requires head < CAPACITY && count + k < CAPACITY
    ensures Slot(head, count + k) == Slot((head + count) % CAPACITY, k)
  {
    assert (head + count) % CAPACITY == if head + count < CAPACITY then head + count else head + count - CAPACITY;
  }

  lemma WindowSplit(cells: seq<byte>, head: nat, size: nat, count: nat)
    requires |cells| == CAPACITY && head < CAPACITY && count <= size <= CAPACITY
    ensures Window(cells, head, size) ==
            Window(cells, head, count) + Window(cells, (head + count) % CAPACITY, size - count)
  {
    hide Slot;
    var rest := Window(cells, (head + count) % CAPACITY, size - count);
    forall k | 0 <= k < size - count ensures rest[k] == Window(cells, head, size)[count + k] {
      SlotAfter(head, count, k);
    }
  }

  lemma TwoSegments(cells: seq<byte>, head: nat, count: nat)
    requires |cells| == CAPACITY && head < CAPACITY && count <= CAPACITY
    ensures var first := Min(count, CAPACITY - head);
      cells[head..head + first] + cells[..count - first] == Window(cells, head, count)
  {
  }

  class Ring {
    const bytes: array<byte>
    var head: nat
    var size: nat
    var peak: nat

    ghost predicate Valid()
      reads this
    {
      bytes.Length == CAPACITY && head < CAPACITY && size <= CAPACITY && size <= peak <= CAPACITY
    }

    ghost function Contents(): seq<byte>
      requires Valid()
      reads this, bytes
    {
      Window(bytes[..], head, size)
    }

    constructor ()
      ensures Valid() && fresh(bytes) && Contents() == [] && peak == 0
    {
      bytes := new byte[CAPACITY](_ => 0);
      head, size, peak := 0, 0, 0;
    }

    /** Both segments of a write that starts at `tail`. */
    method Fill(tail: nat, data: seq<byte>)
      requires bytes.Length == CAPACITY && tail < CAPACITY && |data| <= CAPACITY
      modifies bytes
      ensures forall j :: 0 <= j < |data| ==> bytes[Slot(tail, j)] == data[j]
      ensures forall i :: 0 <= i < CAPACITY && (i < tail || i >= tail + |data|) && i + CAPACITY >= tail + |data| ==>
                bytes[i] == old(bytes[i])
    {
      var first := Min(|data|, CAPACITY - tail);
      forall i | tail <= i < tail + first {
        bytes[i] := data[i - tail];
      }
      forall i | 0 <= i < |data| - first {
        bytes[i] := data[first + i];
      }
    }

    method Push(data: seq<byte>) returns (count: nat)
      requires Valid()
      modifies this`size, this`peak, bytes
      ensures Valid()
      ensures count == Min(|data|, CAPACITY - |old(Contents())|)
      ensures Contents() == old(Contents()) + data[..count]
      ensures peak == Max(old(peak), |Contents()|)
    {
      count := Min(|data|, CAPACITY - size);
      ghost var before, n := Contents(), size;
      if count > 0 {
        var tail := (head + size) % CAPACITY;
        Fill(tail, data[..count]);
        forall k | 0 <= k < n ensures bytes[Slot(head, k)] == before[k] {
        }
        forall k | n <= k < n + count ensures bytes[Slot(head, k)] == data[k - n] {
          assert Slot(head, k) == Slot(tail, k - n);
        }
      }
      size := size + count;
      if size > peak {
        peak := size;
      }
      assert Contents() == before + data[..count];
    }

    method Pop(limit: nat) returns (data: seq<byte>)
      requires Valid()
      modifies this`head, this`size
      ensures Valid() && peak == old(peak)
      ensures |data| == Min(limit, |old(Contents())|)
      ensures old(Contents()) == data + Contents()
    {
      var count := Min(limit, size);
      var first := Min(count, CAPACITY - head);
      data := bytes[head..head + first] + bytes[..count - first];
      TwoSegments(bytes[..], head, count);
      WindowSplit(bytes[..], head, size, count);
      hide Window;
      head := (head + count) % CAPACITY;
      size := size - count;
      if size == 0 {
        head := 0;
        Empty(bytes[..], head);
      }
    }
  }

  lemma Empty(cells: seq<byte>, head: nat)
    requires |cells| == CAPACITY && head < CAPACITY
    ensures forall h :: 0 <= h < CAPACITY ==> Window(cells, h, 0) == []
  {
  }
}
