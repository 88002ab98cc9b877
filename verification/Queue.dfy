/** What the byte rings implement: a bounded window on an unbounded stream. */
module Queue {
  import opened Bytes

  const CAPACITY := 256

  /** Bytes ever sent, how many of them the consumer has taken, and how many cells it has given back. */
  datatype Fifo<T> = Fifo(sent: seq<T>, taken: nat, freed: nat) {
    predicate Valid() {
      freed <= taken <= |sent| <= freed + CAPACITY
    }

    function Free(): int {
      CAPACITY - (|sent| - freed)
    }

    function Available(): int {
      |sent| - taken
    }
  }

  function Append<T>(f: Fifo<T>, data: seq<T>): Fifo<T> {
    f.(sent := f.sent + data)
  }

  /** Up to `count` of the bytes sent so far. */
  function Take<T>(f: Fifo<T>, count: nat): Fifo<T> {
    f.(taken := Max(f.taken, Min(f.taken + count, |f.sent|)))
  }

  function GiveBack<T>(f: Fifo<T>): Fifo<T> {
    f.(freed := f.taken)
  }
}
