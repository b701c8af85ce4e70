/**
 * The two concurrent collaborators of the pool, taken sequentially: an atomic
 * 32-bit integer and the lock-free FIFO queue of idle inflaters.
 */
module Concurrent {
  import opened Inflaters

  const INT32_MIN: int := -0x8000_0000
  const INT32_MAX: int := 0x7fff_ffff

  /** Java's `int`. */
  newtype int32 = x: int | -0x8000_0000 <= x < 0x8000_0000

  /** Java's `x - 1` on an `int`: wraps around at the bottom of the range. */
  function Decrement(x: int32): (r: int32)
    ensures x as int > INT32_MIN ==> r as int == x as int - 1
    ensures x as int == INT32_MIN ==> r as int == INT32_MAX
  {
    if x == -0x8000_0000 then 0x7fff_ffff else x - 1
  }

  /** java.util.concurrent.atomic.AtomicInteger, one thread at a time. */
  class AtomicInteger {
    var value: int32

    constructor (initial: int32)
      ensures value == initial
    {
      value := initial;
    }

    method Get() returns (v: int32)
      ensures v == value
    {
      v := value;
    }

    /** Stores `update` when the current value is `expected`, and says whether it did. */
    method CompareAndSet(expected: int32, update: int32) returns (swapped: bool)
      modifies this
      ensures swapped <==> old(value) == expected
      ensures value == if swapped then update else old(value)
    {
      swapped := value == expected;
      if swapped {
        value := update;
      }
    }

    method DecrementAndGet() returns (v: int32)
      modifies this
      ensures value == Decrement(old(value)) && v == value
    {
      value := Decrement(value);
      v := value;
    }
  }

  /** java.util.concurrent.ConcurrentLinkedQueue<Inflater>: `poll` takes the head, `add` appends. */
  class InflaterQueue {
    var items: seq<Inflater>

    constructor ()
      ensures items == []
    {
      items := [];
    }

    /** The head of the queue, removed, or null when the queue is empty. */
    method Poll() returns (x: Inflater?)
      modifies this
      ensures old(items) == [] ==> x == null && items == []
      ensures old(items) != [] ==> x == old(items)[0] && items == old(items)[1..]
    {
      if items == [] {
        x := null;
      } else {
        x := items[0];
        items := items[1..];
      }
    }

    method Add(x: Inflater)
      modifies this
      ensures items == old(items) + [x]
    {
      items := items + [x];
    }
  }
}
