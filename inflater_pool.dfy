/**
 * org.eclipse.jetty.util.InflaterPool: a capacity-bounded free list of reusable
 * inflaters. Capacity 0 disables pooling, a negative capacity means no bound, and a
 * positive capacity bounds the number of idle inflaters through an admission counter.
 */
module JettyUtil {
  import opened Inflaters
  import opened Concurrent
  import PoolSpec

  class InflaterPool {
    /** `_pool`: the idle inflaters, or null when pooling is disabled. */
    const pool: InflaterQueue?
    /** `_nowrap`: passed to every inflater the pool creates. */
    const nowrap: bool
    /** `_numInflaters`: the admission counter of a bounded pool. */
    const numInflaters: AtomicInteger
    /** `_capacity`. */
    const capacity: int32

    /** The idle inflaters, oldest first. */
    ghost function Idle(): seq<Inflater>
      reads this, pool
    {
      if pool == null then [] else pool.items
    }

    /** The pool as a value of the state machine in PoolSpec. */
    ghost function View(): PoolSpec.State<Inflater>
      reads this, pool, numInflaters
    {
      PoolSpec.State(capacity as int, pool != null, Idle(), numInflaters.value as int)
    }

    /**
     * The object invariant: the state-machine invariant holds, no inflater is
     * queued twice, and every queued inflater has been reset.
     */
    ghost predicate Valid()
      reads this, pool, numInflaters, set x | x in Idle()
    {
      PoolSpec.Inv(View()) &&
      (forall i, j :: 0 <= i < j < |Idle()| ==> Idle()[i] != Idle()[j]) &&
      (forall x :: x in Idle() ==> x.state == Lifecycle.Reset)
    }

    constructor (capacity: int32, nowrap: bool)
      ensures Valid() && View() == PoolSpec.Init(capacity as int)
      ensures this.capacity == capacity && this.nowrap == nowrap
      ensures fresh(numInflaters) && (pool != null ==> fresh(pool))
    {
      this.capacity := capacity;
      this.nowrap := nowrap;
      numInflaters := new AtomicInteger(0);
      if capacity != 0 {
        pool := new InflaterQueue();
      } else {
        pool := null;
      }
    }

    /** The factory for new inflaters: each one is new and carries the pool's flag. */
    method NewInflater() returns (r: Inflater)
      ensures fresh(r) && r.nowrap == nowrap && r.state == Fresh
    {
      r := new Inflater(nowrap);
    }

    /**
     * The head of the queue when one is idle, otherwise a new inflater. Either way
     * the caller owns an inflater that is ready for use and no longer in the pool.
     */
    method Acquire() returns (r: Inflater)
      requires Valid()
      modifies pool, numInflaters
      ensures Valid()
      ensures var a := PoolSpec.Acquire(old(View()));
        View() == a.next &&
        (a.got.Polled? ==> r == a.got.h) &&
        (a.got.Created? ==> fresh(r) && r.state == Fresh && r.nowrap == nowrap)
      ensures r.Ready() && r !in Idle()
    {
      if capacity == 0 {
        r := NewInflater();
      } else if capacity < 0 {
        var polled := pool.Poll();
        if polled == null {
          r := NewInflater();
        } else {
          r := polled;
        }
      } else {
        var polled := pool.Poll();
        if polled == null {
          r := NewInflater();
        } else {
          r := polled;
          var _ := numInflaters.DecrementAndGet();
        }
      }
    }

    /**
     * Gives an inflater back. null is ignored. A disabled pool ends it; an unbounded
     * pool resets and queues it; a bounded pool reserves a counter slot with a
     * compare-and-set and then resets and queues it, or ends it when full.
     */
    method Release(inflater: Inflater?)
      requires Valid()
      requires inflater != null ==> inflater !in Idle()
      requires inflater != null && PoolSpec.Admits(View()) ==> inflater.state != Ended
      modifies pool, numInflaters, inflater
      ensures Valid()
      ensures inflater == null ==> View() == old(View())
      ensures inflater != null ==>
        var rel := PoolSpec.Release(old(View()), inflater);
        View() == rel.next &&
        inflater.state == (if rel.fate == PoolSpec.Pooled then Lifecycle.Reset else Ended)
    {
      if inflater == null {
        return;
      }
      if capacity == 0 {
        inflater.End();
        return;
      } else if capacity < 0 {
        inflater.Reset();
        pool.Add(inflater);
      } else {
        ghost var before := View();
        var done := false;
        while !done
          invariant pool != null && View().capacity == before.capacity
          invariant !done ==> View() == before && inflater.state == old(inflater.state)
          invariant done ==> Valid() && View() == PoolSpec.Release(before, inflater).next
          invariant done ==> inflater.state == if PoolSpec.Admits(before) then Lifecycle.Reset else Ended
          decreases !done
        {
          var d := numInflaters.Get();
          if d >= capacity {
            inflater.End();
            done := true;
          } else {
            var swapped := numInflaters.CompareAndSet(d, d + 1);
            if swapped {
              inflater.Reset();
              pool.Add(inflater);
              done := true;
            }
          }
        }
      }
    }
  }
}
