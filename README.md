# InflaterPool in Dafny

A model of Jetty's `org.eclipse.jetty.util.InflaterPool`. It is a free list of reusable
`java.util.zip.Inflater` objects, and its capacity argument picks one of three policies:

- **disabled** (`capacity == 0`): no queue exists; `acquire` always creates a new inflater and
  `release` always ends the one it is given;
- **unbounded** (`capacity < 0`): `release` resets its inflater and appends it to the queue;
  `acquire` polls the head of the queue or creates a new inflater when the queue is empty;
- **bounded** (`capacity > 0`): an atomic counter `_numInflaters` decides admission. `release`
  reads the counter and ends the inflater when the pool is full. Otherwise it reserves a slot
  with a compare-and-set, then resets and queues the inflater. `acquire` decrements the
  counter only when `poll` returned an inflater.

Files and modules:

- `inflater.dfy`, module `Inflaters`: the inflater as an opaque handle. It has a constant
  `nowrap` flag and a lifecycle `Fresh | InUse | Reset | Ended`, changed by `Inflate`,
  `Reset` and `End`.
- `concurrent.dfy`, module `Concurrent`: Java's `int` as the newtype `int32`, and
  `AtomicInteger` with explicit wrap-around on decrement. It also holds `InflaterQueue`, the
  `ConcurrentLinkedQueue<Inflater>`: a `seq` whose `Poll` takes the head (or returns null)
  and whose `Add` appends.
- `pool_spec.dfy`, module `PoolSpec`: the acquire/release protocol as a state machine on
  values. It has the invariant `Inv`, the functions `Acquire`, `Release` and `Run` (any
  sequence of calls), and lemmas about whole runs.
- `inflater_pool.dfy`, module `JettyUtil`: the class `InflaterPool` with the source's four
  fields. Its methods are imperative: `Release` keeps the read-check-CAS retry loop.
  `View()` maps the object to a `PoolSpec.State`. Every method's postcondition equates the
  new `View()` with the matching `PoolSpec` function of the old one.
  `Valid()` is the object invariant. It holds `PoolSpec.Inv`, no inflater is queued twice,
  and every queued inflater is in state `Reset`.
- `scenarios.dfy`, module `Scenarios`: client methods that use only the class contracts.
  They walk through each policy. One is the capacity-2 example: release A, B and C; C is
  ended; the next acquire returns A, reset.

The invariant proved for every reachable state:

- a queue exists exactly when `capacity != 0`;
- a disabled pool holds nothing;
- in bounded mode, `numInflaters == |queue| <= capacity`;
- otherwise the counter stays 0.

Because the counter never exceeds the capacity, which is a Java `int`, the `d + 1` of the
compare-and-set cannot overflow. Because it is positive whenever `poll` succeeds, the
decrement never wraps.

## Model

| member | source | states |
|---|---|---|
| `JettyUtil.InflaterPool.constructor` | jetty-util/src/main/java/org/eclipse/jetty/util/InflaterPool.java:45-54 | The new pool is valid and its view is `PoolSpec.Init(capacity)`. A queue is allocated (empty) exactly when capacity is not 0, and the counter starts at 0. |
| `JettyUtil.InflaterPool.NewInflater` | jetty-util/src/main/java/org/eclipse/jetty/util/InflaterPool.java:56-59 | Returns a newly allocated inflater in state `Fresh` that carries the pool's `nowrap` flag. |
| `JettyUtil.InflaterPool.Acquire` | jetty-util/src/main/java/org/eclipse/jetty/util/InflaterPool.java:64-86 | Keeps the object invariant. The new view is `PoolSpec.Acquire` of the old one. A polled inflater is exactly the old head of the queue. Otherwise the result is new, `Fresh` and has the pool's flag. The result is always ready (fresh or reset) and no longer in the queue. |
| `JettyUtil.InflaterPool.Release` | jetty-util/src/main/java/org/eclipse/jetty/util/InflaterPool.java:91-126 | `release(null)` leaves the queue and counter unchanged. Otherwise the new view is `PoolSpec.Release` of the old one, and the inflater ends up `Reset` when pooled or `Ended` when discarded. The object invariant (counter equals queue length, at most capacity, all queued reset) is preserved through the CAS loop. |
| `PoolSpec.Init` | jetty-util/src/main/java/org/eclipse/jetty/util/InflaterPool.java:31-54 | The initial state satisfies the invariant. It has a queue exactly when capacity is not 0, holds no idle inflater and has counter 0. |
| `PoolSpec.Acquire` | jetty-util/src/main/java/org/eclipse/jetty/util/InflaterPool.java:64-86 | Preserves the invariant. A disabled pool always creates and stays unchanged. Otherwise a handle is polled exactly when one is idle; it is the head, and the rest of the queue remains. When nothing is polled the state is unchanged. |
| `PoolSpec.Release` | jetty-util/src/main/java/org/eclipse/jetty/util/InflaterPool.java:91-126 | Preserves the invariant. The handle is kept exactly when the pool admits it: never when disabled, always when unbounded, and when bounded exactly when the queue is shorter than the capacity. A kept handle is appended. A discarded one leaves the state unchanged. |
| `PoolSpec.Step` | jetty-util/src/main/java/org/eclipse/jetty/util/InflaterPool.java:64-126 | One call of either operation preserves the invariant and the capacity. An acquire call gets a handle back and a release call gets a fate. |
| `PoolSpec.Run` | jetty-util/src/main/java/org/eclipse/jetty/util/InflaterPool.java:64-126 | After any sequence of acquire and release calls the invariant still holds. In particular a bounded pool never holds more than `capacity` idle handles, and there is one reply of the matching kind per call. |
| `PoolSpec.DisabledRun` | jetty-util/src/main/java/org/eclipse/jetty/util/InflaterPool.java:68-100 | With capacity 0, no sequence of calls changes the state. Every acquire creates a new handle, and every release ends its handle. |
| `PoolSpec.UnboundedRunKeepsAll` | jetty-util/src/main/java/org/eclipse/jetty/util/InflaterPool.java:101-105 | With a negative capacity, no release is ever discarded: the handles kept are exactly the handles released. |
| `PoolSpec.StepConservesHandles` | jetty-util/src/main/java/org/eclipse/jetty/util/InflaterPool.java:72-121 | One call neither loses nor invents an idle handle. The old idle multiset plus what was kept equals the new idle multiset plus what was handed out. |
| `PoolSpec.RunConservesHandles` | jetty-util/src/main/java/org/eclipse/jetty/util/InflaterPool.java:64-126 | Over any run, as a multiset: the handles idle at the start plus those kept equal the handles idle at the end plus those handed out again from the queue. |
| `PoolSpec.ReleaseThenAcquire` | jetty-util/src/main/java/org/eclipse/jetty/util/InflaterPool.java:70-105 | In an enabled pool with nothing idle, a released handle is kept and is the next one acquired. The pool returns to its earlier state. |
| `PoolSpec.AcquireThenRelease` | jetty-util/src/main/java/org/eclipse/jetty/util/InflaterPool.java:70-121 | Acquiring the head and releasing it straight back moves that handle to the tail, with the counter unchanged. |
| `PoolSpec.BoundedScenario` | jetty-util/src/main/java/org/eclipse/jetty/util/InflaterPool.java:108-124 | Capacity 2: three acquires create three handles. Releasing a, b, c keeps a and b and discards c. The next acquire returns a. |
| `Inflaters.Inflater.constructor` | jetty-util/src/main/java/org/eclipse/jetty/util/InflaterPool.java:58 | `new Inflater(nowrap)` gives a `Fresh` handle with that flag. |
| `Inflaters.Inflater.Reset` | jetty-util/src/main/java/org/eclipse/jetty/util/InflaterPool.java:103 | `reset()` puts a handle that has not been ended into state `Reset`. |
| `Inflaters.Inflater.End` | jetty-util/src/main/java/org/eclipse/jetty/util/InflaterPool.java:98 | `end()` puts the handle into state `Ended`. |
| `Concurrent.AtomicInteger.constructor` | jetty-util/src/main/java/org/eclipse/jetty/util/InflaterPool.java:31 | `new AtomicInteger(0)` holds its initial value. |
| `Concurrent.AtomicInteger.Get` | jetty-util/src/main/java/org/eclipse/jetty/util/InflaterPool.java:110 | `get()` returns the current value. |
| `Concurrent.AtomicInteger.CompareAndSet` | jetty-util/src/main/java/org/eclipse/jetty/util/InflaterPool.java:118 | Succeeds exactly when the current value is the expected one, and only then stores the update. |
| `Concurrent.AtomicInteger.DecrementAndGet` | jetty-util/src/main/java/org/eclipse/jetty/util/InflaterPool.java:82 | Decrements with Java's 32-bit wrap-around and returns the new value. |
| `Concurrent.Decrement` | jetty-util/src/main/java/org/eclipse/jetty/util/InflaterPool.java:82 | Java `int` subtraction of one: exact above the minimum, wrapping to the maximum at the minimum. |
| `Concurrent.InflaterQueue.constructor` | jetty-util/src/main/java/org/eclipse/jetty/util/InflaterPool.java:51 | A new queue is empty. |
| `Concurrent.InflaterQueue.Poll` | jetty-util/src/main/java/org/eclipse/jetty/util/InflaterPool.java:72 | `poll()` returns null and leaves an empty queue empty. Otherwise it removes and returns the head. |
| `Concurrent.InflaterQueue.Add` | jetty-util/src/main/java/org/eclipse/jetty/util/InflaterPool.java:104 | `add(x)` appends `x` at the tail. |

## Left out

- Concurrency: thread interleavings, the atomicity of `ConcurrentLinkedQueue`, and memory
  visibility are not modelled; calls run one at a time. The retry path of the bounded
  `release` loop (a failed compare-and-set) is kept in the code. With nothing running in
  between, the value read at line 110 is still current at line 118, so the first
  compare-and-set always succeeds. The short window between the counter reservation and
  the `add` is never observed by another caller.
- What an inflater computes: `java.util.zip.Inflater` is a foreign library. The model keeps
  only its lifecycle state and its `nowrap` flag. `Inflate` stands for any use by the caller.
- Overriding `newInflater()` in a subclass: `NewInflater` is the pool's only factory.
- The unused `_compressionLevel` field (line 29).
- Failure of `new Inflater(...)` (for example running out of native memory): it propagates to
  the caller of `acquire` in the source; the model treats construction as always succeeding.
- JettyUtil.InflaterPool.Release: requires that the inflater is not already in the pool. The
  source does not check for a double release. A double release would queue the same object
  twice and break the rule that the pool keeps no reference to an inflater it has handed out.
- JettyUtil.InflaterPool.Release: requires that an inflater the pool will reset has not been
  ended. The JDK's `Inflater.reset()` throws after `end()`, and the model does not include that
  exception, nor the counter slot the bounded path would already have reserved when it is thrown.
- The constructor's comment at line 40 garbles the negative case ("a negative capacity equal
  to zero"). The code at line 70 treats every negative capacity as unbounded, and the model
  follows the code.
- Ordering: the idle inflaters are handed out first-in first-out, as `ConcurrentLinkedQueue`
  does. The pool promises its callers no order, and `PoolSpec.RunConservesHandles` states
  the order-free accounting.
