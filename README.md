# JANA2 engine core: topology lifecycle, event pool, source batching

This project models, in Dafny, three sequential pieces of the JANA2 multi-threaded
event-processing engine and proves their rules:

- **Topology lifecycle** (`arrow_topology.dfy`, module `ArrowTopology`): a topology owns
  its arrows, some of which are sources, and moves between Running, Pausing, Paused,
  Draining and Finished through `run`, `request_pause`, `achieve_pause`, `drain` and
  `finish`. The class `Topology` keeps the status in a field. Its methods loop over the
  arrows or sources as the engine does. Each call on an arrow (`pause`, `run`, `finish`)
  is appended to a ghost log `calls`. Each method is tied to the specification functions
  `Next` (the new status, or a protocol violation) and `Effects` (the arrow calls). The
  lemmas about sequences of commands (`Replay`) show that Finished is absorbing and
  silent, that Finished is reached only through `finish`, and that a topology without
  sources never enters Draining.
- **Sharded event pool** (`event_pool.dfy`, module `EventPool`): one stack of reusable
  events per location, held in an `array<seq<Event>>`. Each stack is capped at
  `poolSize`. `Get` and `Put` act only on the stack at `location % locationCount`. The
  methods are specified by the functions `AfterGet`, `Top` and `AfterPut` on the stacks'
  values. The lemmas prove the frame conditions, the LIFO round trip, the cap across any
  sequence of operations, and the bound on the total number of pooled events.
- **Single-fetcher batching** (`source_batching.dfy`, module `SourceBatching`): the class
  `EventSource` holds the exhausted flag, the fetch gate, the read/created counters and
  the batch bounds. `GetProcessEventTasks` has the fast path on the exhausted flag, the
  test-and-set on the gate, the fetch loop, the unconditional release of the gate, and
  the task loop. The external producer is an oracle `getEvent: nat -> Outcome`, where
  `getEvent(k)` is the outcome of the k-th fetch in one turn. The batch is proved to be
  `SuccessPrefix` of the outcomes: the in-order run of successes before the first
  failure.

`wrappers.dfy` holds the `Option` and `Result` datatypes.

Two behaviours of the code that are easy to miss:

- `drain()` sets Draining only inside its loop over the sources
  (src/libraries/JANA/Engine/JArrowTopology.cc:30-46). A topology with no sources keeps
  its status, for example Running.
- With the limit on events in flight, `get` never creates an event, so the pool never
  makes more than the `location_count * pool_size` events of its construction. Which
  events a `get` can obtain, however, depends on its location: it draws only from the
  stack at `location % location_count` and returns null when that stack is empty, even
  while other stacks still hold events. With `pool_size = 4`, `location_count = 2` and
  the limit on, four checkouts at one location succeed and the fifth returns null
  (`CheckoutBeyondLocalPool`).

## Model

| member | source | states |
|---|---|---|
| `SourceBatching.SuccessPrefix` | src/lib/JANA/JEventSource.cc:103-126 | The batch fetched from a list of outcomes is the in-order events of the successes that open it. Every earlier outcome is a success, and the outcome right after the batch, if any, is not. |
| `SourceBatching.SuccessPrefixUnique` | src/lib/JANA/JEventSource.cc:103-126 | Any run of successes that stops at the first non-success or at the end of the window is exactly `SuccessPrefix`. |
| `SourceBatching.StopsOnNoMoreIff` | src/lib/JANA/JEventSource.cc:112-124 | The loop stops on `kNO_MORE_EVENTS` if and only if some `kNO_MORE_EVENTS` outcome is preceded only by successes. |
| `SourceBatching.SuccessPrefixExtends` | src/lib/JANA/JEventSource.cc:103-126 | A longer window never loses fetched events: its batch extends the shorter window's batch. Once the shorter window stopped on a failure, the two batches are equal. |
| `SourceBatching.EventSource.constructor` | src/lib/JANA/JEventSource.cc:48-55 | A new source is not exhausted, its gate is free and both counters are zero. |
| `SourceBatching.EventSource.SetJApplication` | src/lib/JANA/JEventSource.cc:76-79 | Sets the application that later tasks are tagged with. |
| `SourceBatching.EventSource.IsExhausted` | src/lib/JANA/JEventSource.cc:171-174 | Reports the exhausted flag, which no operation ever clears. |
| `SourceBatching.EventSource.SetNumEventsToGetAtOnce` | src/lib/JANA/JEventSource.cc:145-157 | Afterwards `GetNumEventsToGetAtOnce` returns exactly the pair passed in. |
| `SourceBatching.EventSource.GetNumEventsToGetAtOnce` | src/lib/JANA/JEventSource.cc:154-157 | The read half of the round trip: returns the stored minimum and maximum batch sizes, in that order, without changing anything. |
| `SourceBatching.EventSource.GetProcessEventTasks` | src/lib/JANA/JEventSource.cc:84-140 | An exhausted source returns no tasks and changes nothing. When the gate is already held, the call returns no tasks, makes no fetch and leaves the gate held. Otherwise: the tasks are one per event of `SuccessPrefix` of the first `aNumTasks` outcomes, tagged with this source and its application; the gate is released; the source becomes exhausted exactly when the loop stopped on `kNO_MORE_EVENTS`; both counters grow by the batch size; the producer is called once more than the batch size, or `aNumTasks` times if no fetch failed. The batch never exceeds `aNumTasks`, and exhaustion is never undone. |
| `SourceBatching.ExhaustedStaysExhausted` | src/lib/JANA/JEventSource.cc:89 | Once a source is exhausted, every later turn returns an empty batch and the source stays exhausted. |
| `ArrowTopology.Next` | src/libraries/JANA/Engine/JArrowTopology.cc:24-119 | `finish` outside Paused and Finished is the only rejected command. Every command leaves Finished unchanged. `run` yields Running exactly when not Finished. `request_pause` yields Pausing exactly from Running or Pausing. `achieve_pause` yields Paused exactly when not Finished. `drain` yields Draining exactly when already Draining, or when not Finished and there is at least one source. An accepted `finish` yields Finished. |
| `ArrowTopology.Effects` | src/libraries/JANA/Engine/JArrowTopology.cc:25-28 | No command calls any arrow once Finished, and `achieve_pause` never calls one. |
| `ArrowTopology.BroadcastAt` | src/libraries/JANA/Engine/JArrowTopology.cc:67-71 | A loop over arrows makes one call per arrow, in the arrows' order. |
| `ArrowTopology.FinishedAbsorbing` | src/libraries/JANA/Engine/JArrowTopology.cc:25-28 | From Finished, any sequence of commands is accepted, stays in Finished and calls no arrow. |
| `ArrowTopology.NoSourcesNeverDrains` | src/libraries/JANA/Engine/JArrowTopology.cc:30-46 | A topology without sources that is not Draining never reaches Draining, whatever commands it receives. |
| `ArrowTopology.FinishedNeedsFinish` | src/libraries/JANA/Engine/JArrowTopology.cc:107-119 | A topology that is not Finished reaches Finished only through a `finish` command. |
| `ArrowTopology.FinishIdempotent` | src/libraries/JANA/Engine/JArrowTopology.cc:109-112 | Calling `finish` twice gives the same status and the same arrow calls as calling it once. |
| `ArrowTopology.Topology.constructor` | src/libraries/JANA/Engine/JArrowTopology.cc:10 | A new topology holds the given arrows, sources and status, and has called no arrow. |
| `ArrowTopology.Topology.Drain` | src/libraries/JANA/Engine/JArrowTopology.cc:24-47 | From Finished nothing happens. Otherwise every source is paused, in order. The status becomes Draining when there is at least one source, and is otherwise unchanged. |
| `ArrowTopology.Topology.Run` | src/libraries/JANA/Engine/JArrowTopology.cc:60-77 | From Running or Finished nothing happens. Otherwise `run` is called on every source, in order, and the status becomes Running. |
| `ArrowTopology.Topology.RequestPause` | src/libraries/JANA/Engine/JArrowTopology.cc:79-93 | From Running, `pause` is called on every arrow and the status becomes Pausing. From any other status nothing happens. |
| `ArrowTopology.Topology.AchievePause` | src/libraries/JANA/Engine/JArrowTopology.cc:95-105 | Running, Pausing and Draining become Paused. Paused and Finished are unchanged. No arrow is called. |
| `ArrowTopology.Topology.Finish` | src/libraries/JANA/Engine/JArrowTopology.cc:107-119 | Requires Paused or Finished, as the assertion demands. From Paused, `finish` is called on every arrow and the status becomes Finished. From Finished nothing happens. |
| `ArrowTopology.DrainThenFinish` | src/libraries/JANA/Engine/JArrowTopology.cc:24-119 | A running topology with one source and one sink reaches Finished through `drain`, `achieve_pause` and `finish`. The source is paused once, then every arrow is finished once. |
| `EventPool.Slot` | src/libraries/JANA/Utils/JEventPool.h:51 | Any location maps to a valid stack, and a location below the count maps to itself. |
| `EventPool.PutFrame` | src/libraries/JANA/Utils/JEventPool.h:74-82 | `put` changes only the stack its location maps to. It pushes the event on top when there is room, leaves the stacks unchanged when the stack is full, and keeps every stack within the cap. |
| `EventPool.GetFrame` | src/libraries/JANA/Utils/JEventPool.h:49-72 | `get` changes only the stack its location maps to. That stack shrinks by one exactly when an event is on it; the stacks are unchanged exactly when it is empty. Every cap is kept. |
| `EventPool.PutThenGet` | src/libraries/JANA/Utils/JEventPool.h:65-66 | The stacks are LIFO: a `get` right after a `put` that fitted returns the event just put and restores the stacks. |
| `EventPool.Replay` | src/libraries/JANA/Utils/JEventPool.h:49-82 | Any sequence of `get` and `put` keeps the number of stacks. |
| `EventPool.ReplayBounded` | src/libraries/JANA/Utils/JEventPool.h:40-46 | No sequence of `get` and `put` makes any stack exceed `pool_size`. |
| `EventPool.PooledAtMost` | src/libraries/JANA/Utils/JEventPool.h:40-46 | Stacks within the cap hold at most `location_count * pool_size` events in all. |
| `EventPool.Pool.constructor` | src/libraries/JANA/Utils/JEventPool.h:28-47 | Requires at least one location, as the assertion demands. Every local pool ends up holding exactly `pool_size` events, and the pool has created exactly `location_count * pool_size` events. |
| `EventPool.Pool.Get` | src/libraries/JANA/Utils/JEventPool.h:49-72 | A non-empty local pool pops and returns its most recent event. An empty one is left unchanged and yields null under the in-flight limit, or a fresh event without it. Other pools are unchanged. Only that fresh event adds to the count of events the pool has created, so under the limit the count never grows. |
| `EventPool.Pool.Put` | src/libraries/JANA/Utils/JEventPool.h:74-82 | Pushes the event onto its location's pool when that pool is below `pool_size`, or drops it. Other pools are unchanged, every pool stays within the cap, and no event is created. |
| `EventPool.Pool.Size` | src/libraries/JANA/Utils/JEventPool.h:84 | Returns the configured `pool_size`, not how many events a pool currently holds. |
| `EventPool.CheckoutBeyondLocalPool` | src/libraries/JANA/Utils/JEventPool.h:37-72 | With `pool_size = 4`, `location_count = 2` and the limit on, four checkouts at location 0 all get an event. A fifth at location 2, which maps to the same pool, gets null. |

## Left out

- Mutexes and atomics: each call is one atomic step, the gate is a plain boolean and the counters are plain numbers. Thread interleavings are not modelled.
- The external producer `GetEvent` is an oracle parameter. Event tagging is recorded in the task datatype. `GetProcessEventTask`/`JMakeAnalyzeEventTask` are represented by that datatype's constructor.
- `JArrow::pause`, `run`, `finish` and `get_status` are outside this model. The topology records each call in a ghost log. The empty `get_status` check in `drain` has no effect and is omitted.
- Metrics (`reset`, `start`, `stop`) and logging; the `nthreads` argument of `run` is accepted and unused.
- The topology destructor only frees memory.
- `configure_event` and the per-event resets on `get` (`mFactorySet->Release`, `mInspector.Reset`, the call-graph recorder reset) act inside the event and are outside this model.
- `EventSource.Open` and the destructor are empty.
- The default initial topology status and the default batch bounds are set in headers that are not part of this model. They are constructor parameters here.
- EventPool.Pool.constructor: states the size of each local pool only; it does not state that the `location_count * pool_size` events are fresh and distinct.
- The greenfield scheduler (src/lib/greenfield/Scheduler.h) has only declarations, with no selection logic to model.
- Integer widths: `size_t` values are modelled as unbounded naturals. No operation here can overflow except the counters, after 2^64 events.
