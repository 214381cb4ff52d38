/** The sharded pool of reusable events (src/libraries/JANA/Utils/JEventPool.h).

    The pool keeps one stack of events per location.  `Get` and `Put` act on
    the stack at `location % locationCount` only, so any location number is
    valid.  A stack never holds more than `poolSize` events: `Put` discards an
    event that does not fit.  When a stack is empty, `Get` either reports that
    no event is available (when the total number of events in flight is
    limited) or makes a fresh one. */
module EventPool {
  import opened Wrappers

  /** An event container; what it holds is outside this model. */
  class Event {
    constructor ()
    {
    }
  }

  /** The stack a location maps to. */
  function Slot(location: nat, locationCount: nat): (j: nat)
    requires locationCount >= 1
    ensures j < locationCount
    ensures location < locationCount ==> j == location
  {
    location % locationCount
  }

  /** Every stack holds at most `cap` events. */
  predicate Bounded<E>(stacks: seq<seq<E>>, cap: nat)
  {
    forall j :: 0 <= j < |stacks| ==> |stacks[j]| <= cap
  }

  /** The stacks after `put(ev, location)`: pushed when there is room,
      unchanged when the stack is full. */
  function AfterPut<E>(stacks: seq<seq<E>>, location: nat, ev: E, cap: nat): (r: seq<seq<E>>)
    requires |stacks| >= 1
  {
    var j := Slot(location, |stacks|);
    if |stacks[j]| < cap then stacks[j := stacks[j] + [ev]] else stacks
  }

  /** The pooled event `get(location)` hands out: the top of the stack. */
  function Top<E>(stacks: seq<seq<E>>, location: nat): Option<E>
    requires |stacks| >= 1
  {
    var stack := stacks[Slot(location, |stacks|)];
    if stack == [] then None else Some(stack[|stack| - 1])
  }

  /** The stacks after `get(location)`: the top is popped, if there is one. */
  function AfterGet<E>(stacks: seq<seq<E>>, location: nat): (r: seq<seq<E>>)
    requires |stacks| >= 1
  {
    var j := Slot(location, |stacks|);
    if stacks[j] == [] then stacks else stacks[j := stacks[j][..|stacks[j]| - 1]]
  }

  /** `put` changes only the stack its location maps to, never lets it grow
      past `cap`, and keeps what was there below the new event. */
  lemma PutFrame<E>(stacks: seq<seq<E>>, location: nat, ev: E, cap: nat)
    requires |stacks| >= 1
    ensures var r := AfterPut(stacks, location, ev, cap);
      var j := Slot(location, |stacks|);
      && |r| == |stacks|
      && (forall i :: 0 <= i < |r| && i != j ==> r[i] == stacks[i])
      && (|stacks[j]| < cap ==> r[j] == stacks[j] + [ev])
      && (|stacks[j]| >= cap ==> r == stacks)
      && (Bounded(stacks, cap) ==> Bounded(r, cap))
  {
  }

  /** `get` changes only the stack its location maps to, and shrinks it by
      one exactly when it hands out a pooled event. */
  lemma GetFrame<E>(stacks: seq<seq<E>>, location: nat)
    requires |stacks| >= 1
    ensures var r := AfterGet(stacks, location);
      var j := Slot(location, |stacks|);
      && |r| == |stacks|
      && (forall i :: 0 <= i < |r| && i != j ==> r[i] == stacks[i])
      && (Top(stacks, location).Some? <==> |r[j]| == |stacks[j]| - 1)
      && (Top(stacks, location).None? <==> r == stacks)
      && (forall cap: nat :: Bounded(stacks, cap) ==> Bounded(r, cap))
  {
  }

  /** The stacks are LIFO: a `get` right after a `put` that fitted hands
      back the event just put and restores the stacks. */
  lemma PutThenGet<E>(stacks: seq<seq<E>>, location: nat, ev: E, cap: nat)
    requires |stacks| >= 1
    requires |stacks[Slot(location, |stacks|)]| < cap
    ensures Top(AfterPut(stacks, location, ev, cap), location) == Some(ev)
    ensures AfterGet(AfterPut(stacks, location, ev, cap), location) == stacks
  {
    var j := Slot(location, |stacks|);
    assert (stacks[j] + [ev])[..|stacks[j]|] == stacks[j];
  }

  /** A `get` or a `put` at some location. */
  datatype PoolOp<E> = GetOp(location: nat) | PutOp(location: nat, ev: E)

  /** The stacks after a sequence of operations. */
  function Replay<E>(stacks: seq<seq<E>>, ops: seq<PoolOp<E>>, cap: nat): (r: seq<seq<E>>)
    requires |stacks| >= 1
    ensures |r| == |stacks|
    decreases |ops|
  {
    if ops == [] then stacks
    else
      var next := match ops[0]
        case GetOp(loc) => AfterGet(stacks, loc)
        case PutOp(loc, ev) => AfterPut(stacks, loc, ev, cap);
      Replay(next, ops[1..], cap)
  }

  /** No sequence of `get` and `put` makes any stack exceed the cap. */
  lemma {:induction false} ReplayBounded<E>(stacks: seq<seq<E>>, ops: seq<PoolOp<E>>, cap: nat)
    requires |stacks| >= 1 && Bounded(stacks, cap)
    ensures Bounded(Replay(stacks, ops, cap), cap)
    decreases |ops|
  {
    if ops != [] {
      match ops[0]
      case GetOp(loc) =>
        GetFrame(stacks, loc);
        ReplayBounded(AfterGet(stacks, loc), ops[1..], cap);
      case PutOp(loc, ev) =>
        PutFrame(stacks, loc, ev, cap);
        ReplayBounded(AfterPut(stacks, loc, ev, cap), ops[1..], cap);
    }
  }

  /** The number of events held in all stacks together. */
  function Pooled<E>(stacks: seq<seq<E>>): nat
  {
    if stacks == [] then 0 else |stacks[0]| + Pooled(stacks[1..])
  }

  /** Bounded stacks hold at most `locationCount * poolSize` events in all:
      the pool never holds more than it was filled with. */
  lemma {:induction false} PooledAtMost<E>(stacks: seq<seq<E>>, cap: nat)
    requires Bounded(stacks, cap)
    ensures Pooled(stacks) <= |stacks| * cap
  {
    if stacks != [] {
      PooledAtMost(stacks[1..], cap);
      assert |stacks| * cap == cap + (|stacks| - 1) * cap;
    }
  }

  class Pool {
    const poolSize: nat
    const locationCount: nat
    const limitTotalEventsInFlight: bool
    /** One stack of events per location; the top is the last element. */
    const pools: array<seq<Event>>
    /** How many events this pool has created so far. */
    ghost var created: nat

    ghost predicate Valid()
      reads this, pools
    {
      locationCount >= 1 && pools.Length == locationCount && Bounded(pools[..], poolSize)
    }

    /** Fills every local pool with `poolSize` fresh events, putting each
        one at its location.  Configuring the events is not modelled. */
    constructor (poolSize: nat, locationCount: nat, limitTotalEventsInFlight: bool)
      requires locationCount >= 1
      ensures Valid() && fresh(pools)
      ensures this.poolSize == poolSize && this.locationCount == locationCount
      ensures this.limitTotalEventsInFlight == limitTotalEventsInFlight
      ensures forall j :: 0 <= j < locationCount ==> |pools[j]| == poolSize
      ensures created == locationCount * poolSize
    {
      this.poolSize := poolSize;
      this.locationCount := locationCount;
      this.limitTotalEventsInFlight := limitTotalEventsInFlight;
      pools := new seq<Event>[locationCount](_ => []);
      created := 0;
      new;
      var j := 0;
      while j < locationCount
        invariant j <= locationCount && Valid()
        invariant forall k :: 0 <= k < j ==> |pools[k]| == poolSize
        invariant forall k :: j <= k < locationCount ==> pools[k] == []
        invariant created == j * poolSize
      {
        var i := 0;
        while i < poolSize
          invariant i <= poolSize && Valid()
          invariant |pools[j]| == i
          invariant forall k :: 0 <= k < j ==> |pools[k]| == poolSize
          invariant forall k :: j < k < locationCount ==> pools[k] == []
          invariant created == j * poolSize + i
        {
          var event := new Event();
          created := created + 1;
          ghost var before := pools[..];
          Put(event, j);
          PutFrame(before, j, event, poolSize);
          i := i + 1;
        }
        assert (j + 1) * poolSize == j * poolSize + poolSize;
        j := j + 1;
      }
    }

    /** Takes an event for `location`: the most recently returned one from
        its local pool, or, when that pool is empty, a fresh event or none at
        all if events in flight are limited. */
    method Get(location: nat) returns (event: Event?)
      requires Valid()
      modifies pools, this`created
      ensures Valid()
      ensures pools[..] == AfterGet(old(pools[..]), location)
      ensures Top(old(pools[..]), location).Some? ==> event == Top(old(pools[..]), location).value
      ensures Top(old(pools[..]), location).None? ==>
        if limitTotalEventsInFlight then event == null else event != null && fresh(event)
      // Only a fresh event counts as a new allocation, and under the limit there is none.
      ensures created == old(created) + (if Top(old(pools[..]), location).None? && !limitTotalEventsInFlight then 1 else 0)
      ensures limitTotalEventsInFlight ==> created == old(created)
    {
      var j := location % locationCount;
      var stack := pools[j];
      if stack == [] {
        if limitTotalEventsInFlight {
          return null;
        } else {
          event := new Event();
          created := created + 1;
          return;
        }
      }
      event := stack[|stack| - 1];
      pools[j] := stack[..|stack| - 1];
      GetFrame(old(pools[..]), location);
    }

    /** Returns `event` to the local pool of `location`, or drops it when
        that pool already holds `poolSize` events. */
    method Put(event: Event, location: nat)
      requires Valid()
      modifies pools
      ensures Valid()
      ensures pools[..] == AfterPut(old(pools[..]), location, event, poolSize)
      ensures created == old(created)
    {
      var j := location % locationCount;
      if |pools[j]| < poolSize {
        pools[j] := pools[j] + [event];
      }
      PutFrame(old(pools[..]), location, event, poolSize);
    }

    /** The configured capacity of each local pool, not how many events it
        currently holds. */
    function Size(): (n: nat)
      ensures n == poolSize
    {
      poolSize
    }
  }

  /** With a limit on events in flight, a location filled with `poolSize`
      events serves exactly that many: the next `get` there finds nothing. */
  method CheckoutBeyondLocalPool() returns (events: seq<Event?>, next: Event?)
    ensures |events| == 4 && forall k :: 0 <= k < 4 ==> events[k] != null
    ensures next == null
  {
    var pool := new Pool(4, 2, true);
    events := [];
    var k := 0;
    while k < 4
      invariant k <= 4 && pool.Valid() && |events| == k
      invariant forall m :: 0 <= m < k ==> events[m] != null
      invariant |pool.pools[0]| == 4 - k
      modifies pool.pools, pool
    {
      var e := pool.Get(0);
      events := events + [e];
      k := k + 1;
    }
    next := pool.Get(2);
  }
}
