/** The single-fetcher batching protocol of an event source
    (src/lib/JANA/JEventSource.cc).

    A worker asking a source for work gets a batch of analysis tasks, one per
    event fetched.  At most one worker fetches at a time: the others find the
    gate held and leave with an empty batch.  The external producer
    (`GetEvent`) is modelled as an oracle: `getEvent(k)` is the outcome of the
    k-th call made during one turn. */
module SourceBatching {

  /** What one call of the external `GetEvent` can produce: an event, or one
      of the return statuses it throws, or an exception of any other kind. */
  datatype Outcome =
    | Fetched(event: nat)
    | NoMoreEvents
    | Busy
    | TryAgain
    | OtherStatus(code: int)
    | UnexpectedException

  /** The outcomes of the first `n` calls of one turn. */
  function Window(getEvent: nat -> Outcome, n: nat): seq<Outcome>
  {
    seq(n, k requires 0 <= k < n => getEvent(k))
  }

  /** The events of the run of successful fetches that opens `outs`: the
      longest prefix of `outs` made of `Fetched` outcomes. */
  function SuccessPrefix(outs: seq<Outcome>): (events: seq<nat>)
    ensures |events| <= |outs|
    ensures forall k :: 0 <= k < |events| ==> outs[k] == Fetched(events[k])
    ensures |events| < |outs| ==> !outs[|events|].Fetched?
  {
    if outs == [] || !outs[0].Fetched? then []
    else [outs[0].event] + SuccessPrefix(outs[1..])
  }

  /** True when the fetch loop over `outs` stops on `kNO_MORE_EVENTS`. */
  predicate StopsOnNoMore(outs: seq<Outcome>)
  {
    var n := |SuccessPrefix(outs)|;
    n < |outs| && outs[n] == NoMoreEvents
  }

  /** The three facts on `SuccessPrefix`'s contract determine it: any batch
      of successes that stops at the first failure, or at the end, is it. */
  lemma SuccessPrefixUnique(outs: seq<Outcome>, events: seq<nat>)
    requires |events| <= |outs|
    requires forall k :: 0 <= k < |events| ==> outs[k] == Fetched(events[k])
    requires |events| < |outs| ==> !outs[|events|].Fetched?
    ensures SuccessPrefix(outs) == events
  {
  }

  /** `StopsOnNoMore` holds exactly when some `kNO_MORE_EVENTS` outcome is
      preceded only by successes. */
  lemma StopsOnNoMoreIff(outs: seq<Outcome>)
    ensures StopsOnNoMore(outs) <==>
      exists i :: 0 <= i < |outs| && outs[i] == NoMoreEvents &&
        forall j :: 0 <= j < i ==> outs[j].Fetched?
  {
  }

  /** Asking for more events never loses any: the batch for a longer window
      extends the batch for a shorter one, and is the same batch once the
      shorter one already stopped on a failure. */
  lemma {:induction false} SuccessPrefixExtends(outs: seq<Outcome>, more: seq<Outcome>)
    ensures SuccessPrefix(outs) <= SuccessPrefix(outs + more)
    ensures |SuccessPrefix(outs)| < |outs| ==> SuccessPrefix(outs + more) == SuccessPrefix(outs)
  {
    if outs != [] && outs[0].Fetched? {
      assert (outs + more)[1..] == outs[1..] + more;
      SuccessPrefixExtends(outs[1..], more);
    }
  }

  /** The task made for one fetched event, tagged with the source it came
      from and its application. */
  datatype Task = AnalyzeEventTask(event: nat, source: EventSource, application: nat)

  /** One task per event, in order. */
  function TasksFor(events: seq<nat>, source: EventSource, application: nat): (tasks: seq<Task>)
  {
    seq(|events|, k requires 0 <= k < |events| => AnalyzeEventTask(events[k], source, application))
  }

  class EventSource {
    const name: string
    var application: nat
    /** Set once the producer reported `kNO_MORE_EVENTS`; never cleared. */
    var exhausted: bool
    /** The single-fetcher gate (an atomic flag in the engine). */
    var gettingEvent: bool
    var eventsRead: nat
    var tasksCreated: nat
    var minNumEventsToGetAtOnce: nat
    var maxNumEventsToGetAtOnce: nat

    /** The source is not opened here.  The initial batch bounds are given by
        the caller, since their defaults live in a header outside this model. */
    constructor (name: string, application: nat, minAtOnce: nat, maxAtOnce: nat)
      ensures this.name == name && this.application == application
      ensures !exhausted && !gettingEvent && eventsRead == 0 && tasksCreated == 0
      ensures GetNumEventsToGetAtOnce() == (minAtOnce, maxAtOnce)
    {
      this.name := name;
      this.application := application;
      exhausted := false;
      gettingEvent := false;
      eventsRead := 0;
      tasksCreated := 0;
      minNumEventsToGetAtOnce := minAtOnce;
      maxNumEventsToGetAtOnce := maxAtOnce;
    }

    method SetJApplication(app: nat)
      modifies this`application
      ensures application == app
    {
      application := app;
    }

    function IsExhausted(): (b: bool)
      reads this
      ensures b <==> exhausted
    {
      exhausted
    }

    method SetNumEventsToGetAtOnce(aMinNumEvents: nat, aMaxNumEvents: nat)
      modifies this`minNumEventsToGetAtOnce, this`maxNumEventsToGetAtOnce
      ensures GetNumEventsToGetAtOnce() == (aMinNumEvents, aMaxNumEvents)
    {
      minNumEventsToGetAtOnce := aMinNumEvents;
      maxNumEventsToGetAtOnce := aMaxNumEvents;
    }

    /** The batch bounds, minimum first: the pair last given to
        `SetNumEventsToGetAtOnce`, or to the constructor. */
    function GetNumEventsToGetAtOnce(): (bounds: (nat, nat))
      reads this
      ensures bounds.0 == minNumEventsToGetAtOnce && bounds.1 == maxNumEventsToGetAtOnce
    {
      (minNumEventsToGetAtOnce, maxNumEventsToGetAtOnce)
    }

    /** One scheduling turn: fetch up to `aNumTasks` events under the gate and
        turn each into a task.  `fetches` counts the calls made to the
        producer. */
    method GetProcessEventTasks(aNumTasks: nat, getEvent: nat -> Outcome)
      returns (tasks: seq<Task>, ghost fetches: nat)
      modifies this`exhausted, this`gettingEvent, this`eventsRead, this`tasksCreated
      ensures |tasks| <= aNumTasks
      ensures old(exhausted) ==> exhausted
      // Fast path: an exhausted source does nothing at all.
      ensures old(exhausted) ==>
        tasks == [] && fetches == 0 && unchanged(this)
      // Gate already held: no fetch, and the gate stays held.
      ensures !old(exhausted) && old(gettingEvent) ==>
        tasks == [] && fetches == 0 && unchanged(this) && gettingEvent
      // Gate acquired: the batch is the run of successes, and the gate is released.
      ensures !old(exhausted) && !old(gettingEvent) ==>
        var outs := Window(getEvent, aNumTasks);
        var events := SuccessPrefix(outs);
        && tasks == TasksFor(events, this, application)
        && !gettingEvent
        && (exhausted <==> StopsOnNoMore(outs))
        && eventsRead == old(eventsRead) + |events|
        && tasksCreated == old(tasksCreated) + |tasks|
        && fetches == (if |events| < aNumTasks then |events| + 1 else aNumTasks)
    {
      if exhausted {
        return [], 0;
      }
      if gettingEvent {
        // compare-and-set failed: another worker is fetching
        return [], 0;
      }
      gettingEvent := true;

      var events: seq<nat> := [];
      var si := 0;
      fetches := 0;
      while si < aNumTasks
        invariant si <= aNumTasks && |events| == si && fetches == si
        invariant forall k :: 0 <= k < si ==> getEvent(k) == Fetched(events[k])
        invariant !exhausted && gettingEvent
        invariant eventsRead == old(eventsRead) && tasksCreated == old(tasksCreated)
      {
        var outcome := getEvent(si);
        fetches := fetches + 1;
        match outcome {
          case Fetched(e) =>
            events := events + [e];
          case NoMoreEvents =>
            exhausted := true;
            break;
          case _ =>
            // kBUSY, kTRY_AGAIN, any other status, or an unexpected exception
            break;
        }
        si := si + 1;
      }
      gettingEvent := false;

      ghost var outs := Window(getEvent, aNumTasks);
      SuccessPrefixUnique(outs, events);

      eventsRead := eventsRead + |events|;
      tasks := [];
      var i := 0;
      while i < |events|
        invariant i <= |events|
        invariant tasks == TasksFor(events[..i], this, application)
      {
        tasks := tasks + [AnalyzeEventTask(events[i], this, application)];
        i := i + 1;
      }
      assert events[..i] == events;
      tasksCreated := tasksCreated + |tasks|;
    }
  }

  /** Once a source is exhausted, every later turn returns an empty batch and
      the source stays exhausted. */
  method ExhaustedStaysExhausted(source: EventSource, aNumTasks: nat, getEvent: nat -> Outcome)
    returns (tasks: seq<Task>)
    requires source.IsExhausted()
    modifies source
    ensures tasks == [] && source.IsExhausted()
  {
    ghost var fetches;
    tasks, fetches := source.GetProcessEventTasks(aNumTasks, getEvent);
  }
}
