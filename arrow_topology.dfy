/** The lifecycle state machine of an arrow topology
    (src/libraries/JANA/Engine/JArrowTopology.cc).

    The topology owns its arrows; some of them are sources.  Its status moves
    between Running, Pausing, Paused, Draining and Finished, and each
    transition may call `pause`, `run` or `finish` on every arrow or every
    source.  Those calls go to code outside this model, so the topology only
    records them, in order, in a ghost log. */
module ArrowTopology {
  import opened Wrappers

  datatype Status = Running | Pausing | Paused | Draining | Finished

  /** The five lifecycle operations. */
  datatype Command = Run | RequestPause | AchievePause | Drain | Finish

  /** `finish()` is asserted to be called only from Paused. */
  datatype Violation = FinishWhenNotPaused(status: Status)

  type ArrowId = nat

  datatype ArrowAction = PauseArrow | RunArrow | FinishArrow

  /** One call made by the topology on one of its arrows. */
  datatype ArrowCall = ArrowCall(action: ArrowAction, arrow: ArrowId)

  /** `action` called on each of `ids`, in order. */
  function Broadcast(action: ArrowAction, ids: seq<ArrowId>): (calls: seq<ArrowCall>)
  {
    if ids == [] then []
    else Broadcast(action, ids[..|ids| - 1]) + [ArrowCall(action, ids[|ids| - 1])]
  }

  /** The status after one command, for a topology with `sourceCount`
      sources; a protocol violation for `finish()` outside Paused. */
  function Next(s: Status, c: Command, sourceCount: nat): (r: Result<Status, Violation>)
    ensures r.Err? <==> c == Finish && s != Paused && s != Finished
    ensures s == Finished ==> r == Ok(Finished)
    ensures c == Run ==> (r == Ok(Running) <==> s != Finished)
    ensures c == RequestPause ==> (r == Ok(Pausing) <==> s == Running || s == Pausing)
    ensures c == AchievePause ==> (r == Ok(Paused) <==> s != Finished)
    ensures c == Drain ==> (r == Ok(Draining) <==> s == Draining || (s != Finished && sourceCount > 0))
    ensures c == Finish && r.Ok? ==> r.value == Finished
  {
    match c
    case Run => Ok(if s == Running || s == Finished then s else Running)
    case RequestPause => Ok(if s == Running then Pausing else s)
    case AchievePause => Ok(if s == Running || s == Pausing || s == Draining then Paused else s)
    // the status is set inside the loop over the sources
    case Drain => Ok(if s == Finished || sourceCount == 0 then s else Draining)
    case Finish => if s == Paused || s == Finished then Ok(Finished) else Err(FinishWhenNotPaused(s))
  }

  /** The arrow calls one command makes. */
  function Effects(s: Status, c: Command, arrows: seq<ArrowId>, sources: seq<ArrowId>): (calls: seq<ArrowCall>)
    ensures s == Finished ==> calls == []
    ensures c == AchievePause ==> calls == []
  {
    match c
    case Run => if s == Running || s == Finished then [] else Broadcast(RunArrow, sources)
    case RequestPause => if s == Running then Broadcast(PauseArrow, arrows) else []
    case AchievePause => []
    case Drain => if s == Finished then [] else Broadcast(PauseArrow, sources)
    case Finish => if s == Finished then [] else Broadcast(FinishArrow, arrows)
  }

  /** The status after a sequence of commands, or the first violation. */
  function Replay(s: Status, cmds: seq<Command>, sourceCount: nat): Result<Status, Violation>
    decreases |cmds|
  {
    if cmds == [] then Ok(s)
    else match Next(s, cmds[0], sourceCount)
      case Err(v) => Err(v)
      case Ok(s') => Replay(s', cmds[1..], sourceCount)
  }

  /** The arrow calls a sequence of commands makes, up to the first violation. */
  function ReplayEffects(s: Status, cmds: seq<Command>, arrows: seq<ArrowId>, sources: seq<ArrowId>): seq<ArrowCall>
    decreases |cmds|
  {
    if cmds == [] then []
    else match Next(s, cmds[0], |sources|)
      case Err(_) => []
      case Ok(s') => Effects(s, cmds[0], arrows, sources) + ReplayEffects(s', cmds[1..], arrows, sources)
  }

  /** Each call in `Broadcast(action, ids)` is `action` on the arrow at the
      same position: one call per arrow, in order. */
  lemma {:induction false} BroadcastAt(action: ArrowAction, ids: seq<ArrowId>)
    ensures |Broadcast(action, ids)| == |ids|
    ensures forall k :: 0 <= k < |ids| ==> Broadcast(action, ids)[k] == ArrowCall(action, ids[k])
  {
    if ids != [] {
      BroadcastAt(action, ids[..|ids| - 1]);
    }
  }

  /** Finished is absorbing and silent: no sequence of commands leaves it,
      none is rejected, and none touches an arrow. */
  lemma {:induction false} FinishedAbsorbing(cmds: seq<Command>, arrows: seq<ArrowId>, sources: seq<ArrowId>)
    ensures Replay(Finished, cmds, |sources|) == Ok(Finished)
    ensures ReplayEffects(Finished, cmds, arrows, sources) == []
  {
    if cmds != [] {
      FinishedAbsorbing(cmds[1..], arrows, sources);
    }
  }

  /** A topology without sources never enters Draining: `drain()` sets the
      status only inside its loop over the sources. */
  lemma {:induction false} NoSourcesNeverDrains(s: Status, cmds: seq<Command>)
    requires s != Draining
    ensures Replay(s, cmds, 0) != Ok(Draining)
    decreases |cmds|
  {
    if cmds != [] {
      var r := Next(s, cmds[0], 0);
      if r.Ok? {
        NoSourcesNeverDrains(r.value, cmds[1..]);
      }
    }
  }

  /** Finished is reached only through `finish()`. */
  lemma {:induction false} FinishedNeedsFinish(s: Status, cmds: seq<Command>, sourceCount: nat)
    requires s != Finished
    requires Replay(s, cmds, sourceCount) == Ok(Finished)
    ensures Finish in cmds
    decreases |cmds|
  {
    if cmds != [] && cmds[0] != Finish {
      var s' := Next(s, cmds[0], sourceCount).value;
      FinishedNeedsFinish(s', cmds[1..], sourceCount);
      assert cmds == [cmds[0]] + cmds[1..];
    }
  }

  /** `finish()` is idempotent: a second call changes nothing and calls no arrow. */
  lemma FinishIdempotent(s: Status, arrows: seq<ArrowId>, sources: seq<ArrowId>)
    requires Next(s, Finish, |sources|).Ok?
    ensures Replay(s, [Finish, Finish], |sources|) == Replay(s, [Finish], |sources|) == Ok(Finished)
    ensures ReplayEffects(s, [Finish, Finish], arrows, sources) == ReplayEffects(s, [Finish], arrows, sources)
  {
    assert [Finish, Finish][1..] == [Finish];
  }

  class Topology {
    const arrows: seq<ArrowId>
    const sources: seq<ArrowId>
    var status: Status
    /** Every call made on an arrow so far, in order. */
    ghost var calls: seq<ArrowCall>

    /** The initial status is a parameter: its default is set in a header
        outside this model. */
    constructor (arrows: seq<ArrowId>, sources: seq<ArrowId>, initial: Status)
      ensures this.arrows == arrows && this.sources == sources
      ensures status == initial && calls == []
    {
      this.arrows := arrows;
      this.sources := sources;
      status := initial;
      calls := [];
    }

    /** Calls `pause` on every source and, if there is at least one source,
        moves to Draining; from Finished it does nothing. */
    method Drain()
      modifies this
      ensures Ok(status) == Next(old(status), Command.Drain, |sources|)
      ensures calls == old(calls) + Effects(old(status), Command.Drain, arrows, sources)
    {
      if status == Finished {
        return;
      }
      var i := 0;
      while i < |sources|
        invariant i <= |sources|
        invariant status == if i == 0 then old(status) else Draining
        invariant calls == old(calls) + Broadcast(PauseArrow, sources[..i])
      {
        PauseArrowCall(sources[i]);
        status := Draining;
        assert sources[..i + 1][..i] == sources[..i];
        i := i + 1;
      }
      assert sources[..i] == sources;
    }

    /** From Running or Finished does nothing; otherwise calls `run` on every
        source and moves to Running.  Starting the metrics is not modelled. */
    method Run(nthreads: int)
      modifies this
      ensures Ok(status) == Next(old(status), Command.Run, |sources|)
      ensures calls == old(calls) + Effects(old(status), Command.Run, arrows, sources)
    {
      if status == Running || status == Finished {
        return;
      }
      var i := 0;
      while i < |sources|
        invariant i <= |sources| && status == old(status)
        invariant calls == old(calls) + Broadcast(RunArrow, sources[..i])
      {
        RunArrowCall(sources[i]);
        assert sources[..i + 1][..i] == sources[..i];
        i := i + 1;
      }
      assert sources[..i] == sources;
      status := Running;
    }

    /** From Running calls `pause` on every arrow and moves to Pausing;
        otherwise does nothing. */
    method RequestPause()
      modifies this
      ensures Ok(status) == Next(old(status), Command.RequestPause, |sources|)
      ensures calls == old(calls) + Effects(old(status), Command.RequestPause, arrows, sources)
    {
      if status == Running {
        var i := 0;
        while i < |arrows|
          invariant i <= |arrows| && status == old(status)
          invariant calls == old(calls) + Broadcast(PauseArrow, arrows[..i])
        {
          PauseArrowCall(arrows[i]);
          assert arrows[..i + 1][..i] == arrows[..i];
          i := i + 1;
        }
        assert arrows[..i] == arrows;
        status := Pausing;
      }
    }

    /** Moves Running, Pausing and Draining to Paused; called once no worker
        holds an assignment.  Stopping the metrics is not modelled. */
    method AchievePause()
      modifies this
      ensures Ok(status) == Next(old(status), Command.AchievePause, |sources|)
      ensures calls == old(calls)
    {
      if status == Running || status == Pausing || status == Draining {
        status := Paused;
      }
    }

    /** Calls `finish` on every arrow and moves to Finished; a second call
        does nothing.  Calling it outside Paused is a programming error. */
    method Finish()
      requires status == Paused || status == Finished
      modifies this
      ensures Ok(status) == Next(old(status), Command.Finish, |sources|)
      ensures calls == old(calls) + Effects(old(status), Command.Finish, arrows, sources)
    {
      if status == Finished {
        return;
      }
      var i := 0;
      while i < |arrows|
        invariant i <= |arrows| && status == old(status)
        invariant calls == old(calls) + Broadcast(FinishArrow, arrows[..i])
      {
        FinishArrowCall(arrows[i]);
        assert arrows[..i + 1][..i] == arrows[..i];
        i := i + 1;
      }
      assert arrows[..i] == arrows;
      status := Finished;
    }

    /** The arrow's own `pause()`, `run()` and `finish()` are outside this
        model; these record the call. */
    method PauseArrowCall(a: ArrowId)
      modifies this`calls
      ensures calls == old(calls) + [ArrowCall(PauseArrow, a)]
    {
      calls := calls + [ArrowCall(PauseArrow, a)];
    }

    method RunArrowCall(a: ArrowId)
      modifies this`calls
      ensures calls == old(calls) + [ArrowCall(RunArrow, a)]
    {
      calls := calls + [ArrowCall(RunArrow, a)];
    }

    method FinishArrowCall(a: ArrowId)
      modifies this`calls
      ensures calls == old(calls) + [ArrowCall(FinishArrow, a)]
    {
      calls := calls + [ArrowCall(FinishArrow, a)];
    }
  }

  /** Orderly shutdown of a running topology with one source: `drain()`,
      then `achieve_pause()`, then `finish()` reaches Finished, pausing the
      source once and finishing every arrow once. */
  method DrainThenFinish(source: ArrowId, sink: ArrowId) returns (t: Topology)
    ensures t.status == Finished
    ensures t.calls == [ArrowCall(PauseArrow, source), ArrowCall(FinishArrow, source), ArrowCall(FinishArrow, sink)]
  {
    t := new Topology([source, sink], [source], Running);
    assert [source, sink][..1] == [source] && [source][..0] == [];
    assert Broadcast(PauseArrow, [source]) == [ArrowCall(PauseArrow, source)];
    assert Broadcast(FinishArrow, [source]) == [ArrowCall(FinishArrow, source)];
    assert Broadcast(FinishArrow, [source, sink]) == [ArrowCall(FinishArrow, source), ArrowCall(FinishArrow, sink)];
    t.Drain();
    t.AchievePause();
    t.Finish();
  }
}
