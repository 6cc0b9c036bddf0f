/**
 * The step-by-step runner (`Runner`): the same loop as `Agent.Run`, with its
 * state kept in an object, where a failed snapshot or decision only costs
 * the step and the run goes on. A run ends when Ctrl+C is seen before a
 * step, when the model finishes, or when the step limit is reached.
 *
 * The world outside is `Agent.World`; what a step does is `Agent.StepEvent`,
 * the rule the single-agent loop also follows.
 */
module Runner {
  import opened Base
  import opened Text
  import opened LlmTypes
  import opened LoopGuard
  import Memory
  import opened Snapshot
  import opened AgentActions
  import opened Agent

  const ErrInterrupted: string := "execution interrupted"
  const ErrMaxSteps: string := "max steps reached"
  const ErrSnapshotFail: string := "snapshot error"
  const ErrLLMFail: string := "llm error"

  /** The part of the last snapshot the runner keeps. */
  datatype SnapshotWrapper = SnapshotWrapper(tree: string, url: string)

  /** The error `executeStep` returns for what the step did. */
  function StepError(e: Event): (r: Option<string>)
    ensures r.Some? <==> e.SnapshotFailed? || e.DecisionFailed?
  {
    if e.SnapshotFailed? then Some(ErrSnapshotFail)
    else if e.DecisionFailed? then Some(ErrLLMFail)
    else None
  }

  class Runner {
    const maxSteps: int
    const mem: Memory.StepMemory
    var prevSnap: Option<SnapshotWrapper>

    ghost predicate Valid()
      reads this, mem
    {
      mem.Valid() && mem.loopThreshold == RunThreshold
    }

    /** `NewRunner`: a fresh memory of 10 lines with a repeat threshold of 3. */
    constructor (maxSteps: int)
      ensures Valid() && fresh(mem)
      ensures this.maxSteps == maxSteps && mem.keys == [] && prevSnap == None
      ensures mem.maxLines == HistoryWindow && mem.lines == [] && mem.fullLines == [] && !mem.loopTriggered
    {
      this.maxSteps := maxSteps;
      mem := new Memory.StepMemory(HistoryWindow, RunThreshold);
      prevSnap := None;
    }

    /**
     * `executeStep`: whether the model finished, and the step's error. `ev`
     * is what the step did: the memory records the action when it ran
     * without error, and the snapshot is kept whenever an action was attempted.
     */
    method ExecuteStep(w: World, step: int) returns (finished: bool, err: Option<string>, ghost ev: Event)
      requires Valid()
      modifies this, mem
      ensures Valid()
      ensures ev == StepEvent(w, step, old(mem.keys))
      ensures finished == ev.Finished? && err == StepError(ev) && !ev.Stopped?
      ensures mem.keys == old(mem.keys) + (if ev.Executed? && ev.err.None? then [ev.key] else [])
      ensures mem.loopTriggered == (old(mem.loopTriggered) || ev.Blocked?)
      ensures ev.Executed? ==> prevSnap == Some(SnapshotWrapper(w.snapshot(step).value.tree, w.snapshot(step).value.url))
      ensures !ev.Executed? ==> prevSnap == old(prevSnap)
    {
      var snapshot := w.snapshot(step);
      if snapshot.Err? {
        return false, Some(ErrSnapshotFail), SnapshotFailed(snapshot.msg);
      }
      finished, err, ev := Observe(w, step, snapshot.value);
    }

    /**
     * The part of `executeStep` after a snapshot `snap` was taken: note when
     * the page did not change, ask for a decision and act on it.
     */
    method Observe(w: World, step: int, snap: PageSnapshot) returns (finished: bool, err: Option<string>, ghost ev: Event)
      requires Valid()
      modifies this, mem
      ensures Valid()
      ensures ev == (if w.decide(step).Err? then DecisionFailed(w.decide(step).msg)
                     else Decided(w, step, snap, w.decide(step).value.action, old(mem.keys)))
      ensures finished == ev.Finished? && err == StepError(ev) && !ev.Stopped? && !ev.SnapshotFailed?
      ensures mem.keys == old(mem.keys) + (if ev.Executed? && ev.err.None? then [ev.key] else [])
      ensures mem.loopTriggered == (old(mem.loopTriggered) || ev.Blocked?)
      ensures ev.Executed? ==> prevSnap == Some(SnapshotWrapper(snap.tree, snap.url))
      ensures !ev.Executed? ==> prevSnap == old(prevSnap)
    {
      if prevSnap.Some? && snap.tree == prevSnap.value.tree {
        mem.AddSystemNote(NoEffectNote);
      }
      var decision := w.decide(step);
      if decision.Err? {
        return false, Some(ErrLLMFail), DecisionFailed(decision.msg);
      }
      finished, ev := Proceed(w, step, snap, decision.value);
      err := None;
    }

    /** The rest of `executeStep` once the step has a decision `d` on snapshot `snap`. */
    method Proceed(w: World, step: int, snap: PageSnapshot, d: Decision) returns (finished: bool, ghost ev: Event)
      requires Valid()
      modifies this, mem
      ensures Valid()
      ensures ev == Decided(w, step, snap, d.action, old(mem.keys))
      ensures finished == ev.Finished? && !ev.SnapshotFailed? && !ev.DecisionFailed? && !ev.Stopped?
      ensures mem.keys == old(mem.keys) + (if ev.Executed? && ev.err.None? then [ev.key] else [])
      ensures mem.loopTriggered == (old(mem.loopTriggered) || ev.Blocked?)
      ensures ev.Executed? ==> prevSnap == Some(SnapshotWrapper(snap.tree, snap.url))
      ensures !ev.Executed? ==> prevSnap == old(prevSnap)
    {
      var key := MakeKey(snap.url, d.action);
      var blocked, reason := mem.ShouldBlock(snap.url, d.action);
      if blocked {
        mem.MarkLoopTriggered();
        return false, Blocked(key);
      }
      if d.action.kind == Finish {
        return true, Finished;
      }
      var err := Perform(w, step, snap, d);
      finished, ev := false, Executed(key, err);
    }

    /**
     * Carries out an action the guard allowed and keeps the snapshot: a
     * failure leaves a note for the model; a success is recorded, with a note
     * of the phase (in capitals) and the observation.
     */
    method Perform(w: World, step: int, snap: PageSnapshot, d: Decision) returns (err: Option<string>)
      requires Valid()
      modifies this, mem
      ensures Valid()
      ensures err == ActionError(w, step, snap, d.action)
      ensures mem.keys == old(mem.keys) + (if err.None? then [MakeKey(snap.url, d.action)] else [])
      ensures mem.loopTriggered == old(mem.loopTriggered)
      ensures prevSnap == Some(SnapshotWrapper(snap.tree, snap.url))
    {
      var gate, asked;
      err, gate, asked := ExecuteAction(d.action, snap.elements, w.tty(step), w.scroll(step), w.perform(step));
      if err.Some? {
        NoteFailure(err.value);
      } else {
        Remember(step, snap.url, d);
      }
      prevSnap := Some(SnapshotWrapper(snap.tree, snap.url));
    }

    /** Leaves the model a note of why the action failed. */
    method NoteFailure(msg: string)
      requires Valid()
      modifies mem
      ensures Valid() && mem.keys == old(mem.keys) && mem.loopTriggered == old(mem.loopTriggered)
    {
      mem.AddSystemNote(ErrorNotePrefix + msg);
    }

    /** Records a successful action, then notes the phase (in capitals) and the observation. */
    method Remember(step: int, url: string, d: Decision)
      requires Valid()
      modifies mem
      ensures Valid() && mem.keys == old(mem.keys) + [MakeKey(url, d.action)]
      ensures mem.loopTriggered == old(mem.loopTriggered)
    {
      mem.Add(step, url, d.action);
      mem.AddSystemNote(StateNotePrefix + ToUpper(d.currentPhase) + StateNoteSep + d.observation);
    }

    /**
     * One step of `Runner.Run` once Ctrl+C was not seen: the event `e` the
     * step rule gives after `events`, which the memory then records.
     */
    method Next(w: World, step: int, ghost prior: seq<ActionKey>, ghost events: seq<Event>)
      returns (finished: bool, ghost e: Event)
      requires Valid() && mem.keys == prior + Recorded(events)
      requires FollowsRule(RuleAfter(w, prior), events) && step == |events| + 1 && !w.interrupt(step)
      modifies this, mem
      ensures Valid() && mem.keys == prior + Recorded(events + [e])
      ensures mem.loopTriggered == (old(mem.loopTriggered) || e.Blocked?)
      ensures FollowsRule(RuleAfter(w, prior), events + [e])
      ensures finished == e.Finished? && !e.Stopped?
    {
      RuleAfterAt(w, prior, step, Recorded(events));
      ghost var before := mem.keys;
      var stepErr;
      finished, stepErr, e := ExecuteStep(w, step);
      FollowsAppend(RuleAfter(w, prior), events, e);
      ghost var added := if e.Executed? && e.err.None? then [e.key] else [];
      assert mem.keys == before + added;
      assert prior + (Recorded(events) + added) == (prior + Recorded(events)) + added;
    }

    /** Ctrl+C seen before step `|events| + 1`: the trace ends with `Stopped` and records nothing more. */
    static lemma StopAppend(w: World, prior: seq<ActionKey>, events: seq<Event>)
      requires FollowsRule(RuleAfter(w, prior), events) && w.interrupt(|events| + 1)
      ensures FollowsRule(RuleAfter(w, prior), events + [Stopped])
      ensures Recorded(events + [Stopped]) == Recorded(events)
      ensures AnyBlocked(events + [Stopped]) == AnyBlocked(events)
    {
      RuleAfterAt(w, prior, |events| + 1, Recorded(events));
      FollowsAppend(RuleAfter(w, prior), events, Stopped);
      AnyBlockedAppend(events, Stopped);
    }

    /**
     * `Runner.Run`: the trace follows `EventAt` step by step, given the keys
     * the memory held before, and only Ctrl+C or a finish ends the run before
     * `maxSteps` steps; step errors do not.
     */
    method Run(w: World) returns (err: Option<string>, ghost events: seq<Event>)
      requires Valid()
      modifies this, mem
      ensures Valid()
      ensures FollowsRule(RuleAfter(w, old(mem.keys)), events)
      ensures mem.keys == old(mem.keys) + Recorded(events)
      ensures mem.loopTriggered == (old(mem.loopTriggered) || AnyBlocked(events))
      ensures |events| <= (if maxSteps < 0 then 0 else maxSteps)
      ensures forall i :: 0 <= i < |events| - 1 ==> !events[i].Stopped? && !events[i].Finished?
      ensures events != [] && events[|events| - 1].Stopped? ==> err == Some(ErrInterrupted)
      ensures events != [] && events[|events| - 1].Finished? ==> err == None
      ensures !(events != [] && (events[|events| - 1].Stopped? || events[|events| - 1].Finished?)) ==>
        err == Some(ErrMaxSteps) && |events| == (if maxSteps < 0 then 0 else maxSteps)
    {
      ghost var prior, flagged := mem.keys, mem.loopTriggered;
      ghost var rule := RuleAfter(w, prior);
      events := [];
      var step := 1;
      while step <= maxSteps
        invariant 1 <= step && |events| == step - 1
        invariant step <= (if maxSteps < 1 then 1 else maxSteps + 1)
        invariant Valid()
        invariant mem.keys == prior + Recorded(events)
        invariant mem.loopTriggered == (flagged || AnyBlocked(events))
        invariant FollowsRule(rule, events)
        invariant forall i :: 0 <= i < |events| ==> !events[i].Stopped? && !events[i].Finished?
      {
        if w.interrupt(step) {
          StopAppend(w, prior, events);
          events := events + [Stopped];
          return Some(ErrInterrupted), events;
        }
        var finished, e := Next(w, step, prior, events);
        AnyBlockedAppend(events, e);
        events := events + [e];
        if finished {
          return None, events;
        }
        step := step + 1;
      }
      err := Some(ErrMaxSteps);
    }
  }
}
