/**
 * The plan-driven orchestrator (`Orchestrator.Run`): the planner's steps are
 * worked through with a cursor. Each browser step picks a sub-agent for the
 * current plan step (interaction when a dialog is open over a navigation
 * step), runs its proposal past the shared loop guard, and executes it. The
 * cursor moves on when a sub-agent reports its plan step done after a
 * successful action, or when the guard has blocked two actions of the same
 * plan step. Running out of plan steps is success.
 *
 * The browser and the sub-agents are oracles indexed by the step number;
 * `Turn` is what one step does and `Outcome` what the whole run returns.
 */
module Orchestrator {
  import opened Base
  import opened Text
  import opened LlmTypes
  import opened LoopGuard
  import Memory
  import opened Snapshot
  import opened Planner
  import Agent

  /** The two markers of an open dialog in a snapshot tree. */
  const DialogAttribute: string := "context=\"dialog\""
  const DialogBanner: string := "=== ACTIVE DIALOG ==="

  const PlanErrorPrefix: string := "build plan failed: "
  const StepErrorInfix: string := " step error: "
  const MaxStepsError: string := "max steps reached"
  const ScrollErrorPrefix: string := "scroll failed: "
  const UnknownTypePrefix: string := "unknown action type: "
  const SkipNoteHead: string := "SYSTEM NOTE: Several actions for plan step "
  const SkipNoteTail: string := " were blocked as loops. Treat this plan step as completed or not actionable and move on."

  /** How many blocked actions make the orchestrator give up on a plan step. */
  const BlocksToSkip: int := 2

  datatype SubAgent = Navigator | Interaction

  function Name(a: SubAgent): string
  {
    match a
    case Navigator => "NavigatorAgent"
    case Interaction => "InteractionAgent"
  }

  /** The snapshot tree shows an open dialog. */
  predicate HasDialog(tree: string)
  {
    Contains(tree, DialogAttribute) || Contains(tree, DialogBanner)
  }

  /** The mode used for one iteration: an open dialog turns navigation into interaction. */
  function EffectiveMode(mode: string, tree: string): (r: string)
    ensures r == ModeInteraction <==> mode == ModeInteraction || (mode == ModeNavigation && HasDialog(tree))
    ensures r != mode ==> mode == ModeNavigation && r == ModeInteraction && HasDialog(tree)
  {
    if HasDialog(tree) && mode == ModeNavigation then ModeInteraction else mode
  }

  /** Interaction mode gets the interaction sub-agent; every other mode the navigator. */
  function SubAgentFor(mode: string): (a: SubAgent)
    ensures a == Interaction <==> mode == ModeInteraction
  {
    if mode == ModeInteraction then Interaction else Navigator
  }

  /** Under a dialog every plan step of a known mode is handled by the interaction sub-agent. */
  lemma DialogSelectsInteraction(mode: string, tree: string)
    requires KnownMode(mode) && HasDialog(tree)
    ensures SubAgentFor(EffectiveMode(mode, tree)) == Interaction
  {
  }

  /** Without a dialog the plan step's own mode decides. */
  lemma NoDialogKeepsMode(mode: string, tree: string)
    requires !HasDialog(tree)
    ensures EffectiveMode(mode, tree) == mode
  {
  }

  /** What a sub-agent proposes: the action, its reasoning, and whether the plan step is done. */
  datatype SubStep = SubStep(action: Action, thought: string, stepDone: bool)

  /** The error each browser call would give; `None` when it succeeds. */
  datatype BrowserCalls = BrowserCalls(
    scrollIntoView: Option<string>,
    click: Option<string>,
    fill: Option<string>,
    press: Option<string>,
    goto: Option<string>)

  /**
   * `executeAction`: click scrolls the target into view and clicks it; type
   * fills the field and presses Enter when asked to submit; navigate goes to
   * the target; finish does nothing; any other type is an error.
   */
  function Dispatch(action: Action, calls: BrowserCalls): (err: Option<string>)
    ensures action.kind == Click ==>
      (err.None? <==> calls.scrollIntoView.None? && calls.click.None?)
    ensures action.kind == Click && calls.scrollIntoView.Some? ==>
      err == Some(ScrollErrorPrefix + calls.scrollIntoView.value)
    ensures action.kind == TypeInput ==>
      (err.None? <==> calls.fill.None? && (!action.submit || calls.press.None?))
    ensures action.kind == Navigate ==> err == calls.goto
    ensures action.kind == Finish ==> err.None?
    ensures action.kind !in {Click, TypeInput, Navigate, Finish} ==>
      err == Some(UnknownTypePrefix + action.kind)
  {
    if action.kind == Click then
      if calls.scrollIntoView.Some? then Some(ScrollErrorPrefix + calls.scrollIntoView.value)
      else calls.click
    else if action.kind == TypeInput then
      if calls.fill.Some? then calls.fill
      else if action.submit then calls.press
      else None
    else if action.kind == Navigate then calls.goto
    else if action.kind == Finish then None
    else Some(UnknownTypePrefix + action.kind)
  }

  /** Only the four known types can succeed, and the orchestrator cannot scroll. */
  lemma DispatchKnownTypes(action: Action, calls: BrowserCalls)
    ensures Dispatch(action, calls).None? ==> action.kind in {Click, TypeInput, Navigate, Finish}
    ensures action.kind == Scroll ==> Dispatch(action, calls) == Some(UnknownTypePrefix + Scroll)
  {
  }

  /** A call the action does not make has no say in the result. */
  lemma DispatchUsesOwnCalls(action: Action, c1: BrowserCalls, c2: BrowserCalls)
    requires action.kind == Click ==> c1.scrollIntoView == c2.scrollIntoView && c1.click == c2.click
    requires action.kind == TypeInput ==> c1.fill == c2.fill && (action.submit ==> c1.press == c2.press)
    requires action.kind == Navigate ==> c1.goto == c2.goto
    ensures Dispatch(action, c1) == Dispatch(action, c2)
  {
  }

  /** The outside world of a run, step by step. */
  datatype World = World(
    snapshot: int -> Result<PageSnapshot>,
    subStep: (int, SubAgent) -> Result<SubStep>,
    browser: int -> BrowserCalls)

  /** The loop's state: plan cursor, blocked actions per plan step, and the keys the memory recorded. */
  datatype Progress = Progress(cursor: nat, blocks: map<int, int>, keys: seq<ActionKey>)

  /** What one step does: go on from a new state, or end the run with an error or success. */
  datatype Turn = Continue(next: Progress) | Stop(err: Option<string>)

  /** `loopBlocksPerStep[c]`, zero when absent. */
  function BlockCount(blocks: map<int, int>, c: int): int
  {
    if c in blocks then blocks[c] else 0
  }

  /** The state every reachable step starts from. */
  ghost predicate Sound(plan: seq<PlanStep>, p: Progress)
  {
    && p.cursor <= |plan|
    && (forall a, b :: PairCount(p.keys, a, b) <= 1)
    && (forall i :: 0 <= i < |p.keys| ==> p.keys[i].kind != Finish)
  }

  function Start(): Progress
  {
    Progress(0, map[], [])
  }

  /** The sub-agent asked at step `s` on `snap` while plan step `p.cursor` is current. */
  function Chosen(plan: seq<PlanStep>, snap: PageSnapshot, p: Progress): SubAgent
    requires p.cursor < |plan|
  {
    SubAgentFor(EffectiveMode(plan[p.cursor].mode, snap.tree))
  }

  /** One iteration of the loop at step `s`. */
  function TurnAt(w: World, plan: seq<PlanStep>, s: int, p: Progress): Turn
  {
    if w.snapshot(s).Err? then Stop(Some(Agent.SnapshotErrorPrefix + w.snapshot(s).msg))
    else if p.cursor >= |plan| then Stop(None)
    else
      var agent := Chosen(plan, w.snapshot(s).value, p);
      if w.subStep(s, agent).Err? then Stop(Some(Name(agent) + StepErrorInfix + w.subStep(s, agent).msg))
      else Respond(w, plan, s, w.snapshot(s).value, w.subStep(s, agent).value, p)
  }

  /** The guard, finish and execution part of an iteration, once a sub-agent proposed `sub`. */
  function Respond(w: World, plan: seq<PlanStep>, s: int, snap: PageSnapshot, sub: SubStep, p: Progress): Turn
  {
    var key := MakeKey(snap.url, sub.action);
    if BlockedAfter(p.keys, key, Agent.RunThreshold) then
      Skip(plan, p)
    else if sub.action.kind == Finish then Stop(None)
    else if Dispatch(sub.action, w.browser(s)).Some? then Continue(p)
    else Continue(Progress(if sub.stepDone then p.cursor + 1 else p.cursor, p.blocks, p.keys + [key]))
  }

  /** A blocked action: count it against the plan step, and give up on the step at the second one. */
  function Skip(plan: seq<PlanStep>, p: Progress): (t: Turn)
    ensures t.Continue? ==>
      && t.next.keys == p.keys
      && BlockCount(t.next.blocks, p.cursor) == BlockCount(p.blocks, p.cursor) + 1
      && (forall c :: c != p.cursor ==> BlockCount(t.next.blocks, c) == BlockCount(p.blocks, c))
    ensures BlockCount(p.blocks, p.cursor) + 1 < BlocksToSkip <==> t.Continue? && t.next.cursor == p.cursor
    ensures BlockCount(p.blocks, p.cursor) + 1 >= BlocksToSkip ==>
      if p.cursor + 1 >= |plan| then t == Stop(None) else t.Continue? && t.next.cursor == p.cursor + 1
  {
    var count := BlockCount(p.blocks, p.cursor) + 1;
    var blocks := p.blocks[p.cursor := count];
    if count >= BlocksToSkip then
      if p.cursor + 1 >= |plan| then Stop(None) else Continue(Progress(p.cursor + 1, blocks, p.keys))
    else Continue(Progress(p.cursor, blocks, p.keys))
  }

  /** What a run returns from step `s` on, in state `p`. */
  function Outcome(w: World, plan: seq<PlanStep>, s: int, maxSteps: int, p: Progress): Option<string>
    decreases if s <= maxSteps then maxSteps + 1 - s else 0
  {
    if s > maxSteps then Some(MaxStepsError)
    else
      var t := TurnAt(w, plan, s, p);
      if t.Stop? then t.err
      else Outcome(w, plan, s + 1, maxSteps, t.next)
  }

  /** What `Orchestrator.Run` returns for the planner's result `planned`. */
  function RunOutcome(planned: Result<seq<PlanStep>>, w: World, maxSteps: int): Option<string>
  {
    if planned.Err? then Some(PlanErrorPrefix + planned.msg)
    else Outcome(w, planned.value, 1, maxSteps, Start())
  }

  /**
   * Every iteration keeps the state sound; the cursor never moves back and
   * moves at most one plan step; the memory gains at most the one key of the
   * action executed; and block counts of other plan steps stay as they were.
   */
  lemma TurnKeepsSound(w: World, plan: seq<PlanStep>, s: int, p: Progress)
    requires Sound(plan, p)
    ensures var t := TurnAt(w, plan, s, p);
      t.Continue? ==>
        && Sound(plan, t.next)
        && p.cursor <= t.next.cursor <= p.cursor + 1
        && (t.next.keys == p.keys || (|t.next.keys| == |p.keys| + 1 && t.next.keys[..|p.keys|] == p.keys))
        && (forall c :: c != p.cursor ==> BlockCount(t.next.blocks, c) == BlockCount(p.blocks, c))
  {
    var t := TurnAt(w, plan, s, p);
    if t.Continue? && t.next.keys != p.keys {
      var snap := w.snapshot(s).value;
      var sub := w.subStep(s, Chosen(plan, snap, p)).value;
      var key := MakeKey(snap.url, sub.action);
      assert t == Respond(w, plan, s, snap, sub, p);
      assert !BlockedAfter(p.keys, key, Agent.RunThreshold) && key.kind != Finish;
      assert t.next.keys == p.keys + [key];
      Agent.AllowedKeepsUnique(p.keys, key);
    }
  }

  /** A failed execution leaves cursor, block counts and memory as they were. */
  lemma FailedExecutionKeepsProgress(w: World, plan: seq<PlanStep>, s: int, snap: PageSnapshot, sub: SubStep, p: Progress)
    requires !BlockedAfter(p.keys, MakeKey(snap.url, sub.action), Agent.RunThreshold)
    requires Dispatch(sub.action, w.browser(s)).Some?
    ensures Respond(w, plan, s, snap, sub, p) == Continue(p)
  {
  }

  /** A finish the guard lets through ends the run with success and executes nothing. */
  lemma FinishSucceeds(w: World, plan: seq<PlanStep>, s: int, snap: PageSnapshot, sub: SubStep, p: Progress)
    requires forall i :: 0 <= i < |p.keys| ==> p.keys[i].kind != Finish
    requires sub.action.kind == Finish
    ensures Respond(w, plan, s, snap, sub, p) == Stop(None)
  {
    FinishNeverBlocked(p.keys, MakeKey(snap.url, sub.action), Agent.RunThreshold);
  }

  /** Once the cursor is past the plan, the next step with a snapshot succeeds. */
  lemma ExhaustedPlanSucceeds(w: World, plan: seq<PlanStep>, s: int, maxSteps: int, p: Progress)
    requires Sound(plan, p) && p.cursor == |plan|
    requires s <= maxSteps && w.snapshot(s).Ok?
    ensures Outcome(w, plan, s, maxSteps, p) == None
  {
  }

  /** Step `t` can end a run with `r`: its snapshot failed, or the sub-agent asked at it failed. */
  ghost predicate FailsAt(w: World, t: int, r: Option<string>)
  {
    || (w.snapshot(t).Err? && r == Some(Agent.SnapshotErrorPrefix + w.snapshot(t).msg))
    || SubAgentFails(w, t, Navigator, r)
    || SubAgentFails(w, t, Interaction, r)
  }

  /** The sub-agent `a` asked at step `t` failed, and `r` carries its error. */
  ghost predicate SubAgentFails(w: World, t: int, a: SubAgent, r: Option<string>)
  {
    w.subStep(t, a).Err? && r == Some(Name(a) + StepErrorInfix + w.subStep(t, a).msg)
  }

  /** How a run from step `s` may end: success, "max steps reached", or the failure of one of its steps. */
  ghost predicate Concludes(w: World, s: int, maxSteps: int, r: Option<string>)
  {
    r.None? || r == Some(MaxStepsError) || exists t :: s <= t <= maxSteps && FailsAt(w, t, r)
  }

  /**
   * Every run ends in success, in "max steps reached", or in the error of a
   * snapshot or a sub-agent at one of its steps.
   */
  lemma {:induction false} OutcomeForms(w: World, plan: seq<PlanStep>, s: int, maxSteps: int, p: Progress)
    ensures Concludes(w, s, maxSteps, Outcome(w, plan, s, maxSteps, p))
    decreases if s <= maxSteps then maxSteps + 1 - s else 0
  {
    if s <= maxSteps {
      var t := TurnAt(w, plan, s, p);
      if t.Continue? {
        OutcomeForms(w, plan, s + 1, maxSteps, t.next);
        ContinueForms(w, plan, s, maxSteps, p);
      } else {
        StopForms(w, plan, s, maxSteps, p);
      }
    } else {
      assert Outcome(w, plan, s, maxSteps, p) == Some(MaxStepsError);
    }
  }

  /** A step that continues passes the run's outcome through, and with it the step at which it failed. */
  lemma ContinueForms(w: World, plan: seq<PlanStep>, s: int, maxSteps: int, p: Progress)
    requires s <= maxSteps && TurnAt(w, plan, s, p).Continue?
    requires Concludes(w, s + 1, maxSteps, Outcome(w, plan, s + 1, maxSteps, TurnAt(w, plan, s, p).next))
    ensures Concludes(w, s, maxSteps, Outcome(w, plan, s, maxSteps, p))
  {
    var r := Outcome(w, plan, s + 1, maxSteps, TurnAt(w, plan, s, p).next);
    assert r == Outcome(w, plan, s, maxSteps, p);
    if exists u :: s + 1 <= u <= maxSteps && FailsAt(w, u, r) {
      var u :| s + 1 <= u <= maxSteps && FailsAt(w, u, r);
      assert s <= u <= maxSteps;
    }
  }

  /** An iteration that ends the run ends it with success or with the failure of its own step. */
  lemma StopForms(w: World, plan: seq<PlanStep>, s: int, maxSteps: int, p: Progress)
    requires s <= maxSteps && TurnAt(w, plan, s, p).Stop?
    ensures Concludes(w, s, maxSteps, Outcome(w, plan, s, maxSteps, p))
  {
    var r := TurnAt(w, plan, s, p).err;
    assert r == Outcome(w, plan, s, maxSteps, p);
    if w.snapshot(s).Ok? && p.cursor < |plan| {
      var a := Chosen(plan, w.snapshot(s).value, p);
      if w.subStep(s, a).Err? {
        assert SubAgentFails(w, s, a, r);
        assert FailsAt(w, s, r);
      }
    } else if w.snapshot(s).Err? {
      assert FailsAt(w, s, r);
    }
  }

  /**
   * Completion is only noticed at the start of the next iteration: a plan
   * finished by the last allowed step still ends in "max steps reached".
   */
  lemma LastStepCompletionFails(w: World, plan: seq<PlanStep>, maxSteps: int, p: Progress)
    requires TurnAt(w, plan, maxSteps, p).Continue? && TurnAt(w, plan, maxSteps, p).next.cursor == |plan|
    ensures Outcome(w, plan, maxSteps, maxSteps, p) == Some(MaxStepsError)
  {
  }

  /** With no step allowed, a planned run fails with "max steps reached". */
  lemma NoStepsNoSuccess(planned: Result<seq<PlanStep>>, w: World, maxSteps: int)
    requires planned.Ok? && maxSteps < 1
    ensures RunOutcome(planned, w, maxSteps) == Some(MaxStepsError)
  {
  }

  /**
   * `executeAction` followed by the bookkeeping of a successful action: the
   * memory records it, and the cursor advances when the sub-agent said so.
   */
  method Execute(mem: Memory.StepMemory, w: World, s: int, snap: PageSnapshot, sub: SubStep, cursor: nat)
    returns (cursor': nat)
    requires mem.Valid()
    modifies mem
    ensures mem.Valid()
    ensures var ok := Dispatch(sub.action, w.browser(s)).None?;
      && mem.keys == old(mem.keys) + (if ok then [MakeKey(snap.url, sub.action)] else [])
      && cursor' == (if ok && sub.stepDone then cursor + 1 else cursor)
    ensures mem.loopTriggered == old(mem.loopTriggered)
  {
    var execErr := Dispatch(sub.action, w.browser(s));
    cursor' := cursor;
    if execErr.None? {
      mem.Add(s, snap.url, sub.action);
      if sub.stepDone {
        cursor' := cursor + 1;
      }
    }
  }

  /** The guard and what follows it, once the sub-agent proposed `sub` for plan step `cursor`. */
  method Guarded(mem: Memory.StepMemory, w: World, plan: seq<PlanStep>, s: int, snap: PageSnapshot, sub: SubStep,
                 cursor: nat, blocks: map<int, int>)
    returns (stop: bool, cursor': nat, blocks': map<int, int>, ghost t: Turn)
    requires mem.Valid() && mem.loopThreshold == Agent.RunThreshold && cursor < |plan|
    modifies mem
    ensures mem.Valid() && mem.loopThreshold == Agent.RunThreshold
    ensures t == Respond(w, plan, s, snap, sub, Progress(cursor, blocks, old(mem.keys)))
    ensures stop == t.Stop? && (t.Stop? ==> t.err.None?)
    ensures t.Continue? ==> t.next == Progress(cursor', blocks', mem.keys)
    ensures mem.loopTriggered ==
      (old(mem.loopTriggered) || BlockedAfter(old(mem.keys), MakeKey(snap.url, sub.action), Agent.RunThreshold))
  {
    var key := MakeKey(snap.url, sub.action);
    var blocked, reason := mem.ShouldBlock(snap.url, sub.action);
    if blocked {
      stop, cursor', blocks', t := Block(mem, plan, cursor, blocks, reason);
      return;
    }
    if sub.action.kind == Finish {
      return true, cursor, blocks, Stop(None);
    }
    ghost var before := mem.keys;
    cursor' := Execute(mem, w, s, snap, sub, cursor);
    blocks' := blocks;
    stop, t := false, Continue(Progress(cursor', blocks', mem.keys));
    assert mem.keys == before + [key] || mem.keys == before;
  }

  /**
   * The memory side of a block: the guard's reason as a note, the loop flag,
   * and, when plan step `index` is given up, a note telling the model to move on.
   */
  method NoteBlock(mem: Memory.StepMemory, reason: string, skipped: bool, index: int)
    requires mem.Valid()
    modifies mem
    ensures mem.Valid() && mem.keys == old(mem.keys) && mem.loopTriggered
  {
    if reason != "" {
      mem.AddSystemNote(reason);
    }
    mem.MarkLoopTriggered();
    if skipped {
      mem.AddSystemNote(SkipNoteHead + IntToString(index) + SkipNoteTail);
    }
  }

  /** The guard blocked the proposal: leave its reason as a note and count the block against plan step `cursor`. */
  method Block(mem: Memory.StepMemory, plan: seq<PlanStep>, cursor: nat, blocks: map<int, int>, reason: string)
    returns (stop: bool, cursor': nat, blocks': map<int, int>, ghost t: Turn)
    requires mem.Valid() && cursor < |plan|
    modifies mem
    ensures mem.Valid() && mem.keys == old(mem.keys) && mem.loopTriggered
    ensures t == Skip(plan, Progress(cursor, blocks, old(mem.keys)))
    ensures stop == t.Stop? && (t.Stop? ==> t.err.None?)
    ensures t.Continue? ==> t.next == Progress(cursor', blocks', mem.keys)
  {
    var count := BlockCount(blocks, cursor) + 1;
    NoteBlock(mem, reason, count >= BlocksToSkip, plan[cursor].index);
    blocks' := blocks[cursor := count];
    cursor' := cursor;
    if count >= BlocksToSkip {
      cursor' := cursor + 1;
      if cursor' >= |plan| {
        return true, cursor', blocks', Stop(None);
      }
    }
    return false, cursor', blocks', Continue(Progress(cursor', blocks', mem.keys));
  }

  /** One iteration of the loop at step `s`. */
  method Iteration(mem: Memory.StepMemory, w: World, plan: seq<PlanStep>, s: int, cursor: nat, blocks: map<int, int>)
    returns (stop: bool, err: Option<string>, cursor': nat, blocks': map<int, int>, ghost t: Turn)
    requires mem.Valid() && mem.loopThreshold == Agent.RunThreshold
    modifies mem
    ensures mem.Valid() && mem.loopThreshold == Agent.RunThreshold
    ensures t == TurnAt(w, plan, s, Progress(cursor, blocks, old(mem.keys)))
    ensures stop == t.Stop? && (t.Stop? ==> err == t.err)
    ensures t.Continue? ==> t.next == Progress(cursor', blocks', mem.keys)
  {
    var snapshot := w.snapshot(s);
    if snapshot.Err? {
      err := Some(Agent.SnapshotErrorPrefix + snapshot.msg);
      return true, err, cursor, blocks, Stop(err);
    }
    var snap := snapshot.value;
    if cursor >= |plan| {
      return true, None, cursor, blocks, Stop(None);
    }
    var goal := plan[cursor];
    var mode := EffectiveMode(goal.mode, snap.tree);
    var agent := SubAgentFor(mode);
    var proposal := w.subStep(s, agent);
    if proposal.Err? {
      err := Some(Name(agent) + StepErrorInfix + proposal.msg);
      return true, err, cursor, blocks, Stop(err);
    }
    err := None;
    stop, cursor', blocks', t := Guarded(mem, w, plan, s, snap, proposal.value, cursor, blocks);
  }

  /**
   * `Orchestrator.Run` on the planner's result: a fresh shared memory, the
   * cursor at the first plan step, and at most `maxSteps` iterations. The
   * result is the run's outcome.
   */
  method Run(planned: Result<seq<PlanStep>>, w: World, maxSteps: int) returns (err: Option<string>)
    ensures err == RunOutcome(planned, w, maxSteps)
  {
    var mem := new Memory.StepMemory(Agent.HistoryWindow, Agent.RunThreshold);
    if planned.Err? {
      return Some(PlanErrorPrefix + planned.msg);
    }
    var plan := planned.value;
    var cursor: nat := 0;
    var blocks: map<int, int> := map[];
    var step := 1;
    while step <= maxSteps
      invariant mem.Valid() && mem.loopThreshold == Agent.RunThreshold
      invariant Sound(plan, Progress(cursor, blocks, mem.keys))
      invariant Outcome(w, plan, step, maxSteps, Progress(cursor, blocks, mem.keys)) == RunOutcome(planned, w, maxSteps)
      decreases maxSteps + 1 - step
    {
      var stop, stepErr;
      stop, stepErr, cursor, blocks := Next(mem, w, plan, step, maxSteps, cursor, blocks);
      if stop {
        return stepErr;
      }
      step := step + 1;
    }
    return Some(MaxStepsError);
  }

  /** One iteration of the run's loop: a stop ends the run with the outcome, otherwise the outcome is left to the next step. */
  method Next(mem: Memory.StepMemory, w: World, plan: seq<PlanStep>, step: int, maxSteps: int, cursor: nat, blocks: map<int, int>)
    returns (stop: bool, err: Option<string>, cursor': nat, blocks': map<int, int>)
    requires mem.Valid() && mem.loopThreshold == Agent.RunThreshold
    requires Sound(plan, Progress(cursor, blocks, mem.keys)) && step <= maxSteps
    modifies mem
    ensures mem.Valid() && mem.loopThreshold == Agent.RunThreshold
    ensures stop ==> err == Outcome(w, plan, step, maxSteps, Progress(cursor, blocks, old(mem.keys)))
    ensures !stop ==>
      && Sound(plan, Progress(cursor', blocks', mem.keys))
      && Outcome(w, plan, step + 1, maxSteps, Progress(cursor', blocks', mem.keys))
         == Outcome(w, plan, step, maxSteps, Progress(cursor, blocks, old(mem.keys)))
  {
    ghost var p := Progress(cursor, blocks, mem.keys);
    ghost var t;
    stop, err, cursor', blocks', t := Iteration(mem, w, plan, step, cursor, blocks);
    TurnKeepsSound(w, plan, step, p);
    assert Outcome(w, plan, step, maxSteps, p) == if t.Stop? then t.err else Outcome(w, plan, step + 1, maxSteps, t.next);
  }
}
