/**
 * The high-level planner: the decision service splits the user's task into
 * a few steps, and `BuildPlan` repairs what it returns. A step without an
 * index gets its position (counted from 1), and a mode other than the two
 * known ones is guessed from the goal's wording.
 */
module Planner {
  import opened Base
  import opened Text
  import opened LlmTypes

  const ModeNavigation: string := "navigation"
  const ModeInteraction: string := "interaction"

  /** Goal words that make an unrecognised step a navigation step. */
  const SearchWord: string := "search"
  const GoToWord: string := "go to"
  const OpenWord: string := "open"

  const NoChoicesError: string := "planner returned no choices"
  const ApiErrorPrefix: string := "OpenAI planner error: "
  const ParseErrorPrefix: string := "planner JSON parse error: "

  datatype PlanStep = PlanStep(index: int, goal: string, mode: string)

  predicate KnownMode(mode: string)
  {
    mode == ModeNavigation || mode == ModeInteraction
  }

  /** Whether the goal reads like moving to a page: it mentions searching, going to or opening. */
  predicate LooksLikeNavigation(goal: string)
  {
    var g := ToLower(goal);
    Contains(g, SearchWord) || Contains(g, GoToWord) || Contains(g, OpenWord)
  }

  /** The mode a step ends with: its own mode, lower-cased and trimmed, when known; otherwise guessed from the goal. */
  function NormalMode(mode: string, goal: string): (r: string)
    ensures KnownMode(r)
    ensures KnownMode(ToLower(TrimSpace(mode))) ==> r == ToLower(TrimSpace(mode))
    ensures !KnownMode(ToLower(TrimSpace(mode))) ==> (r == ModeNavigation <==> LooksLikeNavigation(goal))
  {
    var m := ToLower(TrimSpace(mode));
    if m == ModeNavigation || m == ModeInteraction then m
    else if LooksLikeNavigation(goal) then ModeNavigation
    else ModeInteraction
  }

  /**
   * `r` is `s` repaired at position `i`: the goal kept, a missing index
   * replaced by the position counted from 1, and a known mode, namely the
   * step's own mode trimmed and lower-cased when that is known, and
   * otherwise navigation exactly when the goal reads like navigation.
   */
  predicate StepRepaired(s: PlanStep, r: PlanStep, i: int)
  {
    var canonical := ToLower(TrimSpace(s.mode));
    && r.goal == s.goal
    && r.index == (if s.index == 0 then i + 1 else s.index)
    && KnownMode(r.mode)
    && (KnownMode(canonical) ==> r.mode == canonical)
    && (!KnownMode(canonical) ==> (r.mode == ModeNavigation <==> LooksLikeNavigation(s.goal)))
  }

  /** The repaired step at position `i` (counted from 0). */
  function NormalizeStep(s: PlanStep, i: int): (r: PlanStep)
    ensures StepRepaired(s, r, i)
  {
    PlanStep(if s.index == 0 then i + 1 else s.index, s.goal, NormalMode(s.mode, s.goal))
  }

  /** The repair is the only step `StepRepaired` allows: the description pins the result down. */
  lemma StepRepairedUnique(s: PlanStep, r: PlanStep, i: int)
    requires StepRepaired(s, r, i)
    ensures r == NormalizeStep(s, i)
  {
    var n := NormalizeStep(s, i);
    assert r.mode == n.mode;
  }

  /** The repaired plan: every step repaired at its own position. */
  function Normalized(steps: seq<PlanStep>): (r: seq<PlanStep>)
    ensures |r| == |steps|
  {
    if steps == [] then []
    else Normalized(steps[..|steps| - 1]) + [NormalizeStep(steps[|steps| - 1], |steps| - 1)]
  }

  /** Step `i` of the repaired plan is step `i` repaired at position `i`. */
  lemma {:induction false} NormalizedAt(steps: seq<PlanStep>, i: nat)
    requires i < |steps|
    ensures Normalized(steps)[i] == NormalizeStep(steps[i], i)
    decreases |steps|
  {
    if i < |steps| - 1 {
      var init := steps[..|steps| - 1];
      NormalizedAt(init, i);
      assert init[i] == steps[i];
    }
  }

  /** The body of the repair loop for the step at position `i`. */
  method RepairStep(s: PlanStep, i: int) returns (r: PlanStep)
    ensures r == NormalizeStep(s, i)
  {
    r := s;
    if r.index == 0 {
      r := r.(index := i + 1);
    }
    var mode := ToLower(TrimSpace(r.mode));
    if mode != ModeNavigation && mode != ModeInteraction {
      var goalLower := ToLower(r.goal);
      if Contains(goalLower, SearchWord) || Contains(goalLower, GoToWord) || Contains(goalLower, OpenWord) {
        mode := ModeNavigation;
      } else {
        mode := ModeInteraction;
      }
    }
    r := r.(mode := mode);
  }

  /** Repairs the step at position `i` in place; every other step is left alone. */
  method RepairAt(steps: array<PlanStep>, i: int)
    requires 0 <= i < steps.Length
    modifies steps
    ensures steps[..] == old(steps[..])[i := NormalizeStep(old(steps[..])[i], i)]
  {
    var r := RepairStep(steps[i], i);
    steps[i] := r;
  }

  /** Repairs every step in place, in order: the array ends as the repaired plan. */
  method NormalizeSteps(steps: array<PlanStep>)
    modifies steps
    ensures steps[..] == Normalized(old(steps[..]))
  {
    ghost var orig := steps[..];
    var i := 0;
    while i < steps.Length
      invariant 0 <= i <= steps.Length == |orig|
      invariant steps[..] == Normalized(orig[..i]) + orig[i..]
    {
      ghost var before := steps[..];
      RepairAt(steps, i);
      RepairedOneMore(orig, i, before, steps[..]);
      i := i + 1;
    }
    assert orig[..i] == orig;
  }

  /** Repairing one more step extends the repaired prefix by that step. */
  lemma NormalizedGrows(orig: seq<PlanStep>, i: nat)
    requires i < |orig|
    ensures Normalized(orig[..i + 1]) == Normalized(orig[..i]) + [NormalizeStep(orig[i], i)]
  {
    assert orig[..i + 1][..i] == orig[..i];
  }

  /** The loop step of `NormalizeSteps`: repairing position `i` of a plan repaired up to `i` leaves it repaired up to `i + 1`. */
  lemma RepairedOneMore(orig: seq<PlanStep>, i: nat, before: seq<PlanStep>, after: seq<PlanStep>)
    requires i < |orig| && before == Normalized(orig[..i]) + orig[i..]
    requires after == before[i := NormalizeStep(before[i], i)]
    ensures after == Normalized(orig[..i + 1]) + orig[i + 1..]
  {
    assert before[i] == orig[i];
    UpdateAfter(Normalized(orig[..i]), orig[i..], NormalizeStep(orig[i], i));
    NormalizedGrows(orig, i);
    assert orig[i..][1..] == orig[i + 1..];
  }

  /** Overwriting the element just past a prefix `a` splices the new element in. */
  lemma UpdateAfter<T>(a: seq<T>, b: seq<T>, x: T)
    requires b != []
    ensures (a + b)[|a| := x] == a + [x] + b[1..]
  {
  }

  /** Every step of the repaired plan is the decoded step repaired at its own position. */
  lemma NormalizedKeeps(steps: seq<PlanStep>)
    ensures forall i :: 0 <= i < |steps| ==> StepRepaired(steps[i], Normalized(steps)[i], i)
  {
    forall i | 0 <= i < |steps|
      ensures StepRepaired(steps[i], Normalized(steps)[i], i)
    {
      NormalizedAt(steps, i);
    }
  }

  /**
   * `BuildPlan` after the decision service has answered: `reply` is its
   * answer and `decode` stands for the JSON decoder of the plan.
   */
  method BuildPlan(reply: ApiReply, decode: string -> Result<seq<PlanStep>>) returns (plan: Result<seq<PlanStep>>)
    ensures reply.ApiError? ==> plan == Err(ApiErrorPrefix + reply.msg)
    ensures reply.Choices? && reply.contents == [] ==> plan == Err(NoChoicesError)
    ensures reply.Choices? && reply.contents != [] && decode(reply.contents[0]).Err? ==>
      plan.Err? && HasPrefix(plan.msg, ParseErrorPrefix)
    ensures reply.Choices? && reply.contents != [] && decode(reply.contents[0]).Ok? ==>
      plan == Ok(Normalized(decode(reply.contents[0]).value))
  {
    if reply.ApiError? {
      return Err(ApiErrorPrefix + reply.msg);
    }
    if |reply.contents| == 0 {
      return Err(NoChoicesError);
    }
    var content := reply.contents[0];
    var decoded := decode(content);
    if decoded.Err? {
      return Err(ParseErrorPrefix + decoded.msg + ContentSep + content);
    }
    var steps := new PlanStep[|decoded.value|](i requires 0 <= i < |decoded.value| => decoded.value[i]);
    assert steps[..] == decoded.value;
    NormalizeSteps(steps);
    return Ok(steps[..]);
  }

  const ContentSep: string := " | content: "

  /** The two known modes are fixed points of the lower-case-and-trim step. */
  lemma KnownModesCanonical()
    ensures ToLower(TrimSpace(ModeNavigation)) == ModeNavigation
    ensures ToLower(TrimSpace(ModeInteraction)) == ModeInteraction
  {
    TrimSpaceKeeps(ModeNavigation);
    TrimSpaceKeeps(ModeInteraction);
    ToLowerKeeps(ModeNavigation);
    ToLowerKeeps(ModeInteraction);
  }

  /** Repairing a repaired step changes nothing. */
  lemma NormalizeStepIdempotent(s: PlanStep, i: int)
    requires i >= 0
    ensures NormalizeStep(NormalizeStep(s, i), i) == NormalizeStep(s, i)
  {
    KnownModesCanonical();
  }

  /** Repairing a repaired plan changes nothing. */
  lemma {:induction false} NormalizedIdempotent(steps: seq<PlanStep>)
    ensures Normalized(Normalized(steps)) == Normalized(steps)
    decreases |steps|
  {
    if steps != [] {
      var n := |steps| - 1;
      var init := steps[..n];
      var r := Normalized(steps);
      NormalizedIdempotent(init);
      assert r[..n] == Normalized(init);
      NormalizeStepIdempotent(steps[n], n);
      assert r[n] == NormalizeStep(steps[n], n);
    }
  }
}
