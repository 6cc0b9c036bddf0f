/**
 * The single-agent run loop (`Agent.Run`) and the cart tally it keeps from
 * the model's observations.
 *
 * Everything outside the agent is a parameter, gathered in `World` and
 * indexed by the step number: whether a Ctrl+C is pending when a step
 * begins, the page snapshot, the decision service's answer, the terminal
 * used to ask for consent, the browser's outcome of scrolling and of acting
 * on a node, and the submatches of the cart regular expression.
 *
 * `Run` returns its exit (the reason shown in the report and the error
 * returned), the trace of what happened at each step, and the cart tally.
 * `EventAt` says what step `s` does given the keys recorded so far; the
 * run's trace is proved to follow it step by step.
 */
module Agent {
  import opened Base
  import opened Text
  import opened LlmTypes
  import opened LoopGuard
  import Memory
  import opened Snapshot
  import opened AgentActions
  import Reason

  // ---------------------------------------------------------------------
  // Reading a count with `fmt.Sscanf(s, "%d", &count)`
  // ---------------------------------------------------------------------

  const MaxInt64: int := 0x7fff_ffff_ffff_ffff
  const MinInt64: int := -0x8000_0000_0000_0000

  predicate IsDigit(c: char)
  {
    '0' <= c <= '9'
  }

  /** Length of the run of decimal digits that starts `s`. */
  function LeadingDigits(s: string): (n: nat)
    ensures n <= |s|
    ensures forall i :: 0 <= i < n ==> IsDigit(s[i])
    ensures n < |s| ==> !IsDigit(s[n])
  {
    if s == [] || !IsDigit(s[0]) then 0 else 1 + LeadingDigits(s[1..])
  }

  function DigitValue(c: char): nat
    requires IsDigit(c)
  {
    c as int - '0' as int
  }

  /** The value of a string of decimal digits. */
  function DigitsValue(d: string): nat
    requires forall i :: 0 <= i < |d| ==> IsDigit(d[i])
  {
    if d == [] then 0
    else DigitsValue(d[..|d| - 1]) * 10 + DigitValue(d[|d| - 1])
  }

  /** The value of the digits that start `body`, if there are any. */
  function Magnitude(body: string): (r: Option<nat>)
  {
    var n := LeadingDigits(body);
    if n == 0 then None else Some(DigitsValue(body[..n]))
  }

  /** A value that fits in Go's 64-bit `int`; `%d` fails on any other. */
  function Fit(v: int): (r: Option<int>)
    ensures r.Some? ==> r.value == v && MinInt64 <= v <= MaxInt64
    ensures r.None? ==> v < MinInt64 || v > MaxInt64
  {
    if v < MinInt64 || v > MaxInt64 then None else Some(v)
  }

  /**
   * `%d` read from a token with no leading space: an optional sign, at least
   * one digit, and a value that fits in 64 bits. Whatever follows the digits
   * is left unread.
   */
  function ScanInt(s: string): (r: Option<int>)
  {
    var signed := s != [] && (s[0] == '+' || s[0] == '-');
    var mag := Magnitude(if signed then s[1..] else s);
    if mag.None? then None
    else Fit(if signed && s[0] == '-' then -(mag.value as int) else mag.value)
  }

  lemma {:induction false} DigitsOfNat(n: nat)
    ensures LeadingDigits(NatToString(n)) == |NatToString(n)|
    ensures DigitsValue(NatToString(n)) == n
  {
    var d := NatToString(n);
    if n >= 10 {
      DigitsOfNat(n / 10);
      assert d[..|d| - 1] == NatToString(n / 10);
    }
  }

  /** The decimal digits of `n` read back as `n`. */
  lemma MagnitudeOfNat(n: nat)
    ensures Magnitude(NatToString(n)) == Some(n)
  {
    var d := NatToString(n);
    DigitsOfNat(n);
    assert d[..|d|] == d;
  }

  lemma ScanNegative(s: string, n: nat)
    requires s != [] && s[0] == '-' && s[1..] == NatToString(n)
    ensures ScanInt(s) == Fit(-(n as int))
  {
    MagnitudeOfNat(n);
  }

  lemma ScanNonNegative(n: nat)
    ensures ScanInt(NatToString(n)) == Fit(n)
  {
    MagnitudeOfNat(n);
    assert '0' <= NatToString(n)[0] <= '9';
  }

  /** Reading back a 64-bit integer printed with `%d` gives the integer. */
  lemma ScanIntRoundTrip(n: int)
    requires MinInt64 <= n <= MaxInt64
    ensures ScanInt(IntToString(n)) == Some(n)
  {
    if n < 0 {
      var s := IntToString(n);
      assert s[1..] == NatToString(-n);
      ScanNegative(s, -n);
    } else {
      ScanNonNegative(n);
    }
  }

  // ---------------------------------------------------------------------
  // The cart tally
  // ---------------------------------------------------------------------

  const CartWord: string := "cart"
  const SepetWord: string := "sepet"
  const SepetPath: string := "/sepet"

  /** Whether the observation or the page is about the cart, ignoring case. */
  predicate MentionsCart(obs: string, url: string)
  {
    Contains(ToLower(obs), CartWord) || Contains(ToLower(obs), SepetWord) || Contains(ToLower(url), SepetPath)
  }

  function CountIn(acc: map<string, int>, name: string): int
  {
    if name in acc then acc[name] else 0
  }

  /** A read count and a trimmed name: a positive count and a non-empty name add to the tally. */
  function AddCount(acc: map<string, int>, count: Option<int>, name: string): map<string, int>
  {
    if count.None? || count.value <= 0 || |name| == 0 then acc
    else acc[name := CountIn(acc, name) + count.value]
  }

  /**
   * One match of the cart regular expression: its groups are the whole match,
   * the count and the item name, both read trimmed.
   */
  function AddMatch(acc: map<string, int>, m: seq<string>): map<string, int>
  {
    if |m| < 3 then acc else AddCount(acc, ScanInt(TrimSpace(m[1])), TrimSpace(m[2]))
  }

  /** Every match added in order. */
  function Tally(acc: map<string, int>, ms: seq<seq<string>>): map<string, int>
  {
    if ms == [] then acc else AddMatch(Tally(acc, ms[..|ms| - 1]), ms[|ms| - 1])
  }

  /** The tally after one observation: unchanged unless it is about the cart. */
  function CartUpdate(acc: map<string, int>, obs: string, url: string, ms: seq<seq<string>>): map<string, int>
  {
    if MentionsCart(obs, url) then Tally(acc, ms) else acc
  }

  /**
   * A tally only grows: every item stays with at least its count, and an item
   * that appears has a non-empty name and a positive count.
   */
  lemma {:induction false} TallyGrows(acc: map<string, int>, ms: seq<seq<string>>)
    ensures forall name :: name in acc ==> name in Tally(acc, ms) && Tally(acc, ms)[name] >= acc[name]
    ensures forall name :: name in Tally(acc, ms) && name !in acc ==> name != "" && Tally(acc, ms)[name] >= 1
  {
    if ms != [] {
      var prev := Tally(acc, ms[..|ms| - 1]);
      TallyGrows(acc, ms[..|ms| - 1]);
      assert Tally(acc, ms) == AddMatch(prev, ms[|ms| - 1]);
    }
  }

  /**
   * A count group holding a printed 64-bit integer is read, trimmed, as that
   * integer: printed numbers carry no white space.
   */
  lemma CountRoundTrip(n: int)
    requires MinInt64 <= n <= MaxInt64
    ensures ScanInt(TrimSpace(IntToString(n))) == Some(n)
  {
    var t := IntToString(n);
    TrimSpaceKeeps(t);
    ScanIntRoundTrip(n);
  }

  /** The loop body of `extractCartItemsFromObservation` for one match. */
  method AddCartMatch(acc: map<string, int>, m: seq<string>) returns (r: map<string, int>)
    ensures r == AddMatch(acc, m)
  {
    if |m| < 3 {
      return acc;
    }
    var countStr := TrimSpace(m[1]);
    var name := TrimSpace(m[2]);
    var count := ScanInt(countStr);
    r := RecordCount(acc, count, name);
  }

  /** Skips an unreadable or non-positive count and an empty name; otherwise adds the count. */
  method RecordCount(acc: map<string, int>, count: Option<int>, name: string) returns (r: map<string, int>)
    ensures r == AddCount(acc, count, name)
  {
    if count.None? || count.value <= 0 {
      return acc;
    }
    if |name| == 0 {
      return acc;
    }
    r := acc[name := CountIn(acc, name) + count.value];
  }

  /**
   * `extractCartItemsFromObservation`: a missing map (`None`) stays missing;
   * otherwise, when the observation is about the cart, every match of the
   * cart expression in it is added. `matches` stands for the expression.
   */
  method ExtractCartItems(obs: string, url: string, matches: string -> seq<seq<string>>, acc: Option<map<string, int>>)
    returns (out: Option<map<string, int>>)
    ensures acc.None? ==> out == None
    ensures acc.Some? ==> out == Some(CartUpdate(acc.value, obs, url, matches(obs)))
  {
    if acc.None? {
      return None;
    }
    var lowObs := ToLower(obs);
    var lowUrl := ToLower(url);
    if !(Contains(lowObs, CartWord) || Contains(lowObs, SepetWord) || Contains(lowUrl, SepetPath)) {
      return acc;
    }
    var tally := TallyMatches(acc.value, matches(obs));
    return Some(tally);
  }

  /** The loop of `extractCartItemsFromObservation`: every match added in order. */
  method TallyMatches(acc: map<string, int>, ms: seq<seq<string>>) returns (tally: map<string, int>)
    ensures tally == Tally(acc, ms)
  {
    tally := acc;
    var i := 0;
    while i < |ms|
      invariant i <= |ms|
      invariant tally == Tally(acc, ms[..i])
    {
      tally := AddCartMatch(tally, ms[i]);
      assert ms[..i + 1][..i] == ms[..i];
      i := i + 1;
    }
    assert ms[..|ms|] == ms;
  }

  // ---------------------------------------------------------------------
  // The run loop
  // ---------------------------------------------------------------------

  /** What the agent meets at each step `s` (counted from 1). */
  datatype World = World(
    interrupt: int -> bool,                          // a Ctrl+C is pending when step s begins
    snapshot: int -> Result<PageSnapshot>,           // the page snapshot taken at step s
    decide: int -> Result<Decision>,                 // the decision service's answer at step s
    tty: int -> Tty,                                 // the terminal, should consent be asked at step s
    scroll: int -> Option<string>,                   // the outcome of scrolling at step s
    perform: int -> ((Action, int) -> Option<string>), // the outcome of acting on a node at step s
    matches: string -> seq<seq<string>>)             // the cart expression's matches in a text

  /** What one step of the loop did. */
  datatype Event =
    | Stopped                                   // Ctrl+C: the loop stops before the step
    | SnapshotFailed(msg: string)
    | DecisionFailed(msg: string)
    | Blocked(key: ActionKey)                   // refused by the repetition guard
    | Finished                                  // the model declared the task done
    | Executed(key: ActionKey, err: Option<string>)

  /** Whether the run stops after this step. */
  predicate Ends(e: Event)
  {
    e.Stopped? || e.SnapshotFailed? || e.DecisionFailed? || e.Finished?
  }

  /** How a run ends: the reason given to the report and the error returned (`None` for success). */
  datatype Exit = Exit(reason: string, err: Option<string>)

  const SnapshotErrorPrefix: string := "snapshot failed: "
  const LlmErrorPrefix: string := "llm error: "
  const RunThreshold: int := 3
  const HistoryWindow: int := 10
  const NoEffectNote: string := "SYSTEM ALERT: Last action had NO VISIBLE EFFECT."
  const ErrorNotePrefix: string := "SYSTEM ERROR: "
  const StateNotePrefix: string := "STATE UPDATE: "
  const StateNoteSep: string := " | "
  const InterruptNote: string := "SYSTEM: execution interrupted by user (Ctrl+C)."

  function ExitOf(e: Event): Exit
    requires Ends(e)
  {
    match e
      case Stopped => Exit(Reason.Interrupted, Some(Reason.Interrupted))
      case SnapshotFailed(m) => Exit(Reason.SnapshotError, Some(SnapshotErrorPrefix + m))
      case DecisionFailed(m) => Exit(Reason.LlmError, Some(LlmErrorPrefix + m))
      case Finished => Exit(Reason.TaskFinished, None)
  }

  const MaxStepsExit: Exit := Exit(Reason.MaxStepsReached, Some(Reason.MaxStepsReached))

  /** The keys the memory has recorded after these events: those of the actions executed without error. */
  function Recorded(events: seq<Event>): (keys: seq<ActionKey>)
  {
    if events == [] then []
    else
      var e := events[|events| - 1];
      Recorded(events[..|events| - 1]) + (if e.Executed? && e.err.None? then [e.key] else [])
  }

  /** The error `executeAction` reports for `action` at step `s` on snapshot `snap`. */
  function ActionError(w: World, s: int, snap: PageSnapshot, action: Action): Option<string>
  {
    Outcome(GateOf(action, snap.elements, Confirmed(w.tty(s))), action, w.scroll(s), w.perform(s))
  }

  /**
   * What step `s` does when `keys` have been recorded: stop on Ctrl+C, or
   * else what the step's own work gives.
   */
  function EventAt(w: World, s: int, keys: seq<ActionKey>): Event
  {
    if w.interrupt(s) then Stopped else StepEvent(w, s, keys)
  }

  /**
   * The step's own work: fail on a snapshot or decision error, refuse a
   * repeated action, finish, or execute the action.
   */
  function StepEvent(w: World, s: int, keys: seq<ActionKey>): Event
  {
    if w.snapshot(s).Err? then SnapshotFailed(w.snapshot(s).msg)
    else if w.decide(s).Err? then DecisionFailed(w.decide(s).msg)
    else Decided(w, s, w.snapshot(s).value, w.decide(s).value.action, keys)
  }

  /** What step `s` does with the proposed `action` on `snap`: refuse a repetition, finish, or execute. */
  function Decided(w: World, s: int, snap: PageSnapshot, action: Action, keys: seq<ActionKey>): Event
  {
    var key := MakeKey(snap.url, action);
    if BlockedAfter(keys, key, RunThreshold) then Blocked(key)
    else if action.kind == Finish then Finished
    else Executed(key, ActionError(w, s, snap, action))
  }

  /** Every event is what `rule` says its step does given the keys recorded before it. */
  predicate FollowsRule(rule: (int, seq<ActionKey>) -> Event, events: seq<Event>)
  {
    forall i :: 0 <= i < |events| ==> events[i] == rule(i + 1, Recorded(events[..i]))
  }

  /** The step rule of `w`. */
  function Rule(w: World): (int, seq<ActionKey>) -> Event
  {
    (s, keys) => EventAt(w, s, keys)
  }

  /** The step rule of `w` for a memory that already held the keys `prior`. */
  function RuleAfter(w: World, prior: seq<ActionKey>): (int, seq<ActionKey>) -> Event
  {
    (s, keys) => EventAt(w, s, prior + keys)
  }

  /** Every event is what its step does in `w` given the keys recorded before it. */
  predicate Follows(w: World, events: seq<Event>)
  {
    FollowsRule(Rule(w), events)
  }

  /** What the rule after `prior` gives at a step. */
  lemma RuleAfterAt(w: World, prior: seq<ActionKey>, s: int, keys: seq<ActionKey>)
    ensures RuleAfter(w, prior)(s, keys) == (if w.interrupt(s) then Stopped else StepEvent(w, s, prior + keys))
  {
  }

  /** With nothing recorded before, the two rules agree. */
  lemma RuleAfterNothing(w: World, events: seq<Event>)
    ensures FollowsRule(RuleAfter(w, []), events) <==> Follows(w, events)
  {
    forall i | 0 <= i < |events|
      ensures RuleAfter(w, [])(i + 1, Recorded(events[..i])) == Rule(w)(i + 1, Recorded(events[..i]))
    {
      assert [] + Recorded(events[..i]) == Recorded(events[..i]);
    }
  }

  /** The cart tally after step `s`: a step that got a decision reads its observation. */
  function StepCart(w: World, s: int, acc: map<string, int>): map<string, int>
  {
    if w.interrupt(s) || w.snapshot(s).Err? || w.decide(s).Err? then acc
    else CartUpdate(acc, w.decide(s).value.observation, w.snapshot(s).value.url,
                    w.matches(w.decide(s).value.observation))
  }

  /** The cart tally after the first `n` steps. */
  function CartAfter(w: World, n: nat): map<string, int>
  {
    if n == 0 then map[] else StepCart(w, n, CartAfter(w, n - 1))
  }

  /**
   * The loop body of `Run` for step `step`, up to the point where the loop
   * continues or ends. `prevTree` is the tree of the last snapshot after
   * which an action succeeded.
   */
  method RunStep(mem: Memory.StepMemory, w: World, step: int, prevTree: Option<string>, cart: map<string, int>)
    returns (ev: Event, tree: Option<string>, cart': map<string, int>)
    requires mem.Valid() && mem.loopThreshold == RunThreshold
    modifies mem
    ensures mem.Valid()
    ensures ev == EventAt(w, step, old(mem.keys))
    ensures mem.keys == old(mem.keys) + (if ev.Executed? && ev.err.None? then [ev.key] else [])
    ensures mem.loopTriggered == (old(mem.loopTriggered) || ev.Blocked?)
    ensures cart' == StepCart(w, step, cart)
  {
    tree, cart' := prevTree, cart;
    if w.interrupt(step) {
      return Stopped, tree, cart';
    }
    var snapshot := w.snapshot(step);
    if snapshot.Err? {
      return SnapshotFailed(snapshot.msg), tree, cart';
    }
    ev, tree, cart' := Observe(mem, w, step, snapshot.value, prevTree, cart);
  }

  /**
   * The loop body once the step has a snapshot `snap`: note when the page
   * did not change, ask for a decision, tally the cart and act.
   */
  method Observe(mem: Memory.StepMemory, w: World, step: int, snap: PageSnapshot, prevTree: Option<string>, cart: map<string, int>)
    returns (ev: Event, tree: Option<string>, cart': map<string, int>)
    requires mem.Valid() && mem.loopThreshold == RunThreshold
    modifies mem
    ensures mem.Valid()
    ensures ev == (if w.decide(step).Err? then DecisionFailed(w.decide(step).msg)
                   else Decided(w, step, snap, w.decide(step).value.action, old(mem.keys)))
    ensures mem.keys == old(mem.keys) + (if ev.Executed? && ev.err.None? then [ev.key] else [])
    ensures mem.loopTriggered == (old(mem.loopTriggered) || ev.Blocked?)
    ensures cart' == (if w.decide(step).Err? then cart
                      else CartUpdate(cart, w.decide(step).value.observation, snap.url,
                                      w.matches(w.decide(step).value.observation)))
  {
    tree, cart' := prevTree, cart;
    if prevTree == Some(snap.tree) {
      mem.AddSystemNote(NoEffectNote);
    }
    var decision := w.decide(step);
    if decision.Err? {
      return DecisionFailed(decision.msg), tree, cart';
    }
    var d := decision.value;
    var tally := ExtractCartItems(d.observation, snap.url, w.matches, Some(cart));
    cart' := tally.value;
    ev, tree := Act(mem, w, step, snap, d, prevTree);
  }

  /** The rest of the loop body once the step has a decision `d` on snapshot `snap`. */
  method Act(mem: Memory.StepMemory, w: World, step: int, snap: PageSnapshot, d: Decision, prevTree: Option<string>)
    returns (ev: Event, tree: Option<string>)
    requires mem.Valid() && mem.loopThreshold == RunThreshold
    modifies mem
    ensures mem.Valid()
    ensures ev == Decided(w, step, snap, d.action, old(mem.keys))
    ensures mem.keys == old(mem.keys) + (if ev.Executed? && ev.err.None? then [ev.key] else [])
    ensures mem.loopTriggered == (old(mem.loopTriggered) || ev.Blocked?)
    ensures tree == (if ev.Executed? && ev.err.None? then Some(snap.tree) else prevTree)
  {
    tree := prevTree;
    var key := MakeKey(snap.url, d.action);
    var blocked, reason := mem.ShouldBlock(snap.url, d.action);
    if blocked {
      mem.MarkLoopTriggered();
      return Blocked(key), tree;
    }
    if d.action.kind == Finish {
      return Finished, tree;
    }
    var err;
    err, tree := Execute(mem, w, step, snap, d, prevTree);
    ev := Executed(key, err);
  }

  /**
   * Carries out an action the guard allowed: a failure leaves a note for the
   * model; a success is recorded, with a note of the phase and observation.
   */
  method Execute(mem: Memory.StepMemory, w: World, step: int, snap: PageSnapshot, d: Decision, prevTree: Option<string>)
    returns (err: Option<string>, tree: Option<string>)
    requires mem.Valid() && mem.loopThreshold == RunThreshold
    modifies mem
    ensures mem.Valid()
    ensures err == ActionError(w, step, snap, d.action)
    ensures mem.keys == old(mem.keys) + (if err.None? then [MakeKey(snap.url, d.action)] else [])
    ensures mem.loopTriggered == old(mem.loopTriggered)
    ensures tree == (if err.None? then Some(snap.tree) else prevTree)
  {
    var gate, asked;
    err, gate, asked := ExecuteAction(d.action, snap.elements, w.tty(step), w.scroll(step), w.perform(step));
    if err.Some? {
      mem.AddSystemNote(ErrorNotePrefix + err.value);
      tree := prevTree;
    } else {
      mem.Add(step, snap.url, d.action);
      mem.AddSystemNote(StateNotePrefix + d.currentPhase + StateNoteSep + d.observation);
      tree := Some(snap.tree);
    }
  }

  lemma FollowsAppend(rule: (int, seq<ActionKey>) -> Event, events: seq<Event>, e: Event)
    requires FollowsRule(rule, events)
    requires e == rule(|events| + 1, Recorded(events))
    ensures FollowsRule(rule, events + [e])
    ensures Recorded(events + [e]) == Recorded(events) + (if e.Executed? && e.err.None? then [e.key] else [])
  {
    var es := events + [e];
    assert es[..|events|] == events;
    forall i | 0 <= i < |es|
      ensures es[i] == rule(i + 1, Recorded(es[..i]))
    {
      if i < |events| {
        assert es[..i] == events[..i];
      }
    }
  }

  /** Step `step` of `Run` after `events`: the trace grows by what the step rule gives. */
  method Advance(mem: Memory.StepMemory, w: World, step: int, ghost events: seq<Event>,
                 prevTree: Option<string>, cart: map<string, int>)
    returns (ev: Event, tree: Option<string>, cart': map<string, int>)
    requires mem.Valid() && mem.loopThreshold == RunThreshold && mem.keys == Recorded(events)
    requires Follows(w, events) && step == |events| + 1 && cart == CartAfter(w, |events|)
    modifies mem
    ensures mem.Valid() && mem.keys == Recorded(events + [ev])
    ensures mem.loopTriggered == (old(mem.loopTriggered) || ev.Blocked?)
    ensures Follows(w, events + [ev]) && cart' == CartAfter(w, |events + [ev]|)
    ensures ev == EventAt(w, step, Recorded(events))
  {
    ev, tree, cart' := RunStep(mem, w, step, prevTree, cart);
    FollowsAppend(Rule(w), events, ev);
    assert |events + [ev]| == step;
  }

  /**
   * `Agent.Run`: at most `maxSteps` steps, each as `EventAt` says given the
   * keys recorded before it, stopping at the first step that ends the run.
   * The run succeeds exactly when the model finished the task, and every exit
   * reason is one the report explains.
   */
  method Run(w: World, maxSteps: int) returns (exit: Exit, events: seq<Event>, cart: map<string, int>)
    ensures Follows(w, events)
    ensures |events| <= (if maxSteps < 0 then 0 else maxSteps)
    ensures forall i :: 0 <= i < |events| - 1 ==> !Ends(events[i])
    ensures events != [] && Ends(events[|events| - 1]) ==> exit == ExitOf(events[|events| - 1])
    ensures !(events != [] && Ends(events[|events| - 1])) ==>
      exit == MaxStepsExit && |events| == (if maxSteps < 0 then 0 else maxSteps)
    ensures cart == CartAfter(w, |events|)
    ensures exit.reason in Reason.Explanations
    ensures exit.err.None? <==> events != [] && events[|events| - 1].Finished?
  {
    var mem := new Memory.StepMemory(HistoryWindow, RunThreshold);
    events, cart := Steps(mem, w, maxSteps);
    if events != [] && Ends(events[|events| - 1]) {
      var last := events[|events| - 1];
      if last.Stopped? {
        mem.AddSystemNote(InterruptNote);
      }
      return ExitOf(last), events, cart;
    }
    exit := MaxStepsExit;
  }

  /** Some step of the trace had its action refused by the guard. */
  predicate AnyBlocked(events: seq<Event>)
  {
    exists i :: 0 <= i < |events| && events[i].Blocked?
  }

  lemma AnyBlockedAppend(events: seq<Event>, e: Event)
    ensures AnyBlocked(events + [e]) == (AnyBlocked(events) || e.Blocked?)
  {
    var es := events + [e];
    assert es[|events|] == e;
    assert forall i :: 0 <= i < |events| ==> es[i] == events[i];
  }

  /** The loop of `Run` on a fresh memory: steps until one ends the run or `maxSteps` have run. */
  method Steps(mem: Memory.StepMemory, w: World, maxSteps: int) returns (events: seq<Event>, cart: map<string, int>)
    requires mem.Valid() && mem.loopThreshold == RunThreshold && mem.keys == []
    modifies mem
    ensures mem.Valid() && mem.keys == Recorded(events)
    ensures mem.loopTriggered == (old(mem.loopTriggered) || AnyBlocked(events))
    ensures Follows(w, events) && cart == CartAfter(w, |events|)
    ensures |events| <= (if maxSteps < 0 then 0 else maxSteps)
    ensures forall i :: 0 <= i < |events| - 1 ==> !Ends(events[i])
    ensures !(events != [] && Ends(events[|events| - 1])) ==> |events| == (if maxSteps < 0 then 0 else maxSteps)
  {
    var prevTree: Option<string> := None;
    events, cart := [], map[];
    var step := 1;
    while step <= maxSteps
      invariant 1 <= step && |events| == step - 1
      invariant step <= (if maxSteps < 1 then 1 else maxSteps + 1)
      invariant mem.Valid() && mem.loopThreshold == RunThreshold
      invariant mem.keys == Recorded(events)
      invariant mem.loopTriggered == (old(mem.loopTriggered) || AnyBlocked(events))
      invariant Follows(w, events)
      invariant forall i :: 0 <= i < |events| ==> !Ends(events[i])
      invariant cart == CartAfter(w, |events|)
    {
      var ev, tree, cart' := Advance(mem, w, step, events, prevTree, cart);
      AnyBlockedAppend(events, ev);
      events, prevTree, cart := events + [ev], tree, cart';
      if Ends(ev) {
        return;
      }
      step := step + 1;
    }
  }

  // ---------------------------------------------------------------------
  // What every run guarantees
  // ---------------------------------------------------------------------

  lemma FollowsPrefix(rule: (int, seq<ActionKey>) -> Event, events: seq<Event>, n: nat)
    requires FollowsRule(rule, events) && n <= |events|
    ensures FollowsRule(rule, events[..n])
  {
    forall i | 0 <= i < n
      ensures events[..n][i] == rule(i + 1, Recorded(events[..n][..i]))
    {
      assert events[..n][..i] == events[..i];
    }
  }

  /** An action a step executes was allowed by the guard, and is not a finish. */
  lemma ExecutedAllowed(w: World, s: int, keys: seq<ActionKey>)
    ensures var e := EventAt(w, s, keys);
      e.Executed? ==> !BlockedAfter(keys, e.key, RunThreshold) && e.key.kind != Finish
  {
  }

  /** The same, for a rule given as a function. */
  ghost predicate GuardedRule(rule: (int, seq<ActionKey>) -> Event)
  {
    forall s, keys :: rule(s, keys).Executed? ==>
      !BlockedAfter(keys, rule(s, keys).key, RunThreshold) && rule(s, keys).key.kind != Finish
  }

  lemma WorldGuarded(w: World)
    ensures GuardedRule(Rule(w))
  {
    forall s, keys
      ensures var e := EventAt(w, s, keys);
        e.Executed? ==> !BlockedAfter(keys, e.key, RunThreshold) && e.key.kind != Finish
    {
      ExecutedAllowed(w, s, keys);
    }
  }

  /** Recording a key the guard allowed keeps every transition unique. */
  lemma AllowedKeepsUnique(h: seq<ActionKey>, k: ActionKey)
    requires forall a, b :: PairCount(h, a, b) <= 1
    requires !BlockedAfter(h, k, RunThreshold)
    ensures forall a, b :: PairCount(h + [k], a, b) <= 1
  {
    forall a, b
      ensures PairCount(h + [k], a, b) <= 1
    {
      PairCountAppend(h, k, a, b);
    }
  }

  /** The last event of a run that follows `rule`. */
  lemma LastEvent(rule: (int, seq<ActionKey>) -> Event, events: seq<Event>)
    requires FollowsRule(rule, events) && events != []
    ensures FollowsRule(rule, events[..|events| - 1])
    ensures events[|events| - 1] == rule(|events|, Recorded(events[..|events| - 1]))
    ensures var e := events[|events| - 1];
      Recorded(events) == Recorded(events[..|events| - 1]) + (if e.Executed? && e.err.None? then [e.key] else [])
  {
    FollowsPrefix(rule, events, |events| - 1);
  }

  lemma {:induction false} UniqueUnder(rule: (int, seq<ActionKey>) -> Event, events: seq<Event>)
    requires FollowsRule(rule, events) && GuardedRule(rule)
    ensures forall a, b :: PairCount(Recorded(events), a, b) <= 1
  {
    if events != [] {
      var init := events[..|events| - 1];
      var e := events[|events| - 1];
      LastEvent(rule, events);
      UniqueUnder(rule, init);
      var h := Recorded(init);
      if e.Executed? && e.err.None? {
        assert rule(|events|, h) == e;
        AllowedKeepsUnique(h, e.key);
        assert Recorded(events) == h + [e.key];
      } else {
        assert Recorded(events) == h;
      }
    }
  }

  lemma {:induction false} NoFinishUnder(rule: (int, seq<ActionKey>) -> Event, events: seq<Event>)
    requires FollowsRule(rule, events) && GuardedRule(rule)
    ensures forall i :: 0 <= i < |Recorded(events)| ==> Recorded(events)[i].kind != Finish
  {
    if events != [] {
      LastEvent(rule, events);
      NoFinishUnder(rule, events[..|events| - 1]);
    }
  }

  /**
   * The repetition guard never lets a transition happen twice: in the keys a
   * run records, every ordered pair of consecutive keys occurs at most once.
   * Nor does a run record a finish.
   */
  lemma NoRepeatedTransition(w: World, events: seq<Event>)
    requires Follows(w, events)
    ensures forall a, b :: PairCount(Recorded(events), a, b) <= 1
    ensures forall i :: 0 <= i < |Recorded(events)| ==> Recorded(events)[i].kind != Finish
  {
    WorldGuarded(w);
    UniqueUnder(Rule(w), events);
    NoFinishUnder(Rule(w), events);
  }

  /**
   * A finish is never refused: when the step after a run gets a decision to
   * finish, that step finishes the run, whatever was done before.
   */
  lemma FinishHonoured(w: World, events: seq<Event>)
    requires Follows(w, events)
    requires var s := |events| + 1;
      !w.interrupt(s) && w.snapshot(s).Ok? && w.decide(s).Ok? && w.decide(s).value.action.kind == Finish
    ensures EventAt(w, |events| + 1, Recorded(events)) == Finished
  {
    var s := |events| + 1;
    NoRepeatedTransition(w, events);
    FinishNeverBlocked(Recorded(events), MakeKey(w.snapshot(s).value.url, w.decide(s).value.action), RunThreshold);
  }

  /** Every item in the cart tally has a non-empty name and a positive count. */
  lemma {:induction false} CartPositive(w: World, n: nat)
    ensures forall name :: name in CartAfter(w, n) ==> name != "" && CartAfter(w, n)[name] >= 1
  {
    if n > 0 {
      CartPositive(w, n - 1);
      var acc := CartAfter(w, n - 1);
      if !(w.interrupt(n) || w.snapshot(n).Err? || w.decide(n).Err?) {
        TallyGrows(acc, w.matches(w.decide(n).value.observation));
      }
    }
  }

  /** The cart tally only grows from one step to the next. */
  lemma CartGrows(w: World, n: nat)
    ensures forall name :: name in CartAfter(w, n) ==>
      name in CartAfter(w, n + 1) && CartAfter(w, n + 1)[name] >= CartAfter(w, n)[name]
  {
    var acc := CartAfter(w, n);
    if !(w.interrupt(n + 1) || w.snapshot(n + 1).Err? || w.decide(n + 1).Err?) {
      TallyGrows(acc, w.matches(w.decide(n + 1).value.observation));
    }
  }
}
