/**
 * What the agent does with a proposed action before any element of the page
 * is touched: a scroll is carried out at once; an action without a target
 * does nothing; a destructive action needs the user's consent on the
 * terminal; and the target handle must be in the snapshot's table.
 *
 * The terminal is the parameter `tty`: either there is none, or it yields a
 * sequence of lines and then a read error. The browser is the pair of
 * parameters `scroll` (the outcome of scrolling) and `perform` (the outcome
 * of acting on a backend node).
 */
module AgentActions {
  import opened Base
  import opened Text
  import opened LlmTypes

  datatype Tty = NoTty | Terminal(lines: seq<string>)

  /** How one answer line is understood. */
  datatype Answer = Approve | Deny | Unclear

  const Yes1: string := "y"
  const Yes2: string := "yes"
  const Yes3: string := "д"
  const No1: string := "n"
  const No2: string := "no"
  const No3: string := "н"

  /** An answer line, lower-cased and trimmed: y, yes or д approve; n, no, н or nothing deny. */
  function Classify(input: string): Answer
  {
    var answer := ToLower(TrimSpace(input));
    if answer == Yes1 || answer == Yes2 || answer == Yes3 then Approve
    else if answer == No1 || answer == No2 || answer == No3 || answer == "" then Deny
    else Unclear
  }

  /**
   * The verdict reached reading from line `i` on, for any reading `classify`
   * of a line: the first clear answer, or a refusal when the lines run out.
   */
  function ConfirmedFrom(lines: seq<string>, i: nat, classify: string -> Answer): bool
    requires i <= |lines|
    decreases |lines| - i
  {
    if i == |lines| then false
    else match classify(lines[i])
      case Approve => true
      case Deny => false
      case Unclear => ConfirmedFrom(lines, i + 1, classify)
  }

  /** Whether the user allows the destructive action; without a terminal, never. */
  function Confirmed(tty: Tty): bool
  {
    tty.Terminal? && ConfirmedFrom(tty.lines, 0, Classify)
  }

  /** `confirmDestructiveAction`: reads answers until one is clear; no terminal or a read error refuses. */
  method ConfirmDestructiveAction(tty: Tty) returns (ok: bool)
    ensures ok == Confirmed(tty)
  {
    if tty.NoTty? {
      return false;
    }
    var lines := tty.lines;
    var i := 0;
    while i < |lines|
      invariant i <= |lines|
      invariant ConfirmedFrom(lines, i, Classify) == ConfirmedFrom(lines, 0, Classify)
    {
      var answer := ToLower(TrimSpace(lines[i]));
      if answer == Yes1 || answer == Yes2 || answer == Yes3 {
        return true;
      }
      if answer == No1 || answer == No2 || answer == No3 || answer == "" {
        return false;
      }
      i := i + 1;
    }
    return false;
  }

  /**
   * The verdict from line `i` on is consent exactly when some line approves
   * and every line before it, from `i`, was unclear.
   */
  lemma {:induction false} ConfirmedFromMeans(lines: seq<string>, i: nat, classify: string -> Answer)
    requires i <= |lines|
    ensures ConfirmedFrom(lines, i, classify) <==>
      (exists k :: i <= k < |lines| && classify(lines[k]) == Approve
         && forall j :: i <= j < k ==> classify(lines[j]) == Unclear)
    decreases |lines| - i
  {
    if i < |lines| {
      ConfirmedFromMeans(lines, i + 1, classify);
      if classify(lines[i]) == Unclear && ConfirmedFrom(lines, i + 1, classify) {
        var k :| i + 1 <= k < |lines| && classify(lines[k]) == Approve
          && forall j :: i + 1 <= j < k ==> classify(lines[j]) == Unclear;
        assert forall j :: i <= j < k ==> classify(lines[j]) == Unclear;
      }
      if exists k :: i <= k < |lines| && classify(lines[k]) == Approve
           && forall j :: i <= j < k ==> classify(lines[j]) == Unclear
      {
        var k :| i <= k < |lines| && classify(lines[k]) == Approve
          && forall j :: i <= j < k ==> classify(lines[j]) == Unclear;
        if k > i {
          assert classify(lines[i]) == Unclear;
        }
      }
    }
  }

  /** Consent is given exactly when the first clear answer on the terminal approves. */
  lemma ConfirmedMeans(tty: Tty)
    ensures Confirmed(tty) <==>
      tty.Terminal? && (exists k :: 0 <= k < |tty.lines| && Classify(tty.lines[k]) == Approve
                                   && forall j :: 0 <= j < k ==> Classify(tty.lines[j]) == Unclear)
  {
    if tty.Terminal? {
      ConfirmedFromMeans(tty.lines, 0, Classify);
    }
  }

  /** Where the guard chain of `executeAction` ends. */
  datatype Gate =
    | ScrollPage          // scrolled without looking at the target
    | NoTarget            // target 0: nothing to do
    | Declined            // destructive and not allowed
    | Missing             // the handle is not in the snapshot's table
    | Perform(backendId: int)

  /** The guards in their order: scroll, then target 0, then consent, then the table lookup. */
  function GateOf(action: Action, elements: map<int, int>, confirmed: bool): (g: Gate)
    ensures g == ScrollPage <==> action.kind == Scroll
    ensures g == NoTarget <==> action.kind != Scroll && action.targetId == 0
    ensures g == Declined <==> action.kind != Scroll && action.targetId != 0 && action.isDestructive && !confirmed
    ensures g == Missing <==>
      action.kind != Scroll && action.targetId != 0 && (action.isDestructive ==> confirmed) && action.targetId !in elements
    ensures g.Perform? <==>
      action.kind != Scroll && action.targetId != 0 && (action.isDestructive ==> confirmed) && action.targetId in elements
    ensures g.Perform? ==> g.backendId == elements[action.targetId]
  {
    if action.kind == Scroll then ScrollPage
    else if action.targetId == 0 then NoTarget
    else if action.isDestructive && !confirmed then Declined
    else if action.targetId !in elements then Missing
    else Perform(elements[action.targetId])
  }

  const NotFoundHead: string := "TargetID "
  const NotFoundTail: string := " not found in elements map"

  function NotFound(target: int): (msg: string)
    ensures HasPrefix(msg, NotFoundHead + IntToString(target))
  {
    NotFoundHead + IntToString(target) + NotFoundTail
  }

  /** The error `executeAction` returns once the guards have decided. */
  function Outcome(g: Gate, action: Action, scroll: Option<string>, perform: (Action, int) -> Option<string>): Option<string>
  {
    match g
      case ScrollPage => scroll
      case NoTarget => None
      case Declined => None
      case Missing => Some(NotFound(action.targetId))
      case Perform(b) => if action.kind == Click || action.kind == TypeInput then perform(action, b) else None
  }

  /**
   * `executeAction`. `asked` says whether the user was asked for consent,
   * `gate` where the guards ended.
   */
  method ExecuteAction(action: Action, elements: map<int, int>, tty: Tty,
                       scroll: Option<string>, perform: (Action, int) -> Option<string>)
    returns (err: Option<string>, gate: Gate, asked: bool)
    ensures gate == GateOf(action, elements, Confirmed(tty))
    ensures asked <==> action.kind != Scroll && action.targetId != 0 && action.isDestructive
    ensures err == Outcome(gate, action, scroll, perform)
  {
    asked := false;
    if action.kind == Scroll {
      return scroll, ScrollPage, asked;
    }
    if action.targetId == 0 {
      return None, NoTarget, asked;
    }
    if action.isDestructive {
      asked := true;
      var ok := ConfirmDestructiveAction(tty);
      if !ok {
        return None, Declined, asked;
      }
    }
    if action.targetId !in elements {
      return Some(NotFound(action.targetId)), Missing, asked;
    }
    var backendId := elements[action.targetId];
    gate := Perform(backendId);
    if action.kind == Click || action.kind == TypeInput {
      err := perform(action, backendId);
    } else {
      err := None;
    }
  }
}
