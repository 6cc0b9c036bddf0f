/**
 * The run report's explanation of why a run stopped: the five exit reasons
 * the agent produces get a sentence for a human reader, and any other text
 * is shown as it is.
 */
module Reason {

  const TaskFinished: string := "task finished"
  const MaxStepsReached: string := "max steps reached"
  const Interrupted: string := "interrupted by user (Ctrl+C)"
  const LlmError: string := "llm error"
  const SnapshotError: string := "snapshot error"

  const TaskFinishedText: string := "model explicitly finished the task"
  const MaxStepsText: string := "step limit reached"
  const InterruptedText: string := "execution was interrupted by user (Ctrl+C)"
  const LlmErrorText: string := "LLM client error"
  const SnapshotErrorText: string := "page snapshot error"

  /** The exit reasons that have a fixed explanation, and that explanation. */
  const Explanations: map<string, string> := map[
    TaskFinished := TaskFinishedText,
    MaxStepsReached := MaxStepsText,
    Interrupted := InterruptedText,
    LlmError := LlmErrorText,
    SnapshotError := SnapshotErrorText]

  /** `humanizeReason`: the explanation of a known exit reason, the reason itself otherwise. */
  function HumanizeReason(reason: string): (r: string)
    ensures reason in Explanations ==> r == Explanations[reason]
    ensures reason !in Explanations ==> r == reason
  {
    if reason == TaskFinished then TaskFinishedText
    else if reason == MaxStepsReached then MaxStepsText
    else if reason == Interrupted then InterruptedText
    else if reason == LlmError then LlmErrorText
    else if reason == SnapshotError then SnapshotErrorText
    else reason
  }

  /** No explanation is itself an exit reason with an explanation. */
  lemma ExplanationsNotReasons()
    ensures forall reason :: reason in Explanations ==> Explanations[reason] !in Explanations
  {
    assert TaskFinishedText[0] != TaskFinished[0];
  }

  /** Explaining an explanation changes nothing, so the text shown is stable. */
  lemma HumanizeIdempotent(reason: string)
    ensures HumanizeReason(HumanizeReason(reason)) == HumanizeReason(reason)
  {
    ExplanationsNotReasons();
  }
}
