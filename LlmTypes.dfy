/** The action and decision records exchanged with the decision service. */
module LlmTypes {
  import opened Text

  /** The action type names the decision service speaks. */
  const Click: string := "click"
  const TypeInput: string := "type"
  const Scroll: string := "scroll_down"
  const Finish: string := "finish"
  const Navigate: string := "navigate"

  /** One proposed browser action. `targetId` is a snapshot handle, 0 for none. */
  datatype Action = Action(
    kind: string,
    targetId: int,
    text: string,
    submit: bool,
    isDestructive: bool,
    destructiveReason: string,
    url: string)

  /** What the decision service returns for one step. */
  datatype Decision = Decision(
    thought: string,
    currentPhase: string,
    observation: string,
    stepDone: bool,
    action: Action)

  /** One answer of the chat-completion endpoint: the message texts, or an error. */
  datatype ApiReply = Choices(contents: seq<string>) | ApiError(msg: string)

  /** The text by which both decision clients recognise a rate-limit error. */
  const RateLimitCode: string := "429"
  /** The error both decision clients give when the last reply has no choices. */
  const NoChoicesError: string := "no choices"

  predicate RateLimited(reply: ApiReply)
  {
    reply.ApiError? && Contains(reply.msg, RateLimitCode)
  }

  /**
   * The attempt at which a client's retry loop stops, from attempt `i` on:
   * the first whose reply is not a rate-limit error, or `limit` when every
   * attempt up to the limit was rate limited. Both clients retry only on
   * that error; they differ in the limit and the pause.
   */
  function FirstSettled(call: nat -> ApiReply, i: nat, limit: nat): (k: nat)
    requires i <= limit
    ensures i <= k <= limit
    ensures k < limit ==> !RateLimited(call(k))
    ensures forall j :: i <= j < k ==> RateLimited(call(j))
    decreases limit - i
  {
    if i == limit || !RateLimited(call(i)) then i else FirstSettled(call, i + 1, limit)
  }
}
