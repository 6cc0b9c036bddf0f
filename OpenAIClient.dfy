/**
 * The decision client that asks the chat-completion endpoint for the next
 * action: up to three attempts, where only a rate-limit error (one whose
 * text mentions 429) is retried after a pause, followed by decoding of the
 * answer and a check that the proposed action can be carried out.
 *
 * The endpoint is the parameter `call`, which gives the reply to each
 * attempt (counted from 0); the JSON decoder is the parameter `decode`.
 */
module OpenAIClient {
  import opened Base
  import opened Text
  import opened LlmTypes

  const MaxAttempts: nat := 3
  /** Seconds slept after a rate-limited attempt. */
  const RateLimitPause: int := 5
  const JsonErrorPrefix: string := "JSON error: "

  predicate ValidKind(kind: string)
  {
    kind == Click || kind == TypeInput || kind == Scroll || kind == Finish
  }

  /**
   * The check of a decoded action: a click or a text entry without a target
   * becomes a scroll, a scroll or a finish stays as it is, and any other type
   * becomes a scroll. Nothing but the type changes.
   */
  function ValidateAction(a: Action): (r: Action)
    ensures ValidKind(r.kind)
    ensures r == a.(kind := r.kind)
    ensures (a.kind == Click || a.kind == TypeInput) && a.targetId != 0 ==> r.kind == a.kind
    ensures (a.kind == Click || a.kind == TypeInput) && a.targetId == 0 ==> r.kind == Scroll
    ensures a.kind == Scroll || a.kind == Finish ==> r == a
    ensures !ValidKind(a.kind) ==> r.kind == Scroll
  {
    if a.kind == Click || a.kind == TypeInput then
      if a.targetId == 0 then a.(kind := Scroll) else a
    else if a.kind == Scroll || a.kind == Finish then a
    else a.(kind := Scroll)
  }

  /** Checking a checked action changes nothing. */
  lemma ValidateIdempotent(a: Action)
    ensures ValidateAction(ValidateAction(a)) == ValidateAction(a)
  {
  }

  /** What becomes of a successful reply: its first choice decoded, the action checked. */
  function Interpret(contents: seq<string>, decode: string -> Result<Decision>): (r: Result<Decision>)
    ensures contents == [] ==> r == Err(NoChoicesError)
    ensures contents != [] && decode(contents[0]).Err? ==> r == Err(JsonErrorPrefix + decode(contents[0]).msg)
    ensures r.Ok? ==>
      && contents != [] && decode(contents[0]).Ok?
      && r.value == decode(contents[0]).value.(action := ValidateAction(decode(contents[0]).value.action))
  {
    if |contents| == 0 then Err(NoChoicesError)
    else
      var decoded := decode(contents[0]);
      if decoded.Err? then Err(JsonErrorPrefix + decoded.msg)
      else Ok(decoded.value.(action := ValidateAction(decoded.value.action)))
  }

  /**
   * `DecideAction` after the prompt is built. `calls` is the number of
   * requests sent and `pauses` the seconds slept between them.
   */
  method DecideAction(call: nat -> ApiReply, decode: string -> Result<Decision>)
    returns (out: Result<Decision>, calls: nat, pauses: seq<int>)
    ensures var k := FirstSettled(call, 0, MaxAttempts);
      && calls == (if k < MaxAttempts then k + 1 else MaxAttempts)
      && |pauses| == k && (forall j :: 0 <= j < k ==> pauses[j] == RateLimitPause)
      && out == (if k == MaxAttempts then Err(call(MaxAttempts - 1).msg)
                 else if call(k).ApiError? then Err(call(k).msg)
                 else Interpret(call(k).contents, decode))
  {
    var reply: ApiReply := Choices([]);
    pauses := [];
    var attempt := 0;
    while attempt < MaxAttempts
      invariant attempt <= MaxAttempts
      invariant FirstSettled(call, 0, MaxAttempts) == FirstSettled(call, attempt, MaxAttempts)
      invariant |pauses| == attempt && forall j :: 0 <= j < attempt ==> pauses[j] == RateLimitPause
      invariant attempt > 0 ==> reply == call(attempt - 1) && RateLimited(reply)
    {
      reply := call(attempt);
      if reply.Choices? {
        break;
      }
      if Contains(reply.msg, RateLimitCode) {
        pauses := pauses + [RateLimitPause];
        attempt := attempt + 1;
        continue;
      }
      return Err(reply.msg), attempt + 1, pauses;
    }
    calls := if attempt < MaxAttempts then attempt + 1 else MaxAttempts;
    if reply.ApiError? {
      return Err(reply.msg), calls, pauses;
    }
    out := Interpret(reply.contents, decode);
  }
}
