/**
 * The later decision client: the page text sent to the model is cut to a
 * size limit, a request is tried up to five times with an exponential pause
 * after each rate-limit error (3, 6, 12, 24 and 48 seconds), backticks
 * around the answer are removed before it is decoded, and the action type
 * is normalised without regard to case.
 *
 * The endpoint is the parameter `call`, the JSON decoder `decode`, and the
 * DOM size limit, which is not part of this model's source, the parameter
 * `limit`.
 */
module DecisionClient {
  import opened Base
  import opened Text
  import opened LlmTypes

  const MaxAttempts: nat := 5
  /** The pause after the first rate-limited attempt, in seconds; it doubles each time. */
  const BasePause: int := 3
  const TruncationMarker: string := "\n...[TRUNCATED]"

  predicate KnownKind(kind: string)
  {
    kind == Click || kind == TypeInput || kind == Scroll || kind == Finish
  }

  /**
   * `normalizeActionType`: the type, lower-cased, names one of the four
   * actions; anything else becomes a scroll. Only the type changes.
   */
  function NormalizeActionType(a: Action): (r: Action)
    ensures KnownKind(r.kind)
    ensures r == a.(kind := r.kind)
    ensures ToLower(a.kind) == Click ==> r.kind == Click
    ensures ToLower(a.kind) == TypeInput ==> r.kind == TypeInput
    ensures ToLower(a.kind) == Scroll ==> r.kind == Scroll
    ensures ToLower(a.kind) == Finish ==> r.kind == Finish
    ensures ToLower(a.kind) != Click && ToLower(a.kind) != TypeInput && ToLower(a.kind) != Finish ==> r.kind == Scroll
  {
    var k := ToLower(a.kind);
    if k == Click then a.(kind := Click)
    else if k == TypeInput then a.(kind := TypeInput)
    else if k == Scroll then a.(kind := Scroll)
    else if k == Finish then a.(kind := Finish)
    else a.(kind := Scroll)
  }

  /** The four type names are already lower case. */
  lemma KindsLowerCase()
    ensures ToLower(Click) == Click && ToLower(TypeInput) == TypeInput
    ensures ToLower(Scroll) == Scroll && ToLower(Finish) == Finish
  {
    ToLowerKeeps(Click);
    ToLowerKeeps(TypeInput);
    ToLowerKeeps(Scroll);
    ToLowerKeeps(Finish);
  }

  /** Normalising a normalised action changes nothing. */
  lemma NormalizeIdempotent(a: Action)
    ensures NormalizeActionType(NormalizeActionType(a)) == NormalizeActionType(a)
  {
    KindsLowerCase();
  }

  /** The normalisation never looks at the target: a click without a target stays a click. */
  lemma NormalizeIgnoresTarget(a: Action, target: int)
    ensures NormalizeActionType(a.(targetId := target)) == NormalizeActionType(a).(targetId := target)
  {
  }

  /** The DOM text sent to the model: cut to `limit` characters, with a marker, when longer. */
  function TruncateDom(dom: string, limit: nat): (r: string)
    ensures |dom| <= limit ==> r == dom
    ensures |dom| > limit ==>
      && |r| == limit + |TruncationMarker|
      && (forall i :: 0 <= i < limit ==> r[i] == dom[i])
      && (forall i :: 0 <= i < |TruncationMarker| ==> r[limit + i] == TruncationMarker[i])
  {
    if |dom| > limit then dom[..limit] + TruncationMarker else dom
  }

  /** The pause after rate-limited attempt `attempt`: three seconds, doubled per attempt. */
  function Backoff(attempt: nat): (seconds: int)
    ensures seconds >= BasePause
  {
    if attempt == 0 then BasePause else 2 * Backoff(attempt - 1)
  }

  /** The five pauses are 3, 6, 12, 24 and 48 seconds. */
  lemma BackoffValues()
    ensures Backoff(0) == 3 && Backoff(1) == 6 && Backoff(2) == 12 && Backoff(3) == 24 && Backoff(4) == 48
  {
  }

  /**
   * The answer of the last request made: its first choice with backticks
   * removed, decoded, the action type normalised. A failed request has no
   * choices.
   */
  function Interpret(reply: ApiReply, decode: string -> Result<Decision>): (r: Result<Decision>)
    ensures reply.ApiError? || reply.contents == [] ==> r == Err(NoChoicesError)
    ensures reply.Choices? && reply.contents != [] && decode(TrimChar(reply.contents[0], '`')).Err? ==>
      r == Err(decode(TrimChar(reply.contents[0], '`')).msg)
    ensures r.Ok? ==>
      && reply.Choices? && reply.contents != [] && decode(TrimChar(reply.contents[0], '`')).Ok?
      && r.value == decode(TrimChar(reply.contents[0], '`')).value.(action := NormalizeActionType(decode(TrimChar(reply.contents[0], '`')).value.action))
    ensures r.Ok? ==> KnownKind(r.value.action.kind)
  {
    var contents := if reply.Choices? then reply.contents else [];
    if |contents| == 0 then Err(NoChoicesError)
    else
      var decoded := decode(TrimChar(contents[0], '`'));
      if decoded.Err? then Err(decoded.msg)
      else Ok(decoded.value.(action := NormalizeActionType(decoded.value.action)))
  }

  /**
   * `DecideAction` once the prompt is built. `calls` is the number of
   * requests sent and `pauses` the seconds slept after each rate limit.
   */
  method DecideAction(call: nat -> ApiReply, decode: string -> Result<Decision>)
    returns (out: Result<Decision>, calls: nat, pauses: seq<int>)
    ensures var k := FirstSettled(call, 0, MaxAttempts);
      && calls == (if k < MaxAttempts then k + 1 else MaxAttempts)
      && |pauses| == k && (forall j :: 0 <= j < k ==> pauses[j] == Backoff(j))
      && out == (if k < MaxAttempts && call(k).ApiError? then Err(call(k).msg)
                 else Interpret(call(calls - 1), decode))
  {
    var reply: ApiReply := Choices([]);
    pauses := [];
    var attempt := 0;
    while attempt < MaxAttempts
      invariant attempt <= MaxAttempts
      invariant FirstSettled(call, 0, MaxAttempts) == FirstSettled(call, attempt, MaxAttempts)
      invariant |pauses| == attempt && forall j :: 0 <= j < attempt ==> pauses[j] == Backoff(j)
      invariant attempt > 0 ==> reply == call(attempt - 1) && RateLimited(reply)
    {
      reply := call(attempt);
      if reply.Choices? {
        break;
      }
      if Contains(reply.msg, RateLimitCode) {
        pauses := pauses + [Backoff(attempt)];
        attempt := attempt + 1;
        continue;
      }
      return Err(reply.msg), attempt + 1, pauses;
    }
    calls := if attempt < MaxAttempts then attempt + 1 else MaxAttempts;
    out := Interpret(reply, decode);
  }

  /** When every attempt is rate limited the result is still an error, the "no choices" one. */
  lemma AllRateLimitedIsError(call: nat -> ApiReply, decode: string -> Result<Decision>)
    requires forall j :: 0 <= j < MaxAttempts ==> RateLimited(call(j))
    ensures FirstSettled(call, 0, MaxAttempts) == MaxAttempts
    ensures Interpret(call(MaxAttempts - 1), decode) == Err(NoChoicesError)
  {
    assert FirstSettled(call, 4, MaxAttempts) == MaxAttempts;
    assert FirstSettled(call, 3, MaxAttempts) == MaxAttempts;
    assert FirstSettled(call, 2, MaxAttempts) == MaxAttempts;
    assert FirstSettled(call, 1, MaxAttempts) == MaxAttempts;
  }
}
