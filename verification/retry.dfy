/** The bounded retry loop of the "did you mean" suggestion flow
    (src/ai/flows/did-you-mean.ts). The language-model prompt is an opaque
    function from the input and the attempt number to an outcome; the
    one-second pause after a failure is counted, not slept. */
module SuggestionRetry {
  import opened Optional

  /** The value `retries` starts from: the prompt is tried at most this often. */
  const MaxAttempts: nat := 3

  /** The pause after each failed attempt, in milliseconds. */
  const RetryDelayMs: nat := 1000

  /** One call of the prompt: it yields an output or throws an error. */
  datatype Outcome<V, E> = Ok(value: V) | Err(error: E)

  /** How the flow ends: it returns an output or rethrows an error. */
  datatype FlowResult<V, E> = Returned(value: V) | Threw(error: E)

  /** The flow as a reference: the first of the attempts that succeeds wins,
      together with the number of calls made and the total pause; when all
      attempts fail, the error of the last one is thrown after one pause per
      failure. */
  datatype Run<V, E> = Run(result: FlowResult<V, E>, calls: nat, waitedMs: nat)

  /** The index of the first successful attempt among `from .. MaxAttempts - 1`, or `MaxAttempts` if none. */
  function FirstSuccess<Q, V, E>(prompt: (Q, nat) -> Outcome<V, E>, input: Q, from: nat): (k: nat)
    requires from <= MaxAttempts
    ensures from <= k <= MaxAttempts
    ensures k < MaxAttempts ==> prompt(input, k).Ok?
    ensures forall j :: from <= j < k ==> prompt(input, j).Err?
    decreases MaxAttempts - from
  {
    if from == MaxAttempts then MaxAttempts
    else if prompt(input, from).Ok? then from
    else FirstSuccess(prompt, input, from + 1)
  }

  /** The expected run, stated without a loop. */
  function Expected<Q, V, E>(prompt: (Q, nat) -> Outcome<V, E>, input: Q): (run: Run<V, E>)
    ensures 1 <= run.calls <= MaxAttempts
    ensures run.result.Returned? ==> run.waitedMs == RetryDelayMs * (run.calls - 1)
    ensures run.result.Threw? ==> run.calls == MaxAttempts && run.waitedMs == RetryDelayMs * MaxAttempts
  {
    var k := FirstSuccess(prompt, input, 0);
    if k < MaxAttempts then
      Run(Returned(prompt(input, k).value), k + 1, RetryDelayMs * k)
    else
      Run(Threw(prompt(input, MaxAttempts - 1).error), MaxAttempts, RetryDelayMs * MaxAttempts)
  }

  /** The loop of the flow as written: `retries` counts down from three, a
      success returns at once, a failure records its error, decrements the
      counter and pauses, and once the counter reaches zero the last error is
      rethrown. `sent` only records the input handed to each call, one entry
      per call; that every call gets the caller's input unchanged is stated by
      the clauses that name `prompt(input, j)`. */
  method SuggestionsFlow<Q, V, E>(prompt: (Q, nat) -> Outcome<V, E>, input: Q)
    returns (result: FlowResult<V, E>, calls: nat, waitedMs: nat, sent: seq<Q>)
    ensures 1 <= calls <= MaxAttempts
    ensures |sent| == calls && forall i :: 0 <= i < |sent| ==> sent[i] == input
    ensures forall j :: 0 <= j < calls - 1 ==> prompt(input, j).Err?
    ensures result.Returned? <==> prompt(input, calls - 1).Ok?
    ensures result.Returned? ==>
      result.value == prompt(input, calls - 1).value && waitedMs == RetryDelayMs * (calls - 1)
    ensures result.Threw? ==>
      && calls == MaxAttempts
      && result.error == prompt(input, MaxAttempts - 1).error
      && waitedMs == RetryDelayMs * MaxAttempts
    ensures Run(result, calls, waitedMs) == Expected(prompt, input)
  {
    var retries := MaxAttempts;
    var lastError: Option<E> := None;  // unset until the first failure
    calls, waitedMs, sent := 0, 0, [];
    while retries > 0
      invariant 0 <= retries <= MaxAttempts
      invariant calls == MaxAttempts - retries
      invariant waitedMs == RetryDelayMs * calls
      invariant |sent| == calls && forall i :: 0 <= i < |sent| ==> sent[i] == input
      invariant forall j :: 0 <= j < calls ==> prompt(input, j).Err?
      invariant calls > 0 ==> lastError == Some(prompt(input, calls - 1).error)
      decreases retries
    {
      var outcome := prompt(input, calls);
      sent := sent + [input];
      calls := calls + 1;
      match outcome
      case Ok(v) =>
        result := Returned(v);
        return;
      case Err(e) =>
        lastError := Some(e);
        retries := retries - 1;
        waitedMs := waitedMs + RetryDelayMs;
    }
    result := Threw(lastError.value);
  }

  /** The scenario of two failures followed by a success: the flow returns the
      third output after two pauses, two seconds in all. */
  lemma TwoFailuresThenSuccess<Q, V, E>(prompt: (Q, nat) -> Outcome<V, E>, input: Q)
    requires prompt(input, 0).Err? && prompt(input, 1).Err? && prompt(input, 2).Ok?
    ensures Expected(prompt, input) == Run(Returned(prompt(input, 2).value), 3, 2000)
  {
  }

  /** When every attempt fails the flow throws the third error after three pauses. */
  lemma AllAttemptsFail<Q, V, E>(prompt: (Q, nat) -> Outcome<V, E>, input: Q)
    requires prompt(input, 0).Err? && prompt(input, 1).Err? && prompt(input, 2).Err?
    ensures Expected(prompt, input) == Run(Threw(prompt(input, 2).error), 3, 3000)
  {
  }
}
