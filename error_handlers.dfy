/**
 * The frontend's error handlers: normalising any caught value to an `ApiError`, the constraint
 * variant of it, the retry wrapper with exponential backoff, and the promise wrapper. A call of
 * the wrapped function is modelled by its outcome on each attempt; the timers are modelled by the
 * list of delays they wait.
 */
module ErrorHandlers {
  import opened Wrappers
  import opened ErrorTypes

  const UNEXPECTED_MESSAGE := "An unexpected error occurred"

  /** `error instanceof TypeError && error.message === 'Failed to fetch'`. */
  predicate IsFailedFetch(v: Thrown) {
    v.Obj? && v.errorClass == Some(TypeErrorClass) && v.message == "Failed to fetch"
  }

  /** `handleError`. */
  function HandleError(v: Thrown): (e: ApiError)
    ensures IsApiError(v) ==> e == AsApiError(v)
    ensures !IsApiError(v) && v.Obj? && v.errorClass.Some? ==> e == ApiError(UNKNOWN_ERROR, v.message, None)
    ensures !IsApiError(v) && !(v.Obj? && v.errorClass.Some?) ==> e == ApiError(UNKNOWN_ERROR, UNEXPECTED_MESSAGE, None)
  {
    if IsApiError(v) then AsApiError(v)
    else if v.Obj? && v.errorClass.Some? then ApiError(UNKNOWN_ERROR, v.message, None)
    else if IsFailedFetch(v) then
      ApiError(NETWORK_ERROR, "Network connection failed", None)
    else ApiError(UNKNOWN_ERROR, UNEXPECTED_MESSAGE, None)
  }

  /** The `NETWORK_ERROR` branch is dead: a `TypeError` is an `Error`, so the branch before it
      already returns. A network error code comes out only when it went in inside an `ApiError`. */
  lemma NetworkBranchUnreachable(v: Thrown)
    ensures HandleError(v).code == NETWORK_ERROR ==> IsApiError(v) && v.code == NETWORK_ERROR
  {
  }

  /** `handleError` as its network branch evidently means it: the failed-fetch `TypeError` is
      recognised before the generic `Error` case can claim it. */
  function HandleErrorIntended(v: Thrown): (e: ApiError)
    ensures !IsApiError(v) && IsFailedFetch(v) ==> e == ApiError(NETWORK_ERROR, "Network connection failed", None)
    ensures IsApiError(v) || !IsFailedFetch(v) ==> e == HandleError(v)
  {
    if IsApiError(v) then AsApiError(v)
    else if IsFailedFetch(v) then ApiError(NETWORK_ERROR, "Network connection failed", None)
    else if v.Obj? && v.errorClass.Some? then ApiError(UNKNOWN_ERROR, v.message, None)
    else ApiError(UNKNOWN_ERROR, UNEXPECTED_MESSAGE, None)
  }

  /** The corrected handler maps `new TypeError('Failed to fetch')` to the network error; the one
      as written maps it to a generic error with the fetch message. */
  lemma FailedFetchClassified()
    ensures HandleErrorIntended(Obj(false, false, "", "Failed to fetch", Some(TypeErrorClass), None))
      == ApiError(NETWORK_ERROR, "Network connection failed", None)
    ensures HandleError(Obj(false, false, "", "Failed to fetch", Some(TypeErrorClass), None))
      == ApiError(UNKNOWN_ERROR, "Failed to fetch", None)
  {
  }

  /** `handleError` is idempotent: an `ApiError` it returned passes through it unchanged. */
  lemma HandleErrorIdempotent(v: Thrown)
    ensures HandleError(ThrownApiError(HandleError(v))) == HandleError(v)
  {
  }

  const CONSTRAINT_MESSAGE := "Invalid constraint configuration"

  /** `handleConstraintError`: a generic error becomes a constraint violation that keeps the
      normalised error as `details.originalError`; every other code passes through. */
  function HandleConstraintError(v: Thrown): (e: ApiError)
    ensures e.code != UNKNOWN_ERROR
    ensures HandleError(v).code == UNKNOWN_ERROR ==>
      e == ApiError(CONSTRAINT_VIOLATION, CONSTRAINT_MESSAGE, Some(HandleError(v)))
    ensures HandleError(v).code != UNKNOWN_ERROR ==> e == HandleError(v)
  {
    var apiError := HandleError(v);
    if apiError.code == UNKNOWN_ERROR then ApiError(CONSTRAINT_VIOLATION, CONSTRAINT_MESSAGE, Some(apiError))
    else apiError
  }

  // ---------------------------------------------------------------- retry with backoff

  /** What one call of the wrapped function does: resolve with a value or reject with a value. */
  datatype Outcome<T> = Resolves(value: T) | Rejects(error: Thrown)

  /** What a call of the retrying function does: its result, how many times it called the wrapped
      function, and the delays it waited, in order. */
  datatype RetryRun<T> = RetryRun(result: Result<T, ApiError>, calls: nat, delays: seq<int>)

  function Pow2(k: nat): (p: nat)
    ensures p >= 1
  {
    if k == 0 then 1 else 2 * Pow2(k - 1)
  }

  /** The retry decision `createRetryFunction` makes on a rejection: the configuration of the
      normalised error's code. */
  predicate AsWrittenRetryable(v: Thrown) {
    GetErrorConfig(HandleError(v).code).retryable
  }

  /** The run of the retry loop from `attempt` on, `lastError` being the last rejection, under the
      retry decision `retryable`. */
  function RetryFrom<T>(fn: nat -> Outcome<T>, retryable: Thrown -> bool, attempt: nat, maxRetries: int,
                        baseDelay: int, lastError: Thrown): RetryRun<T>
    decreases maxRetries - attempt
  {
    if attempt >= maxRetries then RetryRun(Failure(HandleError(lastError)), 0, [])
    else
      match fn(attempt)
      case Resolves(x) => RetryRun(Success(x), 1, [])
      case Rejects(error) =>
        if !retryable(error) then RetryRun(Failure(HandleError(error)), 1, [])
        else
          var rest := RetryFrom(fn, retryable, attempt + 1, maxRetries, baseDelay, error);
          var wait := if attempt < maxRetries - 1 then [baseDelay * Pow2(attempt)] else [];
          RetryRun(rest.result, rest.calls + 1, wait + rest.delays)
  }

  /** The run of `createRetryFunction(fn, maxRetries, baseDelay)()`; `lastError` starts out
      `undefined`. */
  function RetryCall<T>(fn: nat -> Outcome<T>, maxRetries: int, baseDelay: int): RetryRun<T> {
    RetryFrom(fn, AsWrittenRetryable, 0, maxRetries, baseDelay, Falsy)
  }

  /** The loop of the function `createRetryFunction` returns. */
  method CreateRetryFunction<T>(fn: nat -> Outcome<T>, maxRetries: int, baseDelay: int)
      returns (result: Result<T, ApiError>, calls: nat, delays: seq<int>)
    ensures RetryRun(result, calls, delays) == RetryCall(fn, maxRetries, baseDelay)
  {
    var lastError := Falsy;
    delays := [];
    calls := 0;
    var attempt: nat := 0;
    while attempt < maxRetries
      invariant calls == attempt
      invariant var rest := RetryFrom(fn, AsWrittenRetryable, attempt, maxRetries, baseDelay, lastError);
        RetryRun(rest.result, calls + rest.calls, delays + rest.delays) == RetryCall(fn, maxRetries, baseDelay)
      decreases maxRetries - attempt
    {
      var outcome := fn(attempt);
      calls := calls + 1;
      match outcome {
        case Resolves(x) =>
          assert delays + [] == delays;
          return Success(x), calls, delays;
        case Rejects(error) =>
          ghost var lastError0 := lastError;
          lastError := error;
          var apiError := HandleError(error);
          var config := GetErrorConfig(apiError.code);
          if !config.retryable {
            assert delays + [] == delays;
            return Failure(apiError), calls, delays;
          }
          RetryStep(fn, attempt, maxRetries, baseDelay, lastError0, error, delays);
          if attempt < maxRetries - 1 {
            var delay := baseDelay * Pow2(attempt);
            delays := delays + [delay];
          }
      }
      attempt := attempt + 1;
    }
    assert delays + [] == delays;
    result := Failure(HandleError(lastError));
  }

  /** A retried failure: one call, then the wait, then the rest of the run. */
  lemma RetryStep<T>(fn: nat -> Outcome<T>, attempt: nat, maxRetries: int, baseDelay: int, lastError: Thrown,
                     error: Thrown, delays: seq<int>)
    requires attempt < maxRetries && fn(attempt) == Rejects(error) && AsWrittenRetryable(error)
    ensures var here := RetryFrom(fn, AsWrittenRetryable, attempt, maxRetries, baseDelay, lastError);
      var rest := RetryFrom(fn, AsWrittenRetryable, attempt + 1, maxRetries, baseDelay, error);
      var wait := if attempt < maxRetries - 1 then [baseDelay * Pow2(attempt)] else [];
      here.result == rest.result && here.calls == rest.calls + 1 && delays + here.delays == (delays + wait) + rest.delays
  {
    var rest := RetryFrom(fn, AsWrittenRetryable, attempt + 1, maxRetries, baseDelay, error);
    var wait := if attempt < maxRetries - 1 then [baseDelay * Pow2(attempt)] else [];
    assert delays + (wait + rest.delays) == (delays + wait) + rest.delays;
  }

  /** The wrapped function is called at most `maxRetries` times, and at least once when
      `maxRetries` is positive; there is one wait between consecutive calls and none after the
      last, and the wait before call `k + 2` is `baseDelay · 2^k`. */
  lemma {:induction false} RetryFromShape<T>(fn: nat -> Outcome<T>, retryable: Thrown -> bool, attempt: nat,
                                             maxRetries: int, baseDelay: int, lastError: Thrown)
    ensures var r := RetryFrom(fn, retryable, attempt, maxRetries, baseDelay, lastError);
      && (attempt < maxRetries ==> 1 <= r.calls <= maxRetries - attempt)
      && (attempt >= maxRetries ==> r.calls == 0)
      && |r.delays| == (if r.calls == 0 then 0 else r.calls - 1)
      && forall k :: 0 <= k < |r.delays| ==> r.delays[k] == baseDelay * Pow2(attempt + k)
    decreases maxRetries - attempt
  {
    if attempt < maxRetries && fn(attempt).Rejects? && retryable(fn(attempt).error) {
      var error := fn(attempt).error;
      RetryFromShape(fn, retryable, attempt + 1, maxRetries, baseDelay, error);
      var rest := RetryFrom(fn, retryable, attempt + 1, maxRetries, baseDelay, error);
      var r := RetryFrom(fn, retryable, attempt, maxRetries, baseDelay, lastError);
      if attempt < maxRetries - 1 {
        assert r.delays == [baseDelay * Pow2(attempt)] + rest.delays;
        assert forall k :: 1 <= k < |r.delays| ==> r.delays[k] == rest.delays[k - 1];
      } else {
        assert rest.calls == 0;
      }
    }
  }

  /** The first call that resolves ends the run with its value; a call that rejects with a
      non-retryable error ends it with that error, normalised; when every call rejects with a
      retryable error, all `maxRetries` calls are made and the last error, normalised, is thrown. */
  lemma {:induction false} RetryFromResult<T>(fn: nat -> Outcome<T>, retryable: Thrown -> bool, attempt: nat,
                                              maxRetries: int, baseDelay: int, lastError: Thrown)
    requires attempt < maxRetries
    ensures var r := RetryFrom(fn, retryable, attempt, maxRetries, baseDelay, lastError);
      var last := attempt + r.calls - 1;
      && (forall k :: attempt <= k < last ==> fn(k).Rejects? && retryable(fn(k).error))
      && (r.result.Success? ==> fn(last) == Resolves(r.result.value))
      && (r.result.Failure? ==>
            fn(last).Rejects? && r.result.error == HandleError(fn(last).error)
            && (retryable(fn(last).error) ==> last == maxRetries - 1))
    decreases maxRetries - attempt
  {
    RetryFromShape(fn, retryable, attempt, maxRetries, baseDelay, lastError);
    if fn(attempt).Rejects? && retryable(fn(attempt).error) && attempt + 1 < maxRetries {
      RetryFromResult(fn, retryable, attempt + 1, maxRetries, baseDelay, fn(attempt).error);
    }
  }

  /** With no attempts allowed the wrapped function is never called and the thrown error is the
      normalised `undefined`. */
  lemma NoAttempts<T>(fn: nat -> Outcome<T>, maxRetries: int, baseDelay: int)
    requires maxRetries <= 0
    ensures RetryCall(fn, maxRetries, baseDelay) == RetryRun(Failure(ApiError(UNKNOWN_ERROR, UNEXPECTED_MESSAGE, None)), 0, [])
  {
  }

  /** `new Error(message)`. */
  function PlainErrorOf(message: string): Thrown {
    Obj(false, false, "", message, Some(PlainError), None)
  }

  /** A function that rejects `new Error('Attempt 1')`, then `new Error('Attempt 2')`, and then
      resolves with `'success'`. */
  function TwoFailuresThenSuccess(k: nat): Outcome<string> {
    if k == 0 then Rejects(PlainErrorOf("Attempt 1"))
    else if k == 1 then Rejects(PlainErrorOf("Attempt 2"))
    else Resolves("success")
  }

  /** A function that rejects with `v` on every call. */
  function AlwaysRejects(v: Thrown): nat -> Outcome<string> {
    (k: nat) => Rejects(v)
  }

  /** A plain `Error` is normalised to `UNKNOWN_ERROR`, which is not retryable, so the retrying
      function gives up after the first call: with `fn` rejecting `new Error('Attempt 1')` and
      then `new Error('Attempt 2')` before resolving, it calls `fn` once and throws. */
  lemma PlainErrorNotRetried(maxRetries: int, baseDelay: int)
    requires maxRetries >= 1
    ensures RetryCall(TwoFailuresThenSuccess, maxRetries, baseDelay) == RetryRun(Failure(ApiError(UNKNOWN_ERROR, "Attempt 1", None)), 1, [])
  {
  }

  /** The evident intent: a raw exception, which carries no error code of its own, is retried;
      an `ApiError` is retried exactly when its configured code is retryable. */
  predicate IntendedRetryable(v: Thrown) {
    !IsApiError(v) || GetErrorConfig(v.code).retryable
  }

  /** The retrying function under the intended decision. */
  function IntendedRetryCall<T>(fn: nat -> Outcome<T>, maxRetries: int, baseDelay: int): RetryRun<T> {
    RetryFrom(fn, IntendedRetryable, 0, maxRetries, baseDelay, Falsy)
  }

  /** Under the intended decision two plain errors followed by a success give the success after
      three calls, waiting `baseDelay` and then `2 · baseDelay`. */
  lemma IntendedRetriesPlainErrors(baseDelay: int)
    ensures IntendedRetryCall(TwoFailuresThenSuccess, 3, baseDelay) == RetryRun(Success("success"), 3, [baseDelay, 2 * baseDelay])
  {
  }

  /** Under the intended decision a persistent plain error is tried `maxRetries` times and then
      thrown, normalised; a non-retryable `ApiError` still stops after one call. */
  lemma IntendedGivesUp(maxRetries: int, baseDelay: int, message: string, e: ApiError)
    requires maxRetries >= 1
    requires !GetErrorConfig(e.code).retryable
    ensures var r := IntendedRetryCall(AlwaysRejects(PlainErrorOf(message)), maxRetries, baseDelay);
      r.calls == maxRetries && r.result == Failure(ApiError(UNKNOWN_ERROR, message, None))
    ensures IntendedRetryCall(AlwaysRejects(ThrownApiError(e)), maxRetries, baseDelay) == RetryRun(Failure(e), 1, [])
  {
    var fn := AlwaysRejects(PlainErrorOf(message));
    RetryFromShape(fn, IntendedRetryable, 0, maxRetries, baseDelay, Falsy);
    RetryFromResult(fn, IntendedRetryable, 0, maxRetries, baseDelay, Falsy);
  }

  // ---------------------------------------------------------------- promise wrapper

  /** `withErrorHandling`: the promise's value, or its rejection normalised. */
  function WithErrorHandling<T>(outcome: Outcome<T>): (r: Result<T, ApiError>)
    ensures outcome.Resolves? <==> r.Success?
    ensures outcome.Resolves? ==> r.value == outcome.value
    ensures outcome.Rejects? ==> r.error == HandleError(outcome.error)
  {
    match outcome
    case Resolves(x) => Success(x)
    case Rejects(error) => Failure(HandleError(error))
  }
}
