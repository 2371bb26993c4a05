/** The retry_on_error decorator of the operator: a bounded loop of attempts
    whose exit depends on the class of the error. The wrapped call is an
    oracle: attempts[k] is what the k-th call produced. Sleeping is recorded
    as the list of delays, in seconds, in the order they are slept. */
module Retry {
  import opened Wrappers

  datatype RetryConfig = RetryConfig(maxRetries: nat, delay: nat)

  /** RETRY_CONFIG of the handlers module, with its fallback for any other
      operation name. */
  function HandlersRetryConfig(operation: string): (c: RetryConfig)
    ensures operation !in {"create", "delete", "update", "get"} ==> c == RetryConfig(3, 1)
  {
    if operation == "create" then RetryConfig(3, 2)
    else if operation == "delete" then RetryConfig(5, 1)
    else if operation == "update" then RetryConfig(3, 2)
    else if operation == "get" then RetryConfig(3, 1)
    else RetryConfig(3, 1)
  }

  /** The default configuration file's retry section: per-operation entries
      and a default entry. */
  const DefaultRetrySection: map<string, RetryConfig> := map[
    "create" := RetryConfig(3, 2),
    "delete" := RetryConfig(5, 1),
    "update" := RetryConfig(3, 2),
    "get" := RetryConfig(3, 1)
  ]
  const DefaultRetryEntry := RetryConfig(3, 1)

  /** get_retry_config(operation) over the default configuration, as read by
      the retry decorator of the MLJob handler module. */
  function ConfiguredRetry(operation: string): RetryConfig {
    if operation in DefaultRetrySection then DefaultRetrySection[operation] else DefaultRetryEntry
  }

  /** Both generations of the decorator retry every operation the same way;
      'patch' (used for the project usage update) falls back to 3 attempts, 1 s. */
  lemma RetryConfigsAgree(operation: string)
    ensures ConfiguredRetry(operation) == HandlersRetryConfig(operation)
    ensures ConfiguredRetry("patch") == RetryConfig(3, 1)
  {
  }

  /** An attempt the loop tries again after: a 409 ApiException or any
      exception that is not an ApiException. */
  predicate Retryable<T>(c: Call<T>) {
    c.Raised? || c.IsConflict()
  }

  /** The texts of the two exceptions the wrapper raises itself; the str()
      of the ApiException they quote is not part of the model. */
  const NOT_FOUND_TEXT := "resource does not exist"
  const CONFLICT_TEXT := "resource conflict persisted after every retry"
  /** `raise None` (a loop of zero attempts) raises a TypeError. */
  const RAISE_NONE_TEXT := "exceptions must derive from BaseException"

  /** How the decorated call ended, how many times it called the wrapped
      function, and the delays it slept. The outcome is itself a Call: the
      value returned or the exception raised to the caller. */
  datatype Run<T> = Run(outcome: Call<T>, calls: nat, sleeps: seq<nat>)

  /** The delays slept before retries 1..n: delay * 1, delay * 2, ... */
  function LinearDelays(delay: nat, n: nat): (d: seq<nat>)
    ensures |d| == n
    ensures forall i :: 0 <= i < n ==> d[i] == delay * (i + 1)
  {
    if n == 0 then [] else LinearDelays(delay, n - 1) + [delay * n]
  }

  /** The outcome of an attempt that ends the loop at once: a returned
      value, a 404 turned into ResourceNotFoundError, or another
      ApiException re-raised. */
  function Decisive<T>(c: Call<T>): (r: Call<T>)
    requires !Retryable(c)
    ensures c.Ok? ==> r == c
    ensures c.IsNotFound() ==> r == Raised(ResourceNotFound, NOT_FOUND_TEXT)
    ensures c.ApiError? && c.status != NOT_FOUND ==> r == c
  {
    match c
    case Ok(v) => Ok(v)
    case ApiError(status) =>
      if status == NOT_FOUND then Raised(ResourceNotFound, NOT_FOUND_TEXT) else ApiError(status)
  }

  /** What is raised after the loop runs out, from the last exception seen:
      a 409 becomes ResourceConflictError, anything else is re-raised. */
  function Exhausted<T>(last: Option<Call<T>>): Call<T> {
    match last
    case None => Raised(Other, RAISE_NONE_TEXT)
    case Some(c) => if c.IsConflict() then Raised(ResourceConflict, CONFLICT_TEXT) else c
  }

  /** The loop from attempt k on, given the last exception recorded so far. */
  function RetryFrom<T>(attempts: seq<Call<T>>, maxRetries: nat, delay: nat, k: nat, last: Option<Call<T>>): Run<T>
    requires k <= maxRetries <= |attempts|
    decreases maxRetries - k
  {
    if k == maxRetries then Run(Exhausted(last), k, [])
    else if Retryable(attempts[k]) then
      var rest := RetryFrom(attempts, maxRetries, delay, k + 1, Some(attempts[k]));
      rest.(sleeps := [delay * (k + 1)] + rest.sleeps)
    else Run(Decisive(attempts[k]), k + 1, [])
  }

  function RetrySpec<T>(attempts: seq<Call<T>>, maxRetries: nat, delay: nat): Run<T>
    requires maxRetries <= |attempts|
  {
    RetryFrom(attempts, maxRetries, delay, 0, None)
  }

  /** The decorator's wrapper: tries the call up to maxRetries times. */
  method RetryOnError<T>(attempts: seq<Call<T>>, maxRetries: nat, delay: nat)
    returns (outcome: Call<T>, calls: nat, sleeps: seq<nat>)
    requires maxRetries <= |attempts|
    ensures Run(outcome, calls, sleeps) == RetrySpec(attempts, maxRetries, delay)
  {
    var last: Option<Call<T>> := None;
    var attempt := 0;
    sleeps := [];
    while attempt < maxRetries
      invariant 0 <= attempt <= maxRetries
      invariant sleeps == LinearDelays(delay, attempt)
      invariant attempt == 0 ==> last == None
      invariant attempt > 0 ==> last == Some(attempts[attempt - 1])
      invariant forall j :: 0 <= j < attempt ==> Retryable(attempts[j])
      invariant RetrySpec(attempts, maxRetries, delay) ==
                RetryFrom(attempts, maxRetries, delay, attempt, last).(sleeps := sleeps + RetryFrom(attempts, maxRetries, delay, attempt, last).sleeps)
    {
      var result := attempts[attempt];
      match result {
        case Ok(v) =>
          return Ok(v), attempt + 1, sleeps;
        case ApiError(status) =>
          last := Some(result);
          if status == CONFLICT {
            sleeps := sleeps + [delay * (attempt + 1)];
          } else if status == NOT_FOUND {
            return Raised(ResourceNotFound, NOT_FOUND_TEXT), attempt + 1, sleeps;
          } else {
            return ApiError(status), attempt + 1, sleeps;
          }
        case Raised(_, _) =>
          last := Some(result);
          sleeps := sleeps + [delay * (attempt + 1)];
      }
      attempt := attempt + 1;
    }
    outcome, calls := Exhausted(last), maxRetries;
  }

  /** How the wrapper's call `func(*args, logger=logger, **kwargs)` binds
      to the wrapped function: the function takes a `logger` keyword and
      the caller did not also pass one by position (Binds), the function
      has no `logger` parameter at all (NoLoggerParameter), or the caller
      passed its logger by position as well (LoggerTwice). The last two
      raise a TypeError on every attempt, before the body runs. */
  datatype Binding = Binds | NoLoggerParameter | LoggerTwice

  /** str() of that TypeError for a function called `name`. */
  function BindingError(name: string, b: Binding): string
    requires b != Binds
  {
    if b == NoLoggerParameter then name + "() got an unexpected keyword argument 'logger'"
    else name + "() got multiple values for argument 'logger'"
  }

  /** What each attempt of the wrapper produces: the body's answer when the
      call binds, the TypeError otherwise. */
  function Bound<T>(name: string, b: Binding, answers: seq<Call<T>>): (s: seq<Call<T>>)
    ensures |s| == |answers|
    ensures b == Binds ==> s == answers
  {
    if b == Binds then answers else seq(|answers|, k => Raised(Other, BindingError(name, b)))
  }

  /** A call that does not bind never reaches the body: the TypeError is
      retried like any other exception, maxRetries times with the linear
      delays, and is raised at the end. */
  lemma {:induction false} UnboundCallExhausts<T>(name: string, b: Binding, answers: seq<Call<T>>, maxRetries: nat, delay: nat)
    requires b != Binds && 0 < maxRetries <= |answers|
    ensures RetrySpec(Bound(name, b, answers), maxRetries, delay) ==
            Run(Raised(Other, BindingError(name, b)), maxRetries, LinearDelays(delay, maxRetries))
  {
    AllAttemptsRetried(Bound(name, b, answers), maxRetries, delay);
  }

  /** Whatever function the decorator wraps: it is called at most
      maxRetries times, the sleeps are a prefix of the linear schedule, and
      a call that does not bind ends in its TypeError. */
  lemma WrapperBounds<T>(name: string, b: Binding, answers: seq<Call<T>>, maxRetries: nat, delay: nat)
    requires 0 < maxRetries <= |answers|
    ensures RetrySpec(Bound(name, b, answers), maxRetries, delay).calls <= maxRetries
    ensures RetrySpec(Bound(name, b, answers), maxRetries, delay).sleeps ==
            LinearDelays(delay, |RetrySpec(Bound(name, b, answers), maxRetries, delay).sleeps|)
    ensures b != Binds ==> RetrySpec(Bound(name, b, answers), maxRetries, delay).outcome == Raised(Other, BindingError(name, b))
  {
    RetryBounds(Bound(name, b, answers), maxRetries, delay);
    if b != Binds {
      UnboundCallExhausts(name, b, answers, maxRetries, delay);
    }
  }

  /** The first attempt that is not retried decides the outcome: the call is
      made exactly k + 1 times and k linear delays are slept. */
  lemma {:induction false} FirstDecisiveAttempt<T>(attempts: seq<Call<T>>, maxRetries: nat, delay: nat, k: nat)
    requires k < maxRetries <= |attempts|
    requires forall j :: 0 <= j < k ==> Retryable(attempts[j])
    requires !Retryable(attempts[k])
    ensures RetrySpec(attempts, maxRetries, delay) == Run(Decisive(attempts[k]), k + 1, LinearDelays(delay, k))
  {
    DecisiveFrom(attempts, maxRetries, delay, k, 0, None);
  }

  lemma {:induction false} DecisiveFrom<T>(attempts: seq<Call<T>>, maxRetries: nat, delay: nat, k: nat, i: nat, last: Option<Call<T>>)
    requires i <= k < maxRetries <= |attempts|
    requires forall j :: i <= j < k ==> Retryable(attempts[j])
    requires !Retryable(attempts[k])
    ensures RetryFrom(attempts, maxRetries, delay, i, last) ==
            Run(Decisive(attempts[k]), k + 1, LinearDelays(delay, k)[i..])
    decreases k - i
  {
    if i < k {
      DecisiveFrom(attempts, maxRetries, delay, k, i + 1, Some(attempts[i]));
      assert LinearDelays(delay, k)[i..] == [delay * (i + 1)] + LinearDelays(delay, k)[i + 1..];
    }
  }

  /** When every attempt fails in a retryable way, the call is made
      maxRetries times, a delay is slept after each attempt (the last one
      included), and the last error decides what is raised. */
  lemma {:induction false} AllAttemptsRetried<T>(attempts: seq<Call<T>>, maxRetries: nat, delay: nat)
    requires maxRetries <= |attempts|
    requires forall j :: 0 <= j < maxRetries ==> Retryable(attempts[j])
    ensures RetrySpec(attempts, maxRetries, delay) ==
            Run(Exhausted(if maxRetries == 0 then None else Some(attempts[maxRetries - 1])),
                maxRetries, LinearDelays(delay, maxRetries))
  {
    RetriedFrom(attempts, maxRetries, delay, 0, None);
  }

  lemma {:induction false} RetriedFrom<T>(attempts: seq<Call<T>>, maxRetries: nat, delay: nat, i: nat, last: Option<Call<T>>)
    requires i <= maxRetries <= |attempts|
    requires forall j :: i <= j < maxRetries ==> Retryable(attempts[j])
    requires i == 0 ==> last == None
    requires i > 0 ==> last == Some(attempts[i - 1]) && Retryable(attempts[i - 1])
    ensures RetryFrom(attempts, maxRetries, delay, i, last) ==
            Run(Exhausted(if maxRetries == 0 then None else Some(attempts[maxRetries - 1])),
                maxRetries, LinearDelays(delay, maxRetries)[i..])
    decreases maxRetries - i
  {
    if i < maxRetries {
      RetriedFrom(attempts, maxRetries, delay, i + 1, Some(attempts[i]));
      assert LinearDelays(delay, maxRetries)[i..] ==
             [delay * (i + 1)] + LinearDelays(delay, maxRetries)[i + 1..];
    }
  }

  /** The wrapped function is never called more than maxRetries times, and
      every delay slept is delay * (attempt number). */
  lemma {:induction false} RetryBounds<T>(attempts: seq<Call<T>>, maxRetries: nat, delay: nat)
    requires maxRetries <= |attempts|
    ensures RetrySpec(attempts, maxRetries, delay).calls <= maxRetries
    ensures RetrySpec(attempts, maxRetries, delay).sleeps ==
            LinearDelays(delay, |RetrySpec(attempts, maxRetries, delay).sleeps|)
    ensures |RetrySpec(attempts, maxRetries, delay).sleeps| <= RetrySpec(attempts, maxRetries, delay).calls
  {
    if k :| 0 <= k < maxRetries && !Retryable(attempts[k]) && forall j :: 0 <= j < k ==> Retryable(attempts[j]) {
      FirstDecisiveAttempt(attempts, maxRetries, delay, k);
    } else {
      forall j | 0 <= j < maxRetries ensures Retryable(attempts[j]) {
        FirstNonRetryable(attempts, maxRetries, j);
      }
      AllAttemptsRetried(attempts, maxRetries, delay);
    }
  }

  /** If some attempt below n is not retryable, there is a first one. */
  lemma FirstNonRetryable<T>(attempts: seq<Call<T>>, n: nat, j: nat)
    requires n <= |attempts| && j < n
    requires !exists k :: 0 <= k < n && !Retryable(attempts[k]) && forall i :: 0 <= i < k ==> Retryable(attempts[i])
    ensures Retryable(attempts[j])
    decreases j
  {
    forall i | 0 <= i < j ensures Retryable(attempts[i]) {
      FirstNonRetryable(attempts, n, i);
    }
  }

  /** A returned value is the result of the last call made, and every call
      before it failed in a retryable way. */
  lemma {:induction false} ReturnedIsLastCall<T>(attempts: seq<Call<T>>, maxRetries: nat, delay: nat)
    requires maxRetries <= |attempts|
    requires RetrySpec(attempts, maxRetries, delay).outcome.Ok?
    ensures 0 < RetrySpec(attempts, maxRetries, delay).calls <= maxRetries
    ensures attempts[RetrySpec(attempts, maxRetries, delay).calls - 1] == RetrySpec(attempts, maxRetries, delay).outcome
    ensures forall j :: 0 <= j < RetrySpec(attempts, maxRetries, delay).calls - 1 ==> Retryable(attempts[j])
  {
    ReturnedFrom(attempts, maxRetries, delay, 0, None);
  }

  lemma {:induction false} ReturnedFrom<T>(attempts: seq<Call<T>>, maxRetries: nat, delay: nat, i: nat, last: Option<Call<T>>)
    requires i <= maxRetries <= |attempts|
    requires last.Some? ==> Retryable(last.value)
    requires RetryFrom(attempts, maxRetries, delay, i, last).outcome.Ok?
    ensures i < RetryFrom(attempts, maxRetries, delay, i, last).calls <= maxRetries
    ensures attempts[RetryFrom(attempts, maxRetries, delay, i, last).calls - 1] ==
            RetryFrom(attempts, maxRetries, delay, i, last).outcome
    ensures forall j :: i <= j < RetryFrom(attempts, maxRetries, delay, i, last).calls - 1 ==> Retryable(attempts[j])
    decreases maxRetries - i
  {
    if i == maxRetries {
      assert false;
    } else if Retryable(attempts[i]) {
      ReturnedFrom(attempts, maxRetries, delay, i + 1, Some(attempts[i]));
    }
  }
}
