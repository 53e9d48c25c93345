/**
 * `retry_connection(max_retries=3, delay=1)`: calls the wrapped function until
 * it returns, retrying only on connection-type exceptions, and gives up with a
 * plain `Exception("... Max retries reached ...")` after `max_retries` caught
 * failures. The wrapped function is the input `call`: `call(k)` is what its
 * k-th invocation (counted from 0) does. The sleep between attempts is not
 * modelled; `delay` only appears in the log text.
 */
module RetryConnection {
  import opened Effects
  import Text

  const DefaultMaxRetries := 3
  const DefaultDelay := 1

  /** The exception classes of the `except` clause: ConnectionError, TimeoutError,
      RequestException, SMTPException and OSError, with OSError's subclasses. */
  predicate Retryable(c: ExceptionClass) {
    c in {ConnectionErrorClass, TimeoutErrorClass, RequestExceptionClass,
          SMTPExceptionClass, OSErrorClass, FileNotFoundErrorClass}
  }

  const AttemptPrefix := "retry_connection Connection failed (attempt "
  const RetryingIn := "). Retrying in "
  const SecondsSuffix := " seconds..."
  const GiveUpPrefix := "retry_connection. Max retries reached. Connection failed. max_retries: "
  const DelayLabel := ", delay: "

  function WarningText(retries: int, maxRetries: int, delay: int): string {
    AttemptPrefix + Text.IntToString(retries) + "/"
      + Text.IntToString(maxRetries) + RetryingIn + Text.IntToString(delay) + SecondsSuffix
  }

  function GiveUpText(maxRetries: int, delay: int): string {
    GiveUpPrefix + Text.IntToString(maxRetries) + DelayLabel + Text.IntToString(delay)
  }

  /** What the wrapper did: its outcome, how often it invoked the function, and its own log lines. */
  datatype Run<+T> = Run(outcome: Attempt<T>, calls: nat, log: seq<Event>)

  /** The wrapper's behaviour once `retries` failures have been caught. */
  function Retry<T>(maxRetries: int, delay: int, call: nat -> Attempt<T>, retries: nat): Run<T>
    decreases maxRetries - retries
  {
    if retries >= maxRetries then
      var msg := GiveUpText(maxRetries, delay);
      Run(Raises(Exception(PlainException, msg)), retries, [Error(msg)])
    else
      match call(retries)
      case Returns(v) => Run(Returns(v), retries + 1, [])
      case Raises(e) =>
        if Retryable(e.cls) then
          var rest := Retry(maxRetries, delay, call, retries + 1);
          Run(rest.outcome, rest.calls, [Warning(WarningText(retries + 1, maxRetries, delay))] + rest.log)
        else Run(Raises(e), retries + 1, [])
  }

  /** The wrapper itself: a counted loop over the attempts that returns early on success. */
  method RetryConnection<T>(maxRetries: int, delay: int, call: nat -> Attempt<T>) returns (r: Run<T>)
    ensures r == Retry(maxRetries, delay, call, 0)
  {
    var retries: nat := 0;
    var log: seq<Event> := [];
    while retries < maxRetries
      invariant Retry(maxRetries, delay, call, 0)
        == var rest := Retry(maxRetries, delay, call, retries); Run(rest.outcome, rest.calls, log + rest.log)
      decreases maxRetries - retries
    {
      var attempt := call(retries);
      if attempt.Returns? {
        return Run(attempt, retries + 1, log);
      }
      if !Retryable(attempt.exc.cls) {
        return Run(attempt, retries + 1, log);
      }
      retries := retries + 1;
      log := log + [Warning(WarningText(retries, maxRetries, delay))];
    }
    var msg := GiveUpText(maxRetries, delay);
    log := log + [Error(msg)];
    r := Run(Raises(Exception(PlainException, msg)), retries, log);
  }

  /** True when invocations `from` up to (excluding) `k` all raised a retryable exception. */
  ghost predicate RetryableFailures<T>(call: nat -> Attempt<T>, from: nat, k: nat) {
    forall j: nat :: from <= j < k ==> call(j).Raises? && Retryable(call(j).exc.cls)
  }

  /** One caught failure: the run is the rest of the run with one warning line in front. */
  lemma RetryStep<T>(maxRetries: int, delay: int, call: nat -> Attempt<T>, retries: nat)
    requires retries < maxRetries && call(retries).Raises? && Retryable(call(retries).exc.cls)
    ensures var r := Retry(maxRetries, delay, call, retries);
      var rest := Retry(maxRetries, delay, call, retries + 1);
      r.outcome == rest.outcome && r.calls == rest.calls
      && Count(r.log, WarningKind) == Count(rest.log, WarningKind) + 1
      && Count(r.log, ErrorKind) == Count(rest.log, ErrorKind)
      && Count(r.log, AdminKind) == Count(rest.log, AdminKind)
      && Count(r.log, InfoKind) == Count(rest.log, InfoKind)
  {
    var r := Retry(maxRetries, delay, call, retries);
    var rest := Retry(maxRetries, delay, call, retries + 1);
    var w := [Warning(WarningText(retries + 1, maxRetries, delay))];
    assert r.log == w + rest.log;
    CountAppend(w, rest.log, WarningKind);
    CountAppend(w, rest.log, ErrorKind);
    CountAppend(w, rest.log, AdminKind);
    CountAppend(w, rest.log, InfoKind);
    CountOne(w[0], WarningKind);
    CountOne(w[0], ErrorKind);
    CountOne(w[0], AdminKind);
    CountOne(w[0], InfoKind);
  }

  /** The wrapper never invokes the function more than `max_retries` times. */
  lemma {:induction false} RetryCallsBounded<T>(maxRetries: int, delay: int, call: nat -> Attempt<T>, retries: nat)
    ensures var r := Retry(maxRetries, delay, call, retries);
      r.calls >= retries && (retries <= maxRetries ==> r.calls <= maxRetries)
      && (retries >= maxRetries ==> r.calls == retries)
    decreases maxRetries - retries
  {
    if retries < maxRetries && call(retries).Raises? && Retryable(call(retries).exc.cls) {
      RetryCallsBounded(maxRetries, delay, call, retries + 1);
    }
  }

  /**
   * Success after k caught failures: the value is returned, the function was invoked
   * k + 1 times, and the wrapper logged k warnings and no error.
   */
  lemma {:induction false} RetrySucceedsAfterFailures<T>(maxRetries: int, delay: int, call: nat -> Attempt<T>, retries: nat, k: nat)
    requires retries <= k < maxRetries
    requires RetryableFailures(call, retries, k) && call(k).Returns?
    ensures var r := Retry(maxRetries, delay, call, retries);
      r.outcome == call(k) && r.calls == k + 1
      && Count(r.log, WarningKind) == k - retries && Count(r.log, ErrorKind) == 0
    decreases k - retries
  {
    if retries < k {
      RetrySucceedsAfterFailures(maxRetries, delay, call, retries + 1, k);
      RetryStep(maxRetries, delay, call, retries);
    }
  }

  /**
   * Exhaustion: when every one of the `max_retries` invocations raised a
   * retryable exception, the wrapper logs `max_retries` warnings and one error
   * and raises "Max retries reached".
   */
  lemma {:induction false} RetryExhausted<T>(maxRetries: int, delay: int, call: nat -> Attempt<T>, retries: nat)
    requires retries <= maxRetries
    requires RetryableFailures(call, retries, maxRetries)
    ensures var r := Retry(maxRetries, delay, call, retries);
      r.outcome == Raises(Exception(PlainException, GiveUpText(maxRetries, delay)))
      && r.calls == maxRetries
      && Count(r.log, WarningKind) == maxRetries - retries && Count(r.log, ErrorKind) == 1
    decreases maxRetries - retries
  {
    var r := Retry(maxRetries, delay, call, retries);
    if retries == maxRetries {
      assert r.log == [Error(GiveUpText(maxRetries, delay))];
      CountOne(r.log[0], WarningKind);
      CountOne(r.log[0], ErrorKind);
    } else {
      RetryExhausted(maxRetries, delay, call, retries + 1);
      RetryStep(maxRetries, delay, call, retries);
    }
  }

  /** With `max_retries <= 0` the function is never invoked and the wrapper raises. */
  lemma RetryNoAttempts<T>(maxRetries: int, delay: int, call: nat -> Attempt<T>)
    requires maxRetries <= 0
    ensures var r := Retry(maxRetries, delay, call, 0);
      r.calls == 0 && r.outcome == Raises(Exception(PlainException, GiveUpText(maxRetries, delay)))
  {
  }

  /** An exception outside the caught classes propagates at once, without a further attempt. */
  lemma {:induction false} RetryPropagatesOthers<T>(maxRetries: int, delay: int, call: nat -> Attempt<T>, retries: nat, k: nat)
    requires retries <= k < maxRetries
    requires RetryableFailures(call, retries, k) && call(k).Raises? && !Retryable(call(k).exc.cls)
    ensures var r := Retry(maxRetries, delay, call, retries);
      r.outcome == call(k) && r.calls == k + 1 && Count(r.log, WarningKind) == k - retries
    decreases k - retries
  {
    if retries < k {
      RetryPropagatesOthers(maxRetries, delay, call, retries + 1, k);
      RetryStep(maxRetries, delay, call, retries);
    }
  }
}
