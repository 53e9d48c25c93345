/**
 * The shape both `send_email` and `send_telegram` share: a body that makes
 * one transport call, logs one info line and returns `True`, decorated with
 * `retry_connection()` and, outside it, `exception_handler(default_return=False)`.
 * `transport(k)` is what the k-th transport call does.
 */
module GuardedSend {
  import opened Effects
  import RetryConnection
  import ExceptionHandler

  /** The retry wrapper does not copy the wrapped function's name, so the handler reports this one. */
  const WrapperName := "retry_connection_wrapper"

  /** `exception_handler(default_return=False)`. */
  function FalseConfig<T>(none: T): ExceptionHandler.Config<T> {
    ExceptionHandler.Config(ExceptionHandler.PlainReturn(none), false)
  }

  /** What one decorated send did: its boolean result, how often it reached the transport, its trace. */
  datatype SendResult = SendResult(ok: bool, transportCalls: nat, log: seq<Event>)

  /** The undecorated body, invocation by invocation. */
  function SendBody(transport: nat -> Attempt<()>): nat -> Attempt<bool> {
    (k: nat) => match transport(k) case Returns(_) => Returns(true) case Raises(e) => Raises(e)
  }

  /**
   * The decorated send. It is `True` exactly when the retry loop returned;
   * a `True` logs the one info line and a `False` comes with exactly one
   * escalation instead.
   */
  function Send(args: seq<ExceptionHandler.Value>, kwargs: map<string, ExceptionHandler.Value>,
                sentLine: string, transport: nat -> Attempt<()>): (r: SendResult)
    ensures var run := RetryConnection.Retry(3, 1, SendBody(transport), 0);
      (r.ok <==> run.outcome.Returns?) && r.transportCalls == run.calls && r.transportCalls <= 3
      && Count(r.log, AdminKind) == (if r.ok then 0 else 1)
      && Count(r.log, InfoKind) == (if r.ok then 1 else 0)
      && Count(r.log, WarningKind) == Count(run.log, WarningKind)
  {
    var run := RetryConnection.Retry(3, 1, SendBody(transport), 0);
    RetryConnection.RetryCallsBounded(3, 1, SendBody(transport), 0);
    RetryLogKinds(3, 1, SendBody(transport), 0);
    SendBodyReturnsTrue(transport, 0);
    var h := ExceptionHandler.Handle(FalseConfig(false), args, kwargs, WrapperName, run.outcome);
    var ok := run.outcome.Returns?;
    var sentLog := if ok then [Info(sentLine)] else [];
    TraceCounts(run.log, sentLog, h.1, ok, sentLine);
    SendResult(h.0 == ExceptionHandler.Returned(true), run.calls, run.log + sentLog + h.1)
  }

  /** How the three parts of a send's trace add up: the retry log, the info line, the escalation. */
  lemma TraceCounts(runLog: seq<Event>, sentLog: seq<Event>, handled: seq<Event>, ok: bool, sentLine: string)
    requires Count(runLog, AdminKind) == 0 && Count(runLog, InfoKind) == 0
    requires ok ==> sentLog == [Info(sentLine)] && handled == []
    requires !ok ==> sentLog == [] && Count(handled, AdminKind) == 1
    requires Count(handled, WarningKind) == 0 && Count(handled, InfoKind) == 0
    ensures var log := runLog + sentLog + handled;
      Count(log, AdminKind) == (if ok then 0 else 1) && Count(log, InfoKind) == (if ok then 1 else 0)
      && Count(log, WarningKind) == Count(runLog, WarningKind)
  {
    CountAppend(runLog, sentLog, AdminKind);
    CountAppend(runLog, sentLog, WarningKind);
    CountAppend(runLog, sentLog, InfoKind);
    CountAppend(runLog + sentLog, handled, AdminKind);
    CountAppend(runLog + sentLog, handled, WarningKind);
    CountAppend(runLog + sentLog, handled, InfoKind);
    if ok {
      CountOne(Info(sentLine), AdminKind);
      CountOne(Info(sentLine), WarningKind);
      CountOne(Info(sentLine), InfoKind);
    }
  }

  /** The send body only ever returns `True`. */
  lemma {:induction false} SendBodyReturnsTrue(transport: nat -> Attempt<()>, retries: nat)
    ensures var run := RetryConnection.Retry(3, 1, SendBody(transport), retries);
      run.outcome.Returns? ==> run.outcome.value
    decreases 3 - retries
  {
    if retries < 3 && transport(retries).Raises? && RetryConnection.Retryable(transport(retries).exc.cls) {
      SendBodyReturnsTrue(transport, retries + 1);
    }
  }

  /** The retry wrapper logs warnings and errors only: no info line, no escalation. */
  lemma {:induction false} RetryLogKinds<T>(maxRetries: int, delay: int, call: nat -> Attempt<T>, retries: nat)
    ensures var log := RetryConnection.Retry(maxRetries, delay, call, retries).log;
      Count(log, AdminKind) == 0 && Count(log, InfoKind) == 0
    decreases maxRetries - retries
  {
    var r := RetryConnection.Retry(maxRetries, delay, call, retries);
    if retries >= maxRetries {
      CountOne(r.log[0], AdminKind);
      CountOne(r.log[0], InfoKind);
    } else if call(retries).Raises? && RetryConnection.Retryable(call(retries).exc.cls) {
      RetryLogKinds(maxRetries, delay, call, retries + 1);
      RetryConnection.RetryStep(maxRetries, delay, call, retries);
    }
  }

  /** The transport's first call returns: `True`, one transport call, and the info line is the whole trace. */
  lemma SendFirstTry(args: seq<ExceptionHandler.Value>, kwargs: map<string, ExceptionHandler.Value>,
                     sentLine: string, transport: nat -> Attempt<()>)
    requires transport(0).Returns?
    ensures var r := Send(args, kwargs, sentLine, transport);
      r.ok && r.transportCalls == 1 && r.log == [Info(sentLine)]
  {
    var run := RetryConnection.Retry(3, 1, SendBody(transport), 0);
    assert run == RetryConnection.Run(Returns(true), 1, []);
  }

  predicate ConnectionFailures(transport: nat -> Attempt<()>, k: nat) {
    forall j: nat :: j < k ==> transport(j).Raises? && RetryConnection.Retryable(transport(j).exc.cls)
  }

  lemma BodyFailures(transport: nat -> Attempt<()>, k: nat)
    requires ConnectionFailures(transport, k)
    ensures RetryConnection.RetryableFailures(SendBody(transport), 0, k)
  {
    var body := SendBody(transport);
    forall j: nat | 0 <= j < k ensures body(j).Raises? && RetryConnection.Retryable(body(j).exc.cls) {
      assert transport(j).Raises?;
    }
  }

  /** Success after k connection-type failures: `True`, k + 1 transport calls, k warnings, no escalation. */
  lemma SendRetries(args: seq<ExceptionHandler.Value>, kwargs: map<string, ExceptionHandler.Value>,
                    sentLine: string, transport: nat -> Attempt<()>, k: nat)
    requires k < 3 && ConnectionFailures(transport, k) && transport(k).Returns?
    ensures var r := Send(args, kwargs, sentLine, transport);
      r.ok && r.transportCalls == k + 1 && Count(r.log, WarningKind) == k && Count(r.log, AdminKind) == 0
  {
    BodyFailures(transport, k);
    RetryConnection.RetrySucceedsAfterFailures(3, 1, SendBody(transport), 0, k);
  }

  /** Three connection-type failures: `False` after three transport calls, three warnings, one escalation. */
  lemma SendGivesUp(args: seq<ExceptionHandler.Value>, kwargs: map<string, ExceptionHandler.Value>,
                    sentLine: string, transport: nat -> Attempt<()>)
    requires ConnectionFailures(transport, 3)
    ensures var r := Send(args, kwargs, sentLine, transport);
      !r.ok && r.transportCalls == 3 && Count(r.log, WarningKind) == 3 && Count(r.log, AdminKind) == 1
  {
    BodyFailures(transport, 3);
    RetryConnection.RetryExhausted(3, 1, SendBody(transport), 0);
  }

  /**
   * Any other exception, after k connection-type failures: `False` at once
   * after k + 1 transport calls, k warnings, no info line, one escalation.
   */
  lemma SendOtherFailure(args: seq<ExceptionHandler.Value>, kwargs: map<string, ExceptionHandler.Value>,
                         sentLine: string, transport: nat -> Attempt<()>, k: nat)
    requires k < 3 && ConnectionFailures(transport, k)
    requires transport(k).Raises? && !RetryConnection.Retryable(transport(k).exc.cls)
    ensures var r := Send(args, kwargs, sentLine, transport);
      !r.ok && r.transportCalls == k + 1 && Count(r.log, WarningKind) == k
      && Count(r.log, AdminKind) == 1 && Count(r.log, InfoKind) == 0
  {
    BodyFailures(transport, k);
    assert SendBody(transport)(k).Raises? && !RetryConnection.Retryable(SendBody(transport)(k).exc.cls);
    RetryConnection.RetryPropagatesOthers(3, 1, SendBody(transport), 0, k);
  }
}
