/**
 * Telegram alerting: `init_telegram_bot` and `send_telegram`, each wrapped in
 * `exception_handler(default_return=False)` over `retry_connection()`, and the
 * cooldown-gated fan-out `filter_users_and_send_alert_telegram`.
 */
module Telegram {
  import opened Wrappers
  import opened Effects
  import opened UserModel
  import Text
  import RetryConnection
  import ExceptionHandler
  import opened GuardedSend

  const SecretName := "TELEGRAM_API_SECRET"

  /** One invocation of the undecorated `init_telegram_bot`: read the secret, build a bot from it. */
  function InitBody(secret: Option<string>): Attempt<Option<string>> {
    match secret
    case None => Raises(Exception(KeyErrorClass, "'" + SecretName + "'"))
    case Some(token) => Returns(Some(token))
  }

  /** The subject of the escalation a missing secret causes: the caught KeyError is reported as a plain Exception. */
  function MissingSecretSubject(): string {
    ExceptionHandler.AdminSubject("", InitBody(None).exc, WrapperName)
  }

  /**
   * `init_telegram_bot()`: the bot (stood for by its token), or `None` in
   * place of `False` once the handler has caught the missing-secret error.
   */
  function InitTelegramBot(secret: Option<string>): (r: (Option<string>, seq<Event>))
    ensures secret.Some? ==> r == (secret, [])
    ensures secret.None? ==> r.0.None? && Count(r.1, AdminKind) == 1 && Count(r.1, WarningKind) == 0
    ensures secret.None? ==> |r.1| >= 2 && r.1[0] == Error(MissingSecretSubject() + ": " + InitBody(None).exc.msg)
  {
    var run := RetryConnection.Retry(3, 1, (k: nat) => InitBody(secret), 0);
    var h := ExceptionHandler.Handle(FalseConfig<Option<string>>(None), [], map[], WrapperName, run.outcome);
    assert secret.None? ==> run.log == [] && run.log + h.1 == h.1;
    (match h.0 case Returned(v) => v case Exited(_) => None, run.log + h.1)
  }

  /** `f"{chat_id}"` for the nullable chat id. */
  function ChatText(chatId: Option<string>): string {
    match chatId
    case None => "None"
    case Some(c) => c
  }

  function ChatValue(chatId: Option<string>): ExceptionHandler.Value {
    match chatId
    case None => ExceptionHandler.NoneValue
    case Some(c) => ExceptionHandler.StrValue(c)
  }

  const SentSuffix := "\nsent succesfully."

  function SentText(chatId: Option<string>, msg: string): string {
    "Telegram " + ChatText(chatId) + "\n" + msg + SentSuffix
  }

  /**
   * `send_telegram(chat_id, msg)`. Without a bot it returns `False` and never
   * reaches the transport; otherwise it is the guarded send of one message.
   */
  function SendTelegram(chatId: Option<string>, msg: string, secret: Option<string>,
                        transport: nat -> Attempt<()>): (r: SendResult)
    ensures secret.None? ==> !r.ok && r.transportCalls == 0 && Count(r.log, AdminKind) == 1
    ensures secret.Some? ==> r == Send([], SendKwargs(chatId, msg), SentText(chatId, msg), transport)
  {
    var init := InitTelegramBot(secret);
    if init.0.None? then SendResult(false, 0, init.1)
    else Send([], SendKwargs(chatId, msg), SentText(chatId, msg), transport)
  }

  function SendKwargs(chatId: Option<string>, msg: string): map<string, ExceptionHandler.Value> {
    map["chat_id" := ChatValue(chatId), "msg" := ExceptionHandler.StrValue(msg)]
  }

  /** A bot exists and every transport attempt raises a connection-type error: `False`, three attempts, one escalation. */
  lemma SendTelegramGivesUp(chatId: Option<string>, msg: string, token: string, transport: nat -> Attempt<()>)
    requires ConnectionFailures(transport, 3)
    ensures var r := SendTelegram(chatId, msg, Some(token), transport);
      !r.ok && r.transportCalls == 3 && Count(r.log, WarningKind) == 3 && Count(r.log, AdminKind) == 1
  {
    SendGivesUp([], SendKwargs(chatId, msg), SentText(chatId, msg), transport);
  }

  /** A bot exists and the first attempt goes through: `True`, and the info line is the whole trace. */
  lemma SendTelegramFirstTry(chatId: Option<string>, msg: string, token: string, transport: nat -> Attempt<()>)
    requires transport(0).Returns?
    ensures var r := SendTelegram(chatId, msg, Some(token), transport);
      r.ok && r.transportCalls == 1 && r.log == [Info(SentText(chatId, msg))]
  {
    SendFirstTry([], SendKwargs(chatId, msg), SentText(chatId, msg), transport);
  }

  /** Without the secret, `send_telegram` is `False` and its trace starts with the error `init_telegram_bot` logged. */
  lemma SendTelegramWithoutSecret(chatId: Option<string>, msg: string, transport: nat -> Attempt<()>)
    ensures var r := SendTelegram(chatId, msg, None, transport);
      !r.ok && r.transportCalls == 0 && Count(r.log, AdminKind) == 1
      && r.log[0] == Error(MissingSecretSubject() + ": " + InitBody(None).exc.msg)
  {
  }

  // ---------------------------------------------------------------------
  // The cooldown-gated fan-out

  /** `timedelta(hours=alerts_frequency_hrs)` in seconds. */
  function Cooldown(hrs: int): int {
    hrs * 3600
  }

  /** Whether the loop body sends to this user: a receiver whose previous alert is absent or at least the cooldown old. */
  predicate Attempted(r: UserRow, hrs: int, now: int) {
    r.telegramAlertsReceiver && (r.lastAlertTime.None? || now - r.lastAlertTime.value >= Cooldown(hrs))
  }

  const CooldownPrefix := "Telegram alert not sent: Less than a "
  const CooldownSuffix := ".0 hour(s) since last alert."

  function CooldownWarning(hrs: int): string {
    CooldownPrefix + Text.IntToString(hrs) + CooldownSuffix
  }

  const FailurePrefix := "Failed to send trade info telegram to "

  function FailureText(email: string): string {
    FailurePrefix + email
  }

  const FailureSubject := "Error in filter_users_and_send_trade_telegrams"

  /** The loop body for one row: the row afterwards and the events; `ok` is what `send_telegram` returned. */
  function NotifyOne(r: UserRow, hrs: int, now: int, ok: bool, msg: string): (u: (UserRow, seq<Event>))
    ensures u.0 == r || u.0 == r.(lastAlertTime := Some(now))
  {
    if !r.telegramAlertsReceiver then (r, [])
    else if r.lastAlertTime.None? || now - r.lastAlertTime.value >= Cooldown(hrs) then
      if ok then (r.(lastAlertTime := Some(now)), [TelegramCall(r.telegramChatId, msg)])
      else (r, [TelegramCall(r.telegramChatId, msg), Error(FailureText(r.email) + ". " + msg),
                AdminEmailCall(FailureSubject, FailureText(r.email))])
    else (r, [Warning(CooldownWarning(hrs))])
  }

  /** The per-row state machine: exactly one of skip, warn, send-and-stamp, send-and-escalate. */
  lemma NotifyOneCases(r: UserRow, hrs: int, now: int, ok: bool, msg: string)
    ensures var u := NotifyOne(r, hrs, now, ok, msg);
      (u.0.lastAlertTime != r.lastAlertTime <==> Attempted(r, hrs, now) && ok && r.lastAlertTime != Some(now))
      && (Attempted(r, hrs, now) && ok ==> u.0.lastAlertTime == Some(now))
      && Count(u.1, TelegramKind) == (if Attempted(r, hrs, now) then 1 else 0)
      && Count(u.1, AdminKind) == (if Attempted(r, hrs, now) && !ok then 1 else 0)
      && Count(u.1, ErrorKind) == (if Attempted(r, hrs, now) && !ok then 1 else 0)
      && Count(u.1, WarningKind) == (if r.telegramAlertsReceiver && !Attempted(r, hrs, now) then 1 else 0)
      && Count(u.1, EmailKind) == 0
  {
    var s := NotifyOne(r, hrs, now, ok, msg).1;
    if |s| == 1 {
      forall k { CountOne(s[0], k); }
    } else if |s| == 3 {
      forall k { CountThree(s[0], s[1], s[2], k); }
    }
  }

  /** The events of the whole loop, user after user. */
  function NotifyAllEvents(rows: seq<UserRow>, hrs: int, now: int, sent: seq<bool>, msg: string): seq<Event>
    requires |sent| == |rows|
  {
    if rows == [] then []
    else NotifyAllEvents(rows[..|rows| - 1], hrs, now, sent[..|rows| - 1], msg)
         + NotifyOne(rows[|rows| - 1], hrs, now, sent[|rows| - 1], msg).1
  }

  /** The loop's events after one more user. */
  lemma NotifyAllEventsStep(rows: seq<UserRow>, hrs: int, now: int, sent: seq<bool>, msg: string, i: nat)
    requires |sent| == |rows| && i < |rows|
    ensures NotifyAllEvents(rows[..i + 1], hrs, now, sent[..i + 1], msg)
         == NotifyAllEvents(rows[..i], hrs, now, sent[..i], msg) + NotifyOne(rows[i], hrs, now, sent[i], msg).1
  {
    assert rows[..i + 1][..i] == rows[..i] && sent[..i + 1][..i] == sent[..i];
  }

  /** How many rows the loop sends to, and how many of those sends fail. */
  function AttemptCount(rows: seq<UserRow>, hrs: int, now: int): (n: nat)
    ensures n <= |rows|
  {
    if rows == [] then 0
    else AttemptCount(rows[..|rows| - 1], hrs, now) + (if Attempted(rows[|rows| - 1], hrs, now) then 1 else 0)
  }

  function FailureCount(rows: seq<UserRow>, hrs: int, now: int, sent: seq<bool>): (n: nat)
    requires |sent| == |rows|
    ensures n <= AttemptCount(rows, hrs, now)
  {
    if rows == [] then 0
    else FailureCount(rows[..|rows| - 1], hrs, now, sent[..|rows| - 1])
         + (if Attempted(rows[|rows| - 1], hrs, now) && !sent[|rows| - 1] then 1 else 0)
  }

  /** One `send_telegram` call per attempted user and one escalation per failed send, nothing else. */
  lemma {:induction false} NotifyAllCounts(rows: seq<UserRow>, hrs: int, now: int, sent: seq<bool>, msg: string)
    requires |sent| == |rows|
    ensures var s := NotifyAllEvents(rows, hrs, now, sent, msg);
      Count(s, TelegramKind) == AttemptCount(rows, hrs, now)
      && Count(s, AdminKind) == FailureCount(rows, hrs, now, sent)
      && Count(s, ErrorKind) == FailureCount(rows, hrs, now, sent)
      && Count(s, EmailKind) == 0
  {
    if rows != [] {
      var n := |rows| - 1;
      NotifyAllCounts(rows[..n], hrs, now, sent[..n], msg);
      var last := NotifyOne(rows[n], hrs, now, sent[n], msg).1;
      var prefix := NotifyAllEvents(rows[..n], hrs, now, sent[..n], msg);
      NotifyOneCases(rows[n], hrs, now, sent[n], msg);
      CountAppend(prefix, last, TelegramKind);
      CountAppend(prefix, last, AdminKind);
      CountAppend(prefix, last, ErrorKind);
      CountAppend(prefix, last, EmailKind);
    }
  }

  /** The boundary is inclusive: an alert exactly one cooldown old is resent. */
  lemma CooldownBoundaryInclusive(r: UserRow, hrs: int, now: int)
    requires r.telegramAlertsReceiver && r.lastAlertTime == Some(now - Cooldown(hrs))
    ensures Attempted(r, hrs, now)
  {
  }

  /** With a non-negative cooldown, stamping never moves `last_alert_time` backwards. */
  lemma AlertTimeMonotone(r: UserRow, hrs: int, now: int, ok: bool, msg: string)
    requires hrs >= 0 && r.lastAlertTime.Some?
    ensures NotifyOne(r, hrs, now, ok, msg).0.lastAlertTime.value >= r.lastAlertTime.value
  {
  }

  /** No user object occurs twice. */
  predicate Distinct(users: seq<User>) {
    forall i, j :: 0 <= i < j < |users| ==> users[i] != users[j]
  }

  /** The name the handler reports for the fan-out. */
  const FanoutName := "filter_users_and_send_alert_telegram"

  const NoSettingsText := "'NoneType' object has no attribute 'alerts_frequency_hrs'"

  function SettingsError(): Exception {
    Exception(AttributeErrorClass, NoSettingsText)
  }

  /**
   * The fan-out's whole trace: without a settings row the handler's report
   * of the AttributeError, otherwise the loop's events.
   */
  function FanoutEvents(rows: seq<UserRow>, hrs: Option<int>, now: int, sent: seq<bool>, msg: string): seq<Event>
    requires |sent| == |rows|
  {
    match hrs
    case None => ExceptionHandler.Handle(ExceptionHandler.DefaultConfig(()), [ExceptionHandler.StrValue(msg)], map[],
                   FanoutName, Raises(SettingsError())).1
    case Some(h) => NotifyAllEvents(rows, h, now, sent, msg)
  }

  /** Without a settings row nobody is messaged: the trace is the handler's one error line and one escalation. */
  lemma FanoutWithoutSettings(rows: seq<UserRow>, now: int, sent: seq<bool>, msg: string)
    requires |sent| == |rows|
    ensures var s := FanoutEvents(rows, None, now, sent, msg);
      |s| == 2 && s[0].Error? && s[1].AdminEmailCall?
      && Count(s, AdminKind) == 1 && Count(s, TelegramKind) == 0 && Count(s, EmailKind) == 0
  {
    var s := FanoutEvents(rows, None, now, sent, msg);
    assert s == [s[0], s[1]];
    CountTwo(s[0], s[1], TelegramKind);
    CountTwo(s[0], s[1], EmailKind);
  }

  /** The loop body for one user object. */
  method NotifyUser(u: User, hrs: int, now: int, ok: bool, msg: string) returns (events: seq<Event>)
    modifies u
    ensures u.Row() == NotifyOne(old(u.Row()), hrs, now, ok, msg).0
    ensures events == NotifyOne(old(u.Row()), hrs, now, ok, msg).1
  {
    events := [];
    if u.telegramAlertsReceiver {
      if u.lastAlertTime.None? || now - u.lastAlertTime.value >= hrs * 3600 {
        events := [TelegramCall(u.telegramChatId, msg)];
        if ok {
          u.UpdateLastAlertTime(now);
        } else {
          events := events + [Error(FailureText(u.email) + ". " + msg),
                              AdminEmailCall(FailureSubject, FailureText(u.email))];
        }
      } else {
        events := [Warning(CooldownWarning(hrs))];
      }
    }
  }

  /**
   * `filter_users_and_send_alert_telegram(msg)`. `users` is the user table
   * in query order; the receiver filter of the query is the first test of the
   * loop body. `hrs` is the first settings row's `alerts_frequency_hrs`,
   * `sent[i]` what `send_telegram` returns for `users[i]`, `now` the clock.
   */
  method FilterUsersAndSendAlertTelegram(users: seq<User>, hrs: Option<int>, now: int, sent: seq<bool>, msg: string)
    returns (events: seq<Event>)
    requires Distinct(users) && |sent| == |users|
    modifies users
    ensures hrs.None? ==> RowsOf(users) == old(RowsOf(users))
    ensures events == FanoutEvents(old(RowsOf(users)), hrs, now, sent, msg)
    ensures hrs.Some? ==> forall k :: 0 <= k < |users| ==>
      users[k].Row() == NotifyOne(old(users[k].Row()), hrs.value, now, sent[k], msg).0
  {
    if hrs.None? {
      events := ExceptionHandler.Handle(ExceptionHandler.DefaultConfig(()), [ExceptionHandler.StrValue(msg)], map[],
                  FanoutName, Raises(SettingsError())).1;
    } else {
      events := NotifyAll(users, hrs.value, now, sent, msg);
    }
  }

  /** The loop of `filter_users_and_send_alert_telegram` once the settings row has been read. */
  method NotifyAll(users: seq<User>, h: int, now: int, sent: seq<bool>, msg: string) returns (events: seq<Event>)
    requires Distinct(users) && |sent| == |users|
    modifies users
    ensures events == NotifyAllEvents(old(RowsOf(users)), h, now, sent, msg)
    ensures forall k :: 0 <= k < |users| ==> users[k].Row() == NotifyOne(old(users[k].Row()), h, now, sent[k], msg).0
  {
    ghost var rows := RowsOf(users);
    events := [];
    var i := 0;
    while i < |users|
      invariant 0 <= i <= |users|
      invariant events == NotifyAllEvents(rows[..i], h, now, sent[..i], msg)
      invariant forall k :: 0 <= k < i ==> users[k].Row() == NotifyOne(rows[k], h, now, sent[k], msg).0
      invariant forall k :: i <= k < |users| ==> users[k].Row() == rows[k]
    {
      NotifyAllEventsStep(rows, h, now, sent, msg, i);
      label BeforeUser:
      var e := NotifyUser(users[i], h, now, sent[i], msg);
      events := events + e;
      forall k | 0 <= k < |users| && k != i ensures users[k].Row() == old@BeforeUser(users[k].Row()) {
        assert users[k] != users[i];
      }
      assert users[i].Row() == NotifyOne(rows[i], h, now, sent[i], msg).0;
      i := i + 1;
    }
    assert rows[..i] == rows && sent[..i] == sent;
  }
}
