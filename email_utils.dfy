/**
 * E-mail alerting: `send_email` (a guarded send), the administrator
 * escalation `send_admin_email`, and the receiver fan-out
 * `filter_users_and_send_alert_email`, which applies no cooldown.
 */
module EmailUtils {
  import opened Wrappers
  import opened Effects
  import opened UserModel
  import RetryConnection
  import ExceptionHandler
  import opened GuardedSend

  const SentSuffix := " sent succesfully."

  function SentText(email: string, subject: string): string {
    "Email \"" + subject + "\" to " + email + SentSuffix
  }

  /** `send_email(email, subject, body)`; `transport(k)` is the k-th `mail.send`. */
  function SendEmail(email: string, subject: string, body: string, transport: nat -> Attempt<()>): (r: SendResult)
    ensures var run := RetryConnection.Retry(3, 1, SendBody(transport), 0);
      (r.ok <==> run.outcome.Returns?) && r.transportCalls <= 3
      && Count(r.log, InfoKind) == (if r.ok then 1 else 0)
      && Count(r.log, AdminKind) == (if r.ok then 0 else 1)
  {
    Send(SendArgs(email, subject, body), map[], SentText(email, subject), transport)
  }

  function SendArgs(email: string, subject: string, body: string): seq<ExceptionHandler.Value> {
    [ExceptionHandler.StrValue(email), ExceptionHandler.StrValue(subject), ExceptionHandler.StrValue(body)]
  }

  /** A transport that raises a plain exception on its first call: `False`, no info line, one escalation. */
  lemma SendEmailPlainFailure(email: string, subject: string, body: string, transport: nat -> Attempt<()>)
    requires transport(0) == Raises(Exception(PlainException, "Fail to send"))
    ensures var r := SendEmail(email, subject, body, transport);
      !r.ok && r.transportCalls == 1 && Count(r.log, InfoKind) == 0 && Count(r.log, AdminKind) == 1
  {
    SendOtherFailure(SendArgs(email, subject, body), map[], SentText(email, subject), transport, 0);
  }

  /** A transport that returns on its first call: `True` and the one info line. */
  lemma SendEmailSucceeds(email: string, subject: string, body: string, transport: nat -> Attempt<()>)
    requires transport(0).Returns?
    ensures var r := SendEmail(email, subject, body, transport);
      r.ok && r.transportCalls == 1 && r.log == [Info(SentText(email, subject))]
  {
    SendFirstTry(SendArgs(email, subject, body), map[], SentText(email, subject), transport);
  }

  // ---------------------------------------------------------------------
  // send_admin_email

  const AdminFailurePrefix := "Failed to send admin email to "
  const AdminQueryPrefix := "Exception in send_admin_email: "

  /** The events of the loop body of `send_admin_email` for one row; `ok` is what `send_email` returned. */
  function AdminOne(r: UserRow, subject: string, body: string, ok: bool): seq<Event> {
    if !r.isAdmin then []
    else if ok then [EmailCall(r.email, subject, body)]
    else [EmailCall(r.email, subject, body),
          Error(AdminFailurePrefix + r.email + ". " + subject + " " + body)]
  }

  function AdminAll(rows: seq<UserRow>, subject: string, body: string, sent: seq<bool>): seq<Event>
    requires |sent| == |rows|
  {
    if rows == [] then []
    else AdminAll(rows[..|rows| - 1], subject, body, sent[..|rows| - 1])
         + AdminOne(rows[|rows| - 1], subject, body, sent[|rows| - 1])
  }

  /** How many rows are administrators, and how many sends to them fail. */
  function AdminCount(rows: seq<UserRow>): (n: nat)
    ensures n <= |rows|
  {
    if rows == [] then 0 else AdminCount(rows[..|rows| - 1]) + (if rows[|rows| - 1].isAdmin then 1 else 0)
  }

  function AdminFailures(rows: seq<UserRow>, sent: seq<bool>): (n: nat)
    requires |sent| == |rows|
    ensures n <= AdminCount(rows)
  {
    if rows == [] then 0
    else AdminFailures(rows[..|rows| - 1], sent[..|rows| - 1])
         + (if rows[|rows| - 1].isAdmin && !sent[|rows| - 1] then 1 else 0)
  }

  /**
   * `send_admin_email(subject, body)` over the user table. `queryError` is an
   * exception the admin query raises; every exception is swallowed into one
   * error line, so the function always returns.
   */
  method SendAdminEmail(rows: seq<UserRow>, subject: string, body: string, sent: seq<bool>,
                        queryError: Option<Exception>) returns (events: seq<Event>)
    requires |sent| == |rows|
    ensures queryError.Some? ==> events == [Error(AdminQueryPrefix + queryError.value.msg)]
    ensures queryError.None? ==> events == AdminAll(rows, subject, body, sent)
  {
    if queryError.Some? {
      return [Error(AdminQueryPrefix + queryError.value.msg)];
    }
    events := [];
    var i := 0;
    while i < |rows|
      invariant 0 <= i <= |rows|
      invariant events == AdminAll(rows[..i], subject, body, sent[..i])
    {
      assert rows[..i + 1][..i] == rows[..i] && sent[..i + 1][..i] == sent[..i];
      if rows[i].isAdmin {
        events := events + [EmailCall(rows[i].email, subject, body)];
        if !sent[i] {
          events := events + [Error(AdminFailurePrefix + rows[i].email + ". " + subject + " " + body)];
        }
      }
      i := i + 1;
    }
    assert rows[..i] == rows && sent[..i] == sent;
  }

  lemma AdminOneCounts(r: UserRow, subject: string, body: string, ok: bool)
    ensures var s := AdminOne(r, subject, body, ok);
      Count(s, EmailKind) == (if r.isAdmin then 1 else 0)
      && Count(s, ErrorKind) == (if r.isAdmin && !ok then 1 else 0)
      && Count(s, AdminKind) == 0
  {
    var s := AdminOne(r, subject, body, ok);
    if |s| == 1 {
      forall k { CountOne(s[0], k); }
    } else if |s| == 2 {
      forall k { CountTwo(s[0], s[1], k); }
    }
  }

  /**
   * One `send_email` per administrator, one error line per failed send, and
   * the escalation never escalates further.
   */
  lemma {:induction false} AdminAllCounts(rows: seq<UserRow>, subject: string, body: string, sent: seq<bool>)
    requires |sent| == |rows|
    ensures var s := AdminAll(rows, subject, body, sent);
      Count(s, EmailKind) == AdminCount(rows) && Count(s, ErrorKind) == AdminFailures(rows, sent)
      && Count(s, AdminKind) == 0
  {
    if rows != [] {
      var n := |rows| - 1;
      AdminAllCounts(rows[..n], subject, body, sent[..n]);
      AdminOneCounts(rows[n], subject, body, sent[n]);
      var prefix := AdminAll(rows[..n], subject, body, sent[..n]);
      var last := AdminOne(rows[n], subject, body, sent[n]);
      CountAppend(prefix, last, EmailKind);
      CountAppend(prefix, last, ErrorKind);
      CountAppend(prefix, last, AdminKind);
    }
  }

  /** Every administrator is mailed with the same subject and body, in table order, whatever the earlier sends did. */
  lemma {:induction false} AdminAllMailsEveryAdmin(rows: seq<UserRow>, subject: string, body: string, sent: seq<bool>, i: nat)
    requires |sent| == |rows| && i < |rows| && rows[i].isAdmin
    ensures EmailCall(rows[i].email, subject, body) in AdminAll(rows, subject, body, sent)
  {
    var n := |rows| - 1;
    if i == n {
      assert AdminOne(rows[n], subject, body, sent[n])[0] == EmailCall(rows[i].email, subject, body);
    } else {
      AdminAllMailsEveryAdmin(rows[..n], subject, body, sent[..n], i);
    }
  }

  // ---------------------------------------------------------------------
  // filter_users_and_send_alert_email

  /** The name the handler reports for the fan-out. */
  const FanoutName := "filter_users_and_send_alert_email"

  const FailureSubject := "Error in filter_users_and_send_trade_emails"

  const FailurePrefix := "Failed to send trade info email to "

  function FailureText(email: string): string {
    FailurePrefix + email
  }

  function ReceiverOne(r: UserRow, subject: string, body: string, ok: bool): seq<Event> {
    if !r.emailAlertsReceiver then []
    else if ok then [EmailCall(r.email, subject, body)]
    else [EmailCall(r.email, subject, body),
          Error(FailureText(r.email) + ". " + subject + " " + body),
          AdminEmailCall(FailureSubject, FailureText(r.email))]
  }

  function ReceiverAll(rows: seq<UserRow>, subject: string, body: string, sent: seq<bool>): seq<Event>
    requires |sent| == |rows|
  {
    if rows == [] then []
    else ReceiverAll(rows[..|rows| - 1], subject, body, sent[..|rows| - 1])
         + ReceiverOne(rows[|rows| - 1], subject, body, sent[|rows| - 1])
  }

  function ReceiverCount(rows: seq<UserRow>): (n: nat)
    ensures n <= |rows|
  {
    if rows == [] then 0
    else ReceiverCount(rows[..|rows| - 1]) + (if rows[|rows| - 1].emailAlertsReceiver then 1 else 0)
  }

  function ReceiverFailures(rows: seq<UserRow>, sent: seq<bool>): (n: nat)
    requires |sent| == |rows|
    ensures n <= ReceiverCount(rows)
  {
    if rows == [] then 0
    else ReceiverFailures(rows[..|rows| - 1], sent[..|rows| - 1])
         + (if rows[|rows| - 1].emailAlertsReceiver && !sent[|rows| - 1] then 1 else 0)
  }

  /**
   * `filter_users_and_send_alert_email(subject, body)` over the user table,
   * in query order. It has no `modifies` clause: no user, and in particular
   * no `last_alert_time`, changes. `sent[i]` is what `send_email` returns for
   * `users[i]`; a failing receiver query goes to the handler.
   */
  method FilterUsersAndSendAlertEmail(users: seq<User>, subject: string, body: string, sent: seq<bool>,
                                      queryError: Option<Exception>) returns (events: seq<Event>)
    requires |sent| == |users|
    ensures queryError.Some? ==> events == ExceptionHandler.Handle(ExceptionHandler.DefaultConfig(()),
      [ExceptionHandler.StrValue(subject), ExceptionHandler.StrValue(body)], map[],
      FanoutName, Raises(queryError.value)).1
    ensures queryError.None? ==> events == ReceiverAll(RowsOf(users), subject, body, sent)
  {
    if queryError.Some? {
      return ExceptionHandler.Handle(ExceptionHandler.DefaultConfig(()),
        [ExceptionHandler.StrValue(subject), ExceptionHandler.StrValue(body)], map[],
        FanoutName, Raises(queryError.value)).1;
    }
    ghost var rows := RowsOf(users);
    events := [];
    var i := 0;
    while i < |users|
      invariant 0 <= i <= |users|
      invariant events == ReceiverAll(rows[..i], subject, body, sent[..i])
    {
      assert rows[..i + 1][..i] == rows[..i] && sent[..i + 1][..i] == sent[..i];
      var u := users[i];
      if u.emailAlertsReceiver {
        events := events + [EmailCall(u.email, subject, body)];
        if !sent[i] {
          events := events + [Error(FailureText(u.email) + ". " + subject + " " + body),
                              AdminEmailCall(FailureSubject, FailureText(u.email))];
        }
      }
      i := i + 1;
    }
    assert rows[..i] == rows && sent[..i] == sent;
  }

  lemma ReceiverOneCounts(r: UserRow, subject: string, body: string, ok: bool)
    ensures var s := ReceiverOne(r, subject, body, ok);
      Count(s, EmailKind) == (if r.emailAlertsReceiver then 1 else 0)
      && Count(s, ErrorKind) == (if r.emailAlertsReceiver && !ok then 1 else 0)
      && Count(s, AdminKind) == (if r.emailAlertsReceiver && !ok then 1 else 0)
      && Count(s, TelegramKind) == 0
  {
    var s := ReceiverOne(r, subject, body, ok);
    if |s| == 1 {
      forall k { CountOne(s[0], k); }
    } else if |s| == 3 {
      forall k { CountThree(s[0], s[1], s[2], k); }
    }
  }

  /** Exactly one `send_email` per receiver, and one error and one escalation per failed send. */
  lemma {:induction false} ReceiverAllCounts(rows: seq<UserRow>, subject: string, body: string, sent: seq<bool>)
    requires |sent| == |rows|
    ensures var s := ReceiverAll(rows, subject, body, sent);
      Count(s, EmailKind) == ReceiverCount(rows)
      && Count(s, ErrorKind) == ReceiverFailures(rows, sent)
      && Count(s, AdminKind) == ReceiverFailures(rows, sent)
      && Count(s, TelegramKind) == 0
  {
    if rows != [] {
      var n := |rows| - 1;
      ReceiverAllCounts(rows[..n], subject, body, sent[..n]);
      ReceiverOneCounts(rows[n], subject, body, sent[n]);
      var prefix := ReceiverAll(rows[..n], subject, body, sent[..n]);
      var last := ReceiverOne(rows[n], subject, body, sent[n]);
      CountAppend(prefix, last, EmailKind);
      CountAppend(prefix, last, ErrorKind);
      CountAppend(prefix, last, AdminKind);
      CountAppend(prefix, last, TelegramKind);
    }
  }

  /** No cooldown: the trace does not depend on any user's `last_alert_time`. */
  lemma {:induction false} ReceiverAllIgnoresAlertTime(rows: seq<UserRow>, rows': seq<UserRow>, subject: string, body: string, sent: seq<bool>)
    requires |sent| == |rows| == |rows'|
    requires forall i :: 0 <= i < |rows| ==> rows'[i] == rows[i].(lastAlertTime := rows'[i].lastAlertTime)
    ensures ReceiverAll(rows, subject, body, sent) == ReceiverAll(rows', subject, body, sent)
  {
    if rows != [] {
      var n := |rows| - 1;
      ReceiverAllIgnoresAlertTime(rows[..n], rows'[..n], subject, body, sent[..n]);
    }
  }
}
