# Pulse System Monitoring Station — a Dafny model of its core

Pulse System Monitoring Station is a Flask application that samples the
host's CPU, memory, disk, network counters and CPU temperature. It keeps
the samples in a `Monitor` table for 24 hours, serves them as JSON arrays
to a dashboard, and alerts users by Telegram and e-mail when the CPU runs
hot. This project models the logic around those steps and proves what it
promises:

- the sampler and its retention window (`SystemMonitor`);
- the cooldown-gated Telegram fan-out (`Telegram`) and the e-mail fan-outs (`EmailUtils`);
- the send shape both transports share (`GuardedSend`), built from two decorators:
  - the bounded retry decorator (`RetryConnection`);
  - the exception-catching decorator with its bot-id resolution and its choice of return value (`ExceptionHandler`);
- both versions of the `/api/data` projection (`Api`);
- the `User` row and its mutators (`UserModel`);
- the `/register` and `/login` views (`Session`);
- the registration form's password rules (`RegisterForm`);
- the `to_datetime` template filter with its proleptic Gregorian calendar (`DateFormat`).

Shared modules: `Wrappers` (Option), `Effects` (the trace of log lines, sends, escalations, rollbacks and exits that an operation leaves, and counts over it) and `Text` (Python's `str()` of an integer).

Everything outside the program becomes an input:

- **Host readings.** The psutil values are a `Sample` with a sensor map.
- **The clock.** One integer clock, in seconds (milliseconds for `to_datetime`).
- **Transports.** A Telegram or SMTP call is an attempt outcome per invocation, `nat -> Attempt<()>`. A fan-out instead gets one boolean, "the send returned `True`", per user.
- **Database.**
  - A query failure is an optional exception.
  - The user table is a class holding `User` objects.
  - The monitor table is a class holding a `seq` of records.
- **Password hashing.** A function `hash` and a predicate `verify`.
- **Foreign form checks.** The e-mail syntax check and the reCAPTCHA are their verdicts.

Log lines, sends, admin escalations, rollbacks and `sys.exit` are `Effects.Event`s in the trace an operation returns.

Operations that change state in the source are methods:

- `MonitorTable.RemoveOldData` deletes records in a loop.
- `Telegram.NotifyAll` stamps `last_alert_time` on user objects inside its loop.
- The e-mail fan-outs loop over the users.
- `RetryConnection.RetryConnection` runs the retry loop.
- `ExceptionHandler.ResolveBotId` runs the two resolution loops with their `break`s.
- The `User` mutators assign one field.
- `UserTable.Register` and `UserTable.Login` grow or update the table.

Each of these methods is proved against a function of the inputs or the old state. The properties the source promises are then proved about those functions as lemmas. The pure parts are functions:

- the temperature pick;
- the projections;
- the password rules;
- the calendar conversion.

Where the tests and the code disagree, the model follows the code:

- **Log line after the sampling round.** `check_resources` logs `check_resources()` (utils/system_monitor.py:35), not the longer line a test expects.
- **Eviction log.** `remove_old_data` logs nothing.
- **Bot id in the escalation body.** The escalation body carries no bot id (app/utils/exception_handler.py:87), though a test looks for one there.
- **Modules that are not shown.**
  - The sampler and the e-mail module import `utils.telegram_utils`, `utils.exception_handler` and `utils.retry_connection`. These are not part of this model; the `app/utils` files stand in for them.
  - Tests that target an e-mail cooldown or login-error counting in modules not shown are not followed.

## Model

| member | source | states |
|---|---|---|
| SystemMonitor.ExtractCpuTemp | utils/system_monitor.py:19-26 | the temperature is a number exactly when `coretemp` is present with a non-empty list, and then it is the first entry's `current`; otherwise it is the "Brak danych" sentinel |
| SystemMonitor.ExtractCpuTempIgnoresOthers | utils/system_monitor.py:20-23 | changing any sensor family other than `coretemp` never changes the reading |
| SystemMonitor.MegabytesRoundTrip | utils/system_monitor.py:15-16 | the converted counter times 2^20 is the byte count |
| SystemMonitor.WholeMegabytes | utils/system_monitor.py:15-16 | n·2^20 bytes convert to exactly n megabytes |
| SystemMonitor.TenAndTwentyMegabytes | tests/test_monitor_utils.py:39-54 | 10·2^20 and 20·2^20 bytes give 10.0 and 20.0 MB |
| SystemMonitor.RecordOf | utils/system_monitor.py:11-29 | the record written carries the call's timestamp, the sampled cpu, ram and disk, the counters divided by 2^20, and the extracted temperature |
| SystemMonitor.Recent | utils/system_monitor.py:70-75 | eviction keeps no more records than it had, only records at or after the cutoff, and only records of the store |
| SystemMonitor.RecentKeepsFresh | utils/system_monitor.py:72 | every record at or after the cutoff survives, because removal uses a strict `<` |
| SystemMonitor.RecentSubMultiset | utils/system_monitor.py:72-74 | eviction only deletes: the result is a sub-multiset of the store |
| SystemMonitor.RecentIdempotent | utils/system_monitor.py:70-75 | evicting twice with the same cutoff is evicting once |
| SystemMonitor.RecentOfFresh | utils/system_monitor.py:72 | a store with no stale record is left unchanged |
| SystemMonitor.RecentAppend | utils/system_monitor.py:72-74 | eviction of a concatenation is the concatenation of the evictions, so order is kept |
| SystemMonitor.NewestSurvives | utils/system_monitor.py:28-33 | the record just written at `now` survives the eviction that follows it, as the newest record |
| SystemMonitor.SentUserAlert | utils/system_monitor.py:43-48 | the trace is the Telegram fan-out's trace followed by the e-mail fan-out's, each run once; the users end as the Telegram loop leaves them |
| SystemMonitor.MonitorTable.WriteToDb | utils/system_monitor.py:51-67 | appends exactly one record and logs `write_to_db()` |
| SystemMonitor.MonitorTable.RemoveOldData | utils/system_monitor.py:70-75 | the table becomes `Recent(old table, now − 24 h)`, so nothing older than a day remains |
| SystemMonitor.MonitorTable.CheckResources | utils/system_monitor.py:9-40 | append then evict: the new record is the newest survivor and the window holds; the result and the alert trace are `Evaluate`'s; users change only when an alert fires with a settings row |
| SystemMonitor.MonitorTable.Store | utils/system_monitor.py:31-35 | the write, the eviction and the two info lines, in that order |
| SystemMonitor.Evaluate | utils/system_monitor.py:37-40 | the sentinel raises the `str >= int` TypeError and a number returns the tuple; no alert below 85 degrees; at or above 85 degrees one e-mail per receiver, one Telegram send per eligible receiver, and, from the fan-out loops themselves, one escalation per failed send |
| SystemMonitor.CheckThreshold | utils/system_monitor.py:37-40 | the comparison and the alert over the user objects, equal to `Evaluate` on their rows |
| Telegram.InitTelegramBot | app/utils/telegram_utils.py:17-27 | with the secret, the bot and no trace; without it, no bot and one escalation whose first line reports a plain Exception |
| Telegram.SendTelegram | app/utils/telegram_utils.py:30-51 | without a bot, `False` with no transport call and one escalation; with one, the guarded send of the message |
| Telegram.SendTelegramGivesUp | app/utils/telegram_utils.py:30-51 | three connection failures give `False`, three calls, three warnings, one escalation |
| Telegram.SendTelegramFirstTry | app/utils/telegram_utils.py:43-49 | a first call that returns gives `True` and just the "sent succesfully" line |
| Telegram.SendTelegramWithoutSecret | app/utils/telegram_utils.py:26 | a missing secret: `False`, no transport call, one escalation |
| Telegram.NotifyOne | app/utils/telegram_utils.py:74-92 | the row either stays or gets `last_alert_time := now`, and nothing else changes |
| Telegram.NotifyOneCases | app/utils/telegram_utils.py:74-92 | a send happens iff the user receives and the last alert is absent or at least the cooldown old; a success stamps `now`; a failure leaves the row, and the loop itself logs one error and escalates once; a skipped receiver gets one warning |
| Telegram.NotifyAllEventsStep | app/utils/telegram_utils.py:73 | the loop's trace grows by one user's events per iteration |
| Telegram.AttemptCount | app/utils/telegram_utils.py:73-78 | at most one send per user |
| Telegram.FailureCount | app/utils/telegram_utils.py:81-88 | failures never outnumber sends |
| Telegram.NotifyAllCounts | app/utils/telegram_utils.py:73-92 | over the loop: sends equal eligible users, the loop's own escalations and error lines equal failed sends, no e-mail |
| Telegram.CooldownBoundaryInclusive | app/utils/telegram_utils.py:76 | a last alert exactly one cooldown ago is attempted |
| Telegram.AlertTimeMonotone | app/utils/telegram_utils.py:78-80 | `last_alert_time` never moves backwards |
| Telegram.FanoutWithoutSettings | app/utils/telegram_utils.py:70-71 | no settings row: the handler's error line and one escalation, no send |
| Telegram.NotifyUser | app/utils/telegram_utils.py:74-92 | one iteration on a user object: its row becomes `NotifyOne`'s row and the events are `NotifyOne`'s |
| Telegram.FilterUsersAndSendAlertTelegram | app/utils/telegram_utils.py:54-92 | without settings, no user changes and the trace is the escalation; otherwise every user ends as `NotifyOne` leaves it |
| Telegram.NotifyAll | app/utils/telegram_utils.py:73-92 | the loop: every user object ends as `NotifyOne` leaves its row, and the trace is the users' events in order |
| EmailUtils.SendEmail | utils/email_utils.py:11-39 | `True` exactly when the retry loop returned, at most three transport calls; one info line on success, one escalation on failure |
| EmailUtils.SendEmailPlainFailure | tests/test_email_utils.py:29-35 | a plain exception from the transport: `False` after one call, one escalation |
| EmailUtils.SendEmailSucceeds | utils/email_utils.py:37-39 | a transport that returns: `True`, one call, the "sent succesfully" line only |
| EmailUtils.AdminCount | utils/email_utils.py:59 | the admins are at most the users |
| EmailUtils.AdminFailures | utils/email_utils.py:62-65 | failures never outnumber admins |
| EmailUtils.SendAdminEmail | utils/email_utils.py:42-67 | a failed query logs one error and nothing else; otherwise the per-admin loop |
| EmailUtils.AdminOneCounts | utils/email_utils.py:60-65 | one send per admin, one error line per failed one, never an escalation |
| EmailUtils.AdminAllCounts | utils/email_utils.py:59-65 | sends equal admins, error lines equal failures, no escalation |
| EmailUtils.AdminAllMailsEveryAdmin | utils/email_utils.py:59-61 | every admin gets the mail with the same subject and body |
| EmailUtils.ReceiverCount | utils/email_utils.py:87 | receivers are at most the users |
| EmailUtils.ReceiverFailures | utils/email_utils.py:91-98 | failures never outnumber receivers |
| EmailUtils.FilterUsersAndSendAlertEmail | utils/email_utils.py:70-98 | a failed query is reported by the handler; otherwise the per-receiver loop over the users' rows |
| EmailUtils.ReceiverOneCounts | utils/email_utils.py:89-98 | one send per receiver; a failure adds one error line and one escalation of the loop's own |
| EmailUtils.ReceiverAllCounts | utils/email_utils.py:87-98 | sends equal receivers, the loop's own error lines and escalations equal failures, no Telegram send |
| EmailUtils.ReceiverAllIgnoresAlertTime | utils/email_utils.py:86-98 | the e-mail fan-out has no cooldown: `last_alert_time` never affects it |
| GuardedSend.Send | utils/email_utils.py:11-39 | `True` exactly when the retry loop returned; calls as counted by the loop, at most three; one info line on success, one escalation on failure, warnings as the loop logged |
| GuardedSend.SendBodyReturnsTrue | utils/email_utils.py:37-39 | the body only ever returns `True` |
| GuardedSend.RetryLogKinds | app/utils/retry_connection.py:35-45 | the retry loop only logs warnings and errors |
| GuardedSend.SendFirstTry | utils/email_utils.py:37-39 | first call returns: `True`, one call, the info line is the whole trace |
| GuardedSend.SendRetries | app/utils/retry_connection.py:25-39 | success after k < 3 connection failures: `True`, k + 1 calls, k warnings, no escalation |
| GuardedSend.SendGivesUp | app/utils/retry_connection.py:40-45 | three connection failures: `False`, three calls, three warnings, one escalation |
| GuardedSend.SendOtherFailure | app/utils/retry_connection.py:28-34 | another exception after k failures: `False` at once, k + 1 calls, one escalation, no info line |
| RetryConnection.RetryConnection | app/utils/retry_connection.py:22-45 | the while loop computes `Retry(max_retries, delay, call, 0)` |
| RetryConnection.RetryStep | app/utils/retry_connection.py:28-39 | one caught failure adds exactly one warning and changes neither outcome nor call count |
| RetryConnection.RetryCallsBounded | app/utils/retry_connection.py:24-27 | the function is invoked at most `max_retries` times |
| RetryConnection.RetrySucceedsAfterFailures | app/utils/retry_connection.py:25-39 | after k caught failures a returning call's result is returned, k + 1 calls, k warnings, no error |
| RetryConnection.RetryExhausted | app/utils/retry_connection.py:40-45 | `max_retries` caught failures raise "Max retries reached…" after `max_retries` calls, with that many warnings and one error |
| RetryConnection.RetryNoAttempts | app/utils/retry_connection.py:24-25 | with `max_retries <= 0` the function is never called and the wrapper raises |
| RetryConnection.RetryPropagatesOthers | app/utils/retry_connection.py:28-34 | an exception outside the caught set propagates on its first occurrence |
| ExceptionHandler.FirstBotSettings | app/utils/exception_handler.py:54-57 | the first positional argument with both `id` and `bot_running`, or none |
| ExceptionHandler.FirstInt | app/utils/exception_handler.py:63-66 | the first positional `int` (a bool counts), or none |
| ExceptionHandler.ResolveBotId | app/utils/exception_handler.py:49-66 | the two loops with `break` compute the prioritised bot id `BotIdOf` |
| ExceptionHandler.BotStr | app/utils/exception_handler.py:68 | the prefix is non-empty exactly when the id is truthy |
| ExceptionHandler.BotStrOfInt | app/utils/exception_handler.py:68 | an integer id gives "Bot {id} ", and 0 gives "" |
| ExceptionHandler.CatchPath | app/utils/exception_handler.py:72-112 | one error line and one escalation titled "{bot_str}{type} in {name}", a rollback iff asked, then exit(1) for `exit`, the callable's result, or the default |
| ExceptionHandler.Handle | app/utils/exception_handler.py:48-112 | a returning call passes through unchanged with no trace; a raising one takes the catch path with the resolved bot id |
| ExceptionHandler.BotSettingsFirst | app/utils/exception_handler.py:51-52 | a `bot_settings` keyword with an id wins over `bot_id` |
| ExceptionHandler.NoneSettingsIdFallsThrough | app/utils/exception_handler.py:51-61 | a `bot_settings` whose id is None falls through to `bot_id` |
| ExceptionHandler.BotStr123 | app/utils/exception_handler.py:68 | id 123 gives "Bot 123 " |
| ExceptionHandler.BotId123 | tests/test_exception_handlers.py:89-106 | `bot_settings` with id 123 resolves to 123 |
| ExceptionHandler.Bot123Subject | tests/test_exception_handlers.py:89-106 | a ValueError with that `bot_settings` returns None and escalates with subject "Bot 123 ValueError in {name}" |
| ExceptionHandler.ValueErrorSubject | app/utils/exception_handler.py:81-86 | a ValueError keeps its own class name in the subject |
| Api.Insert | app/routes/api.py:29 | inserting into a sorted list keeps it sorted and adds exactly that record |
| Api.OrderByTimestamp | app/routes/api.py:29 | `order_by(Monitor.timestamp)`: sorted by timestamp and a permutation of the table |
| Api.OrderKeepsStorable | app/routes/api.py:29 | ordering keeps the records' timestamps representable |
| Api.Project | app/routes/api.py:31-37 | a comprehension: same length, entry i from record i |
| Api.Arrays | app/routes/api.py:31-51 | the seven arrays have the record count as length, and the limit is the one given |
| Api.GetDataAsWritten | app/routes/api.py:27-53 | as written: every request answers 500 with the AttributeError text for `Limits.timestamp` |
| Api.GetData | app/routes/api.py:27-53 | corrected: with a configured limit, 200 with the seven parallel arrays and that limit; without one, 500 with the error text and no arrays |
| Api.GetDataV1 | routes/api.py:9-30 | 200, exactly the seven keys with no `temperature_limit`, all of the record count's length |
| Api.GetDataAsWrittenAlwaysFails | app/routes/api.py:28 | for the same inputs the corrected view answers 200 while the code as written answers 500 without data |
| Api.ArraysPointwise | app/routes/api.py:31-37 | index i of every array comes from record i |
| Api.GetDataArrays | app/routes/api.py:29-37 | index i of every array comes from the i-th record in timestamp order |
| Api.GetDataV1Arrays | routes/api.py:10-18 | the same for the older view |
| Api.NewerViewExtendsOlder | app/routes/api.py:38-51 | the newer body is the older body plus `temperature_limit` |
| Api.TimestampRoundTrip | app/routes/api.py:31 | an `isoformat()` string reads back as its second |
| Api.ZipArrays | app/routes/api.py:31-37 | the arrays zip back into the records they came from |
| Api.ZipRoundTrip | routes/api.py:10-18 | the older view's arrays zip back into the ordered table |
| Api.OneRecordExample | tests/test_api_routes.py:7-39 | the one-record scenario with limit 80.0 answers 200 with "2024-01-01T12:00:00", 25.5, 65.0 and 80.0 |
| DateFormat.DaysInMonth | app/routes/context_processors.py:38 | every month has 28 to 31 days |
| DateFormat.DaysBeforeMonth | app/routes/context_processors.py:38 | no days before January; a year's days before the 13th month |
| DateFormat.MonthOf | app/routes/context_processors.py:38 | the month found is between 1 and the starting month |
| DateFormat.MonthOfCorrect | app/routes/context_processors.py:38 | the day of the year falls inside the month found |
| DateFormat.YearInCycleCorrect | app/routes/context_processors.py:38 | the year and day found inside a 400-year cycle add back up to the day number |
| DateFormat.YearAndDayCorrect | app/routes/context_processors.py:38 | any day number splits into a year and a valid day of that year |
| DateFormat.CivilFromDaysCorrect | app/routes/context_processors.py:38 | the civil date found is valid and its day number is the input |
| DateFormat.CivilFromDaysInjective | app/routes/context_processors.py:38 | distinct day numbers give distinct dates |
| DateFormat.FromEpochSecondsCorrect | app/routes/context_processors.py:38 | the broken-down UTC instant is valid and counts back to the same second |
| DateFormat.Pad | app/routes/context_processors.py:38-40 | zero padding gives exactly `width` digits |
| DateFormat.PadRoundTrip | app/routes/context_processors.py:38-40 | a padded field reads back as its number |
| DateFormat.DateText | app/routes/context_processors.py:38-40 | `%Y-%m-%d` is 10 characters |
| DateFormat.ClockText | app/routes/context_processors.py:38-40 | `%H:%M:%S` is 8 characters |
| DateFormat.Format | app/routes/context_processors.py:38-40 | date, separator, clock: 19 characters |
| DateFormat.DatePieces | app/routes/context_processors.py:38-40 | the date text is padded year, `-`, padded month, `-`, padded day |
| DateFormat.ClockPieces | app/routes/context_processors.py:38-40 | the clock text is padded hour, `:`, padded minute, `:`, padded second |
| DateFormat.FormatPieces | app/routes/context_processors.py:38-40 | the date text, then the separator, then the clock text |
| DateFormat.DateParse | app/routes/context_processors.py:38-40 | the date text parses back to the date |
| DateFormat.ClockParse | app/routes/context_processors.py:38-40 | the clock fields read back as hour, minute, second |
| DateFormat.FormatParse | app/routes/context_processors.py:38-40 | the formatted instant parses back to it |
| DateFormat.FormatShaped | app/routes/context_processors.py:38-40 | digits everywhere except `-`, `-`, separator, `:`, `:` at 4, 7, 10, 13, 16 |
| DateFormat.ToDatetime | app/routes/context_processors.py:27-40 | a rendered value is 19 characters |
| DateFormat.IsoFormat | app/routes/api.py:31 | a rendered `isoformat()` is 19 characters |
| DateFormat.ToDatetimeWellFormed | app/routes/context_processors.py:38-40 | the output is shaped `YYYY-MM-DD HH:MM:SS` and its fields are a valid date and time |
| DateFormat.ToDatetimeRoundTrip | app/routes/context_processors.py:38-40 | the output names the UTC instant of `ms div 1000` seconds since the epoch |
| DateFormat.IsoFormatRoundTrip | app/routes/api.py:31 | `isoformat()` names the instant of its second |
| DateFormat.ToDatetimeDropsMilliseconds | app/routes/context_processors.py:38 | milliseconds within one second give the same string |
| DateFormat.ToDatetimeInjective | app/routes/context_processors.py:38-40 | equal strings come from the same second |
| DateFormat.NewYear2021Date | tests/test_context_processors.py:32-35 | day 737790 is 2021-01-01 |
| DateFormat.NewYear2021Text | tests/test_context_processors.py:32-35 | that instant formats as "2021-01-01 00:00:00" |
| DateFormat.NewYear2021Instant | tests/test_context_processors.py:32-35 | second 1609459200 is 2021-01-01 00:00:00 |
| DateFormat.ToDatetimeNewYear2021 | tests/test_context_processors.py:32-35 | `to_datetime(1609459200000) == "2021-01-01 00:00:00"` |
| DateFormat.NoonJan2024Date | tests/test_api_routes.py:32 | day 738885 is 2024-01-01 |
| DateFormat.NoonJan2024Text | tests/test_api_routes.py:32 | that noon formats as "2024-01-01T12:00:00" |
| DateFormat.NoonJan2024Instant | tests/test_api_routes.py:32 | second 1704110400 is 2024-01-01 12:00:00 |
| DateFormat.NoonJan2024 | tests/test_api_routes.py:32 | `isoformat()` of second 1704110400 is "2024-01-01T12:00:00" |
| UserModel.NewRow | app/models/user.py:27-47 | a new user: not admin unless asked, no alerts, not suspended, zero login errors, no last login or alert, created now |
| UserModel.User.constructor | app/models/user.py:27-47 | the object's row is the new-user row |
| UserModel.User.SetPassword | app/models/user.py:49-56 | only the hash changes, to the hash of the password |
| UserModel.User.UpdateLastLogin | app/models/user.py:70-75 | only `last_login` changes, to now |
| UserModel.User.UpdateLastAlertTime | app/models/user.py:77-82 | only `last_alert_time` changes, to now, which is then non-null |
| UserModel.User.IncrementLoginError | app/models/user.py:84-89 | only `login_errors` changes, by exactly one; a null counter raises TypeError and changes nothing |
| UserModel.User.SuspendUser | app/models/user.py:91-96 | only `is_suspended` changes, to true; an already suspended user is left as is |
| UserModel.SuspendTwice | tests/test_user_model.py:44-50 | suspending twice is suspending once |
| Session.RegisterDecision | routes/session.py:12-39 | a user is created iff the form is valid, nothing failed and no username or e-mail conflicts, and is admin iff the table was empty; a conflict is a duplicate |
| Session.OnlyFirstUserIsAdmin | routes/session.py:16-21 | on a non-empty table registration never makes an admin |
| Session.FirstRegistrationIsAdmin | routes/session.py:16-21 | on an empty table a valid registration makes an admin |
| Session.FindUser | routes/session.py:47 | `filter_by(username).first()`: the first row with that name, or none |
| Session.LoginDecision | routes/session.py:46-48 | login succeeds iff the form is valid and the first user with that name passes the password check |
| Session.LoginWithUniqueNames | routes/session.py:47-48 | with unique names, login picks exactly that user when its password checks |
| Session.UniqueAppend | routes/session.py:25-26 | a committed row keeps usernames and e-mails unique |
| Session.UniqueUpdate | routes/session.py:51 | updating a row's other fields keeps them unique |
| Session.UserTable.Register | routes/session.py:10-39 | a created user is appended with the new-user row and redirects to login; a rejected form, an unexpected error or a duplicate leaves the table as it was, with the matching flash; uniqueness is kept |
| Session.UserTable.Add | routes/session.py:18-26 | the table grows by exactly the new row |
| Session.UserTable.Login | routes/session.py:42-57 | success stamps only that user's `last_login` and redirects; failure changes nothing and flashes "Wrong usermane or password." when the form was valid |
| RegisterForm.SearchCorrect | app/forms/register.py:20 | the scan finds a character of the class exactly when one occurs |
| RegisterForm.PasswordComplexity | app/forms/register.py:8-29 | passes iff there is an uppercase letter, a lowercase letter, a digit and a special character; otherwise reports the first missing class's message |
| RegisterForm.ComplexityReportsFirstMissing | app/forms/register.py:20-29 | a failing password has a first missing class in the order upper, lower, digit, special, and its message is the one raised |
| RegisterForm.MessagesDistinct | app/forms/register.py:21-29 | the four messages are distinct, so the message names the class |
| RegisterForm.Check | app/forms/register.py:46-62 | only `DataRequired` on a blank value stops the chain |
| RegisterForm.RunChain | app/forms/register.py:52-62 | a chain whose validators all pass adds no message |
| RegisterForm.ChainClean | app/forms/register.py:52-62 | a field is clean exactly when every validator of its chain passed |
| RegisterForm.ChainKeeps | app/forms/register.py:52-62 | once a message is recorded the field keeps at least one |
| RegisterForm.PasswordErrors | app/forms/register.py:52-55 | blank gives only "This field is required."; otherwise the length message when outside 10..50, then the complexity message when one is raised |
| RegisterForm.PasswordAccepted | app/forms/register.py:52-55 | the password field is clean iff the password has 10 to 50 characters and is complex |
| RegisterForm.ConfirmAccepted | app/forms/register.py:56-62 | the confirmation is clean iff it is not blank and equals the password |
| RegisterForm.ValidateFields | app/forms/register.py:32-63 | the form validates iff no field has a message |
| RegisterForm.IdentityAccepted | app/forms/register.py:46-51 | username clean iff not blank; e-mail clean iff not blank and well formed |
| RegisterForm.FieldsAccepted | app/forms/register.py:45-62 | each field is clean exactly when its own rules hold |
| RegisterForm.ValidateExactly | app/forms/register.py:32-63 | the form validates iff reCAPTCHA passed, the username and the address are present, the address is well formed, the password is long enough and complex, and the confirmation repeats it |
| RegisterForm.StrongPassComplex | tests/test_register_form.py:14 | "StrongPass1!" has all four classes |
| RegisterForm.SampleValidates | tests/test_register_form.py:10-23 | the sample submission validates |
| RegisterForm.WeakpassMessage | tests/test_register_form.py:26-35 | "weakpass" is reported for its missing uppercase letter |
| RegisterForm.NonumberMessage | tests/test_register_form.py:26-35 | "nonumber1!" is reported for its missing uppercase letter |
| RegisterForm.NolowerMessage | tests/test_register_form.py:26-35 | "NOLOWER1!" is reported for its missing lowercase letter |
| RegisterForm.NoNumberMessage | tests/test_register_form.py:26-35 | "NoNumber!" is reported for its missing digit |
| RegisterForm.NoSpecialMessage | tests/test_register_form.py:26-35 | "NoSpecial1" is reported for its missing special character |
| RegisterForm.ComplexityFailureRejects | app/forms/register.py:54 | any password the complexity rule rejects puts a message on the password field and fails the form |
| RegisterForm.ShortPasswordMessages | tests/test_register_form.py:62-68 | "Aa1!" draws only the length message |
| RegisterForm.OtherFieldsRejected | tests/test_register_form.py:38-59 | a different confirmation, a malformed address or an empty username each put a message on that field |

## Left out

- Host metric reads (psutil), Flask-Mail, python-telegram-bot with `asyncio.run`, and the SQLAlchemy session and query machinery are foreign. They are inputs: a sample, attempt outcomes, per-user send results, an optional query failure, and in-memory tables.
- `time.sleep(delay)` in the retry loop is not modelled; `delay` only appears in the log text.
- The recursion `send_email` → `exception_handler` → `send_admin_email` is not modelled. An escalation appears in a trace as one `AdminEmailCall(subject, body)` event. The fan-out of `send_admin_email` is modelled on its own.
- In the Telegram and e-mail fan-out traces, each send is one `TelegramCall` or `EmailCall` event standing for the whole decorated call. The warnings, the error line and the escalation that `send_telegram`, `init_telegram_bot` and `send_email` produce through their own `@exception_handler(default_return=False)` are modelled separately (Telegram.SendTelegram, EmailUtils.SendEmail, GuardedSend.Send) and are not spliced into the fan-out trace. The program therefore writes two error lines and sends two escalations per failed send, where the fan-out counts state only the loop's own one.
- Flask wiring is not modelled:
  - On `register`, `login` and both `get_data` views, `@exception_handler()` sits above `@app.route`, so Flask registers the undecorated function and the handler never wraps a request. The views are modelled without it.
  - `login_user`, `session.permanent`, `logout`, templates, `url_for` and flashing are not modelled; responses are template names, endpoint names and flash lists.
  - The CSRF token of the form is not modelled.
- The scheduler, threads and `run_job_with_context` are not modelled.
- Two clocks are one clock. `check_resources` stamps local `now()` while `remove_old_data` cuts off at `utcnow()` minus 24 hours. The model uses one integer clock in seconds, which assumes a UTC host.
- Telegram.NotifyAll: one `now` serves every cooldown comparison and every stamp. `filter_users_and_send_alert_telegram` reads `datetime.now()` afresh for each receiver (app/utils/telegram_utils.py:76), possibly after earlier sends slept in retries, and `update_last_alert_time` reads it once more (app/models/user.py:77-82). The model does not capture time passing within one fan-out.
- Floating point is replaced by reals. CPU, RAM and disk percentages and the MB conversion are `real`. `alerts_frequency_hrs`, a Float column, is taken as whole hours, rendered as "{hrs}.0" in the cooldown warning.
- `cpu_temp` holds either a number or the "Brak danych" string, as models/monitor.py (String(50)) allows. app/models/monitor.py:28 declares it a non-null Float, which the sentinel would not fit; that schema is not part of this model.
- Timestamps are whole seconds. The microseconds that `datetime.now()` would add to `isoformat()` are not modelled.
- The nullable `email_alerts_receiver`, `telegram_alerts_receiver` and `is_suspended` columns are booleans, with NULL read as false. `login_errors` keeps its NULL (`Option<int>`), because `+= 1` on NULL raises TypeError.
- Column defaults apply when a row is created, as SQLAlchemy applies them at insert.
- Password hashing (werkzeug) is a function `hash` and a predicate `verify`.
- The e-mail syntax check (`Email()`, which needs the email_validator package) and the reCAPTCHA check are foreign; only their verdicts enter the form.
- `str.isspace()` is modelled by the fixed list of whitespace code points Python uses; an empty or whitespace-only field counts as missing.
- Session.UserTable.Register (and Session.UserTable.Login): routes/session.py:3 imports `User` from models/user.py, whose class has no `last_alert_time`, `login_errors` or `is_suspended` column and stamps `date_created` and `last_login` with `utcnow()` (models/user.py:16, 25-27). The model's views work on the row of app/models/user.py:27-47 (UserModel.NewRow) instead, so it does not capture the narrower schema or the UTC stamps those views would write.
- routes/session.py imports the `RegisterForm` of forms/register.py, which has no length or complexity rule. The view takes the form's verdict as an input; the rules are modelled on the `app/forms` form that carries them.
- Exception messages of foreign code are modelled only where the source prints them: the KeyError of a missing `TELEGRAM_API_SECRET`, the AttributeErrors of a missing settings or limits row, and the TypeError of comparing the sentinel.
- Api.OrderByTimestamp: SQL does not fix an order among equal timestamps. The model picks one (a stable insertion order), and only sortedness and the permutation are promised about it.
- Telegram.InitTelegramBot: the handler's `False` is modelled as "no bot" (`None`), since the caller only tests truthiness.
- SystemMonitor.MonitorTable.RemoveOldData: the deletion is modelled on the table's sequence; one `commit` at the end is not a separate step.
- The logging of `remove_old_data`, and the log files that utils/logs_utils.py reads and trims, are not modelled. The code logs nothing during removal.
- The front-end JavaScript and the Flask-Admin views are not modelled.
- The other context processors are not modelled.
- config.py and its environment reads are not modelled. The Telegram secret is an optional input.

## Findings

| source | as written | input that shows it | evidently intended | confidence | as-written member | corrected member |
|---|---|---|---|---|---|---|
| app/routes/api.py:28 | `Limits.query.order_by(Limits.timestamp.desc())` uses a column that `Limits` does not have (app/models/limits.py:10-11 declares only `id` and `cpu_temp`), so the AttributeError is caught at line 52 and every request answers 500 | any request, for instance the scenario of tests/test_api_routes.py:7-39: one monitor record and a settings row with `cpu_alert_temp` 80.0, and no limits row | answer 200 with the arrays and the configured limit as `temperature_limit`, and 500 only when no row holds a limit. The tests (tests/test_api_routes.py:12, 39, 42-51) take the limit from the settings row's `cpu_alert_temp`; the code names the newest limits row's `cpu_temp`; the corrected member takes the limit as an input and fits either. Independently, app/models/__init__.py:5-7 exports neither `Limits` nor `Settings`, so the import at app/routes/api.py:2 would fail before line 28 runs | high (not executed) | Api.GetDataAsWritten | Api.GetData |
