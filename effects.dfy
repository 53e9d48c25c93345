/**
 * What the monitor does to the outside world, recorded as a trace: log lines,
 * calls to the two transports and to the administrator escalation, database
 * rollbacks and process exit. Exceptions are values too.
 */
module Effects {
  import opened Wrappers

  datatype Event =
    | Info(msg: string)
    | Warning(msg: string)
    | Error(msg: string)
      /** one call of `send_telegram(chat_id, msg)` */
    | TelegramCall(chatId: Option<string>, text: string)
      /** one call of `send_email(email, subject, body)` */
    | EmailCall(to: string, subject: string, body: string)
      /** one call of `send_admin_email(subject, body)`: the operator escalation */
    | AdminEmailCall(subject: string, body: string)
      /** `db.session.rollback()` */
    | Rollback
      /** `sys.exit(code)` */
    | Exit(code: int)
  {
    function Kind(): EventKind {
      match this
      case Info(_) => InfoKind
      case Warning(_) => WarningKind
      case Error(_) => ErrorKind
      case TelegramCall(_, _) => TelegramKind
      case EmailCall(_, _, _) => EmailKind
      case AdminEmailCall(_, _) => AdminKind
      case Rollback => RollbackKind
      case Exit(_) => ExitKind
    }
  }

  datatype EventKind =
    InfoKind | WarningKind | ErrorKind | TelegramKind | EmailKind | AdminKind | RollbackKind | ExitKind

  /** How many events of kind `k` a trace holds. */
  function Count(s: seq<Event>, k: EventKind): (n: nat)
    ensures n <= |s|
  {
    if s == [] then 0 else Count(s[..|s| - 1], k) + (if s[|s| - 1].Kind() == k then 1 else 0)
  }

  lemma {:induction false} CountAppend(s: seq<Event>, t: seq<Event>, k: EventKind)
    ensures Count(s + t, k) == Count(s, k) + Count(t, k)
    decreases |t|
  {
    if t == [] {
      assert s + t == s;
    } else {
      assert (s + t)[..|s + t| - 1] == s + t[..|t| - 1];
      CountAppend(s, t[..|t| - 1], k);
    }
  }

  /** 1 when `e` is of kind `k`, else 0. */
  function KindCount(e: Event, k: EventKind): nat {
    if e.Kind() == k then 1 else 0
  }

  lemma CountOne(e: Event, k: EventKind)
    ensures Count([e], k) == KindCount(e, k)
  {
    assert [e][..0] == [];
  }

  lemma CountTwo(a: Event, b: Event, k: EventKind)
    ensures Count([a, b], k) == KindCount(a, k) + KindCount(b, k)
  {
    assert [a, b][..1] == [a];
    CountOne(a, k);
  }

  lemma CountThree(a: Event, b: Event, c: Event, k: EventKind)
    ensures Count([a, b, c], k) == KindCount(a, k) + KindCount(b, k) + KindCount(c, k)
  {
    assert [a, b, c][..2] == [a, b];
    assert [a, b][..1] == [a];
    CountOne(a, k);
    assert Count([a, b], k) == Count([a], k) + KindCount(b, k);
    assert Count([a, b, c], k) == Count([a, b], k) + KindCount(c, k);
  }

  /** The Python exception classes the monitor raises, catches or names. */
  datatype ExceptionClass =
    | ConnectionErrorClass
    | TimeoutErrorClass
    | RequestExceptionClass
    | SMTPExceptionClass
    | OSErrorClass
    | FileNotFoundErrorClass
    | IndexErrorClass
    | ValueErrorClass
    | TypeErrorClass
    | KeyErrorClass
    | AttributeErrorClass
    | SQLAlchemyErrorClass
    | IntegrityErrorClass
      /** a plain `Exception(...)`, as `retry_connection` raises */
    | PlainException
  {
    /** `type(e).__name__` */
    function Name(): string {
      match this
      case ConnectionErrorClass => "ConnectionError"
      case TimeoutErrorClass => "TimeoutError"
      case RequestExceptionClass => "RequestException"
      case SMTPExceptionClass => "SMTPException"
      case OSErrorClass => "OSError"
      case FileNotFoundErrorClass => "FileNotFoundError"
      case IndexErrorClass => "IndexError"
      case ValueErrorClass => "ValueError"
      case TypeErrorClass => "TypeError"
      case KeyErrorClass => "KeyError"
      case AttributeErrorClass => "AttributeError"
      case SQLAlchemyErrorClass => "SQLAlchemyError"
      case IntegrityErrorClass => "IntegrityError"
      case PlainException => "Exception"
    }
  }

  datatype Exception = Exception(cls: ExceptionClass, msg: string)

  /** What one call of a Python function did: returned a value or raised. */
  datatype Attempt<+T> = Returns(value: T) | Raises(exc: Exception)
}
