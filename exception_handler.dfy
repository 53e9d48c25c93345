/**
 * `exception_handler(default_return=None, db_rollback=False)`: resolves a bot
 * id from the call's arguments for the log prefix, runs the wrapped function,
 * and on any exception logs one error, sends one administrator e-mail,
 * optionally rolls the database session back, and then exits or returns the
 * configured default.
 */
module ExceptionHandler {
  import opened Wrappers
  import opened Effects
  import Text

  /** The Python values that can be passed as arguments; an object is its attribute map. */
  datatype Value =
    | NoneValue
    | IntValue(i: int)
    | BoolValue(b: bool)
    | StrValue(s: string)
    | ObjectValue(attrs: map<string, Value>)

  predicate HasAttr(v: Value, name: string) {
    v.ObjectValue? && name in v.attrs
  }

  /** `isinstance(v, int)`; a bool is an int in Python. */
  predicate IsInt(v: Value) {
    v.IntValue? || v.BoolValue?
  }

  /** Python truthiness. Every object counts as true. */
  predicate Truthy(v: Value) {
    match v
    case NoneValue => false
    case IntValue(i) => i != 0
    case BoolValue(b) => b
    case StrValue(s) => s != ""
    case ObjectValue(_) => true
  }

  /** `str(v)` as an f-string prints it; an object prints as a fixed placeholder. */
  function Repr(v: Value): string {
    match v
    case NoneValue => "None"
    case IntValue(i) => Text.IntToString(i)
    case BoolValue(b) => if b then "True" else "False"
    case StrValue(s) => s
    case ObjectValue(_) => "<object>"
  }

  /** A positional argument that looks like bot settings: it has both `id` and `bot_running`. */
  predicate IsBotSettings(v: Value) {
    HasAttr(v, "id") && HasAttr(v, "bot_running")
  }

  /** The first position from `from` on whose argument satisfies the bot-settings test. */
  function FirstBotSettings(args: seq<Value>, from: nat): (r: Option<nat>)
    requires from <= |args|
    ensures r.Some? ==> from <= r.value < |args| && IsBotSettings(args[r.value])
                        && forall j :: from <= j < r.value ==> !IsBotSettings(args[j])
    ensures r.None? ==> forall j :: from <= j < |args| ==> !IsBotSettings(args[j])
    decreases |args| - from
  {
    if from == |args| then None
    else if IsBotSettings(args[from]) then Some(from)
    else FirstBotSettings(args, from + 1)
  }

  /** The first position from `from` on holding an integer. */
  function FirstInt(args: seq<Value>, from: nat): (r: Option<nat>)
    requires from <= |args|
    ensures r.Some? ==> from <= r.value < |args| && IsInt(args[r.value])
                        && forall j :: from <= j < r.value ==> !IsInt(args[j])
    ensures r.None? ==> forall j :: from <= j < |args| ==> !IsInt(args[j])
    decreases |args| - from
  {
    if from == |args| then None
    else if IsInt(args[from]) then Some(from)
    else FirstInt(args, from + 1)
  }

  /**
   * The reference definition of the bot id: `kwargs["bot_settings"].id`, else
   * the `id` of the first positional bot-settings object; if that is `None`,
   * `kwargs["bot_id"]`, else the first integer positional argument.
   */
  function BotIdOf(args: seq<Value>, kwargs: map<string, Value>): Value {
    var first :=
      if "bot_settings" in kwargs && HasAttr(kwargs["bot_settings"], "id") then
        kwargs["bot_settings"].attrs["id"]
      else
        match FirstBotSettings(args, 0)
        case Some(i) => args[i].attrs["id"]
        case None => NoneValue;
    if first != NoneValue then first
    else if "bot_id" in kwargs then kwargs["bot_id"]
    else match FirstInt(args, 0)
      case Some(i) => args[i]
      case None => NoneValue
  }

  /** The wrapper's resolution loops, with their early exits. */
  method ResolveBotId(args: seq<Value>, kwargs: map<string, Value>) returns (botId: Value)
    ensures botId == BotIdOf(args, kwargs)
  {
    botId := NoneValue;
    if "bot_settings" in kwargs && HasAttr(kwargs["bot_settings"], "id") {
      botId := kwargs["bot_settings"].attrs["id"];
    } else {
      var i := 0;
      while i < |args|
        invariant 0 <= i <= |args| && botId == NoneValue
        invariant FirstBotSettings(args, 0) == FirstBotSettings(args, i)
      {
        if IsBotSettings(args[i]) {
          botId := args[i].attrs["id"];
          break;
        }
        i := i + 1;
      }
    }
    if botId == NoneValue {
      if "bot_id" in kwargs {
        botId := kwargs["bot_id"];
      } else {
        var i := 0;
        while i < |args|
          invariant 0 <= i <= |args| && botId == NoneValue
          invariant FirstInt(args, 0) == FirstInt(args, i)
        {
          if IsInt(args[i]) {
            botId := args[i];
            break;
          }
          i := i + 1;
        }
      }
    }
  }

  /** `f"Bot {bot_id} " if bot_id else ""` */
  function BotStr(botId: Value): (s: string)
    ensures Truthy(botId) <==> s != ""
  {
    if Truthy(botId) then "Bot " + Repr(botId) + " " else ""
  }

  /** The bot id 0 is falsy and gives no prefix; any other integer gives `Bot <n> `. */
  lemma BotStrOfInt(n: int)
    ensures BotStr(IntValue(n)) == if n == 0 then "" else "Bot " + Text.IntToString(n) + " "
  {
  }

  /** `default_return`: the builtin `exit`, another callable (with the value its call returns), or a plain value. */
  datatype DefaultReturn<+T> = ExitBuiltin | CallableReturn(result: T) | PlainReturn(value: T)

  datatype Config<+T> = Config(defaultReturn: DefaultReturn<T>, dbRollback: bool)

  /** The decorator's defaults: `default_return=None` (here the caller's choice of "none" value) and no rollback. */
  function DefaultConfig<T>(none: T): Config<T> {
    Config(PlainReturn(none), false)
  }

  /** What the wrapped call finally does. */
  datatype Outcome<+T> = Returned(value: T) | Exited(code: int)

  /** The classes the first `except` clause names; every other exception is reported as "Exception". */
  predicate NamedClass(c: ExceptionClass) {
    c in {IndexErrorClass, ConnectionErrorClass, TimeoutErrorClass, ValueErrorClass,
          TypeErrorClass, FileNotFoundErrorClass, SQLAlchemyErrorClass, IntegrityErrorClass}
  }

  function ExceptionType(e: Exception): string {
    if NamedClass(e.cls) then e.cls.Name() else "Exception"
  }

  /** The first line of every escalation e-mail body. */
  const MailHeader := "StefanCryptoTradingBot\n"

  function AdminSubject(botStr: string, e: Exception, funcName: string): string {
    botStr + ExceptionType(e) + " in " + funcName
  }

  const RollbackText := "db.session.rollback() Database transaction rollback executed."
  const ExitText := "sys.exit(1) Exiting program due to an error."

  /** The catch path: log, escalate, roll back when asked, then exit or return the default. */
  function CatchPath<T>(cfg: Config<T>, botStr: string, funcName: string, e: Exception): (r: (Outcome<T>, seq<Event>))
    ensures |r.1| >= 2 && r.1[0] == Error(AdminSubject(botStr, e, funcName) + ": " + e.msg)
    ensures r.1[1].AdminEmailCall? && r.1[1].subject == AdminSubject(botStr, e, funcName)
    ensures Count(r.1, AdminKind) == 1 && Count(r.1, WarningKind) == 0 && Count(r.1, InfoKind) == 0
    ensures Count(r.1, RollbackKind) == (if cfg.dbRollback then 1 else 0)
    ensures r.0.Exited? <==> cfg.defaultReturn.ExitBuiltin?
    ensures r.0.Exited? ==> r.0.code == 1
    ensures cfg.defaultReturn.CallableReturn? ==> r.0 == Returned(cfg.defaultReturn.result)
    ensures cfg.defaultReturn.PlainReturn? ==> r.0 == Returned(cfg.defaultReturn.value)
    ensures !cfg.dbRollback && !cfg.defaultReturn.ExitBuiltin? ==> Count(r.1, ErrorKind) == 1 && |r.1| == 2
  {
    var kind := ExceptionType(e);
    var report := [Error(botStr + kind + " in " + funcName + ": " + e.msg),
                   AdminEmailCall(AdminSubject(botStr, e, funcName),
                                  MailHeader + kind + " in " + funcName + "\n\n" + e.msg)];
    var rollback := if cfg.dbRollback then [Rollback, Error(RollbackText)] else [];
    CountOfReport(report, rollback, botStr + kind + " in " + funcName + ": " + e.msg,
                  AdminSubject(botStr, e, funcName),
                  MailHeader + kind + " in " + funcName + "\n\n" + e.msg);
    match cfg.defaultReturn
    case ExitBuiltin =>
      CountExitTail(report + rollback);
      (Exited(1), report + rollback + [Error(ExitText), Exit(1)])
    case CallableReturn(v) => (Returned(v), report + rollback)
    case PlainReturn(v) => (Returned(v), report + rollback)
  }

  lemma CountOfReport(report: seq<Event>, rollback: seq<Event>, err: string, subject: string, body: string)
    requires report == [Error(err), AdminEmailCall(subject, body)]
    requires rollback == [] || rollback == [Rollback, Error(RollbackText)]
    ensures Count(report + rollback, AdminKind) == 1 && Count(report + rollback, WarningKind) == 0
    ensures Count(report + rollback, InfoKind) == 0
    ensures Count(report + rollback, RollbackKind) == (if rollback == [] then 0 else 1)
    ensures rollback == [] ==> Count(report + rollback, ErrorKind) == 1
  {
    assert report[..1] == [Error(err)] && report[..1][..0] == [];
    CountAppend(report, rollback, AdminKind);
    CountAppend(report, rollback, WarningKind);
    CountAppend(report, rollback, InfoKind);
    CountAppend(report, rollback, RollbackKind);
    CountAppend(report, rollback, ErrorKind);
    if rollback != [] {
      assert rollback[..1] == [Rollback] && rollback[..1][..0] == [];
    }
  }

  lemma CountExitTail(s: seq<Event>)
    ensures Count(s + [Error(ExitText), Exit(1)], AdminKind) == Count(s, AdminKind)
    ensures Count(s + [Error(ExitText), Exit(1)], WarningKind) == Count(s, WarningKind)
    ensures Count(s + [Error(ExitText), Exit(1)], InfoKind) == Count(s, InfoKind)
    ensures Count(s + [Error(ExitText), Exit(1)], RollbackKind) == Count(s, RollbackKind)
  {
    var tail := [Error(ExitText), Exit(1)];
    assert tail[..1] == [Error(ExitText)] && tail[..1][..0] == [];
    CountAppend(s, tail, AdminKind);
    CountAppend(s, tail, WarningKind);
    CountAppend(s, tail, InfoKind);
    CountAppend(s, tail, RollbackKind);
  }

  /**
   * The whole wrapper around one call whose own behaviour is `call`. Without
   * an exception the result passes through untouched and nothing is logged.
   */
  function Handle<T>(cfg: Config<T>, args: seq<Value>, kwargs: map<string, Value>, funcName: string,
                     call: Attempt<T>): (r: (Outcome<T>, seq<Event>))
    ensures call.Returns? ==> r == (Returned(call.value), [])
    ensures call.Raises? ==> Count(r.1, AdminKind) == 1 && |r.1| >= 2
    ensures call.Raises? ==>
      r.1[0] == Error(AdminSubject(BotStr(BotIdOf(args, kwargs)), call.exc, funcName) + ": " + call.exc.msg)
    ensures Count(r.1, WarningKind) == 0 && Count(r.1, InfoKind) == 0
    ensures call.Raises? ==>
      r.1[1].AdminEmailCall? && r.1[1].subject == AdminSubject(BotStr(BotIdOf(args, kwargs)), call.exc, funcName)
    ensures call.Raises? ==> match cfg.defaultReturn
      case ExitBuiltin => r.0 == Exited(1)
      case CallableReturn(v) => r.0 == Returned(v)
      case PlainReturn(v) => r.0 == Returned(v)
    ensures Count(r.1, RollbackKind) == (if cfg.dbRollback && call.Raises? then 1 else 0)
    ensures call.Raises? && !cfg.dbRollback && !cfg.defaultReturn.ExitBuiltin? ==> |r.1| == 2
  {
    match call
    case Returns(v) => (Returned(v), [])
    case Raises(e) => CatchPath(cfg, BotStr(BotIdOf(args, kwargs)), funcName, e)
  }

  /** With both resolution sources present, `bot_settings` wins over `bot_id`. */
  lemma BotSettingsFirst(id: int, other: Value, args: seq<Value>)
    requires id != 0
    ensures var settings := ObjectValue(map["id" := IntValue(id), "bot_running" := BoolValue(true)]);
      BotIdOf(args, map["bot_settings" := settings, "bot_id" := other]) == IntValue(id)
  {
  }

  /** A `None` id in the settings falls through to `kwargs["bot_id"]`. */
  lemma NoneSettingsIdFallsThrough(other: Value, args: seq<Value>)
    ensures var settings := ObjectValue(map["id" := NoneValue]);
      BotIdOf(args, map["bot_settings" := settings, "bot_id" := other]) == other
  {
  }

  /** `str(123)` */
  lemma Repr123()
    ensures Repr(IntValue(123)) == "123"
  {
    assert Text.NatToString(1) == "1";
    assert Text.NatToString(12) == Text.NatToString(1) + "2";
    assert Text.NatToString(123) == Text.NatToString(12) + "3";
  }

  lemma BotStr123()
    ensures BotStr(IntValue(123)) == "Bot 123 "
  {
    Repr123();
  }

  lemma BotId123(settings: Value)
    requires settings == ObjectValue(map["id" := IntValue(123), "bot_running" := BoolValue(true)])
    ensures BotIdOf([], map["bot_settings" := settings]) == IntValue(123)
  {
  }

  /** The subject the decorator's own test expects for `bot_settings.id == 123`. */
  lemma Bot123Subject(funcName: string, msg: string)
    ensures var settings := ObjectValue(map["id" := IntValue(123), "bot_running" := BoolValue(true)]);
      var r := Handle(DefaultConfig(NoneValue), [], map["bot_settings" := settings], funcName,
                      Raises(Exception(ValueErrorClass, msg)));
      r.0 == Returned(NoneValue) && r.1[1].subject == "Bot 123 ValueError in " + funcName
  {
    var settings := ObjectValue(map["id" := IntValue(123), "bot_running" := BoolValue(true)]);
    var e := Exception(ValueErrorClass, msg);
    BotId123(settings);
    BotStr123();
    var r := Handle(DefaultConfig(NoneValue), [], map["bot_settings" := settings], funcName, Raises(e));
    assert r.1[1].subject == AdminSubject("Bot 123 ", e, funcName);
    ValueErrorSubject(e, funcName);
  }

  lemma ValueErrorSubject(e: Exception, funcName: string)
    requires e.cls == ValueErrorClass
    ensures AdminSubject("Bot 123 ", e, funcName) == "Bot 123 ValueError in " + funcName
  {
    assert ExceptionType(e) == "ValueError";
    assert "Bot 123 " + "ValueError" + " in " == "Bot 123 ValueError in ";
  }
}
