/**
 * The `User` row of the monitor's database: identity, the alert-receiver
 * flags, and the timestamps and counters that login and alerting update in
 * place. Timestamps are integer seconds on the monitor's one clock.
 */
module UserModel {
  import opened Wrappers
  import opened Effects

  /** A snapshot of every column of one user, except the surrogate `id`. */
  datatype UserRow = UserRow(
    username: string,
    passwordHash: string,
    isAdmin: bool,
    emailAlertsReceiver: bool,
    email: string,
    telegramAlertsReceiver: bool,
    telegramChatId: Option<string>,
    dateCreated: Option<int>,
    lastLogin: Option<int>,
    lastAlertTime: Option<int>,
    loginErrors: Option<int>,
    isSuspended: bool)

  /** The columns a freshly inserted user has: the declared defaults and the insert time. */
  function NewRow(username: string, email: string, passwordHash: string, isAdmin: bool, now: int): (r: UserRow)
    ensures !r.emailAlertsReceiver && !r.telegramAlertsReceiver && !r.isSuspended
    ensures r.loginErrors == Some(0) && r.lastLogin.None? && r.lastAlertTime.None?
    ensures r.username == username && r.email == email && r.isAdmin == isAdmin
    ensures r.dateCreated == Some(now)
  {
    UserRow(username, passwordHash, isAdmin, false, email, false, None, Some(now), None, None, Some(0), false)
  }

  /** What `+=` on a NULL counter raises. */
  const NullCounterText := "unsupported operand type(s) for +=: 'NoneType' and 'int'"

  class User {
    var username: string
    var passwordHash: string
    var isAdmin: bool
    var emailAlertsReceiver: bool
    var email: string
    var telegramAlertsReceiver: bool
    var telegramChatId: Option<string>
    var dateCreated: Option<int>
    var lastLogin: Option<int>
    var lastAlertTime: Option<int>
    var loginErrors: Option<int>
    var isSuspended: bool

    function Row(): UserRow
      reads this
    {
      UserRow(username, passwordHash, isAdmin, emailAlertsReceiver, email, telegramAlertsReceiver,
              telegramChatId, dateCreated, lastLogin, lastAlertTime, loginErrors, isSuspended)
    }

    /** A user as it stands once inserted: `is_admin` as given (default false), the other defaults, created `now`. */
    constructor (username: string, email: string, passwordHash: string, isAdmin: bool, now: int)
      ensures Row() == NewRow(username, email, passwordHash, isAdmin, now)
    {
      this.username := username;
      this.passwordHash := passwordHash;
      this.isAdmin := isAdmin;
      this.emailAlertsReceiver := false;
      this.email := email;
      this.telegramAlertsReceiver := false;
      this.telegramChatId := None;
      this.dateCreated := Some(now);
      this.lastLogin := None;
      this.lastAlertTime := None;
      this.loginErrors := Some(0);
      this.isSuspended := false;
    }

    /** `set_password`: stores the hash of the password; `hash` stands for the foreign hashing routine. */
    method SetPassword(password: string, hash: string -> string)
      modifies this
      ensures Row() == old(Row()).(passwordHash := hash(password))
    {
      passwordHash := hash(password);
    }

    /** `check_password`: whether the foreign checker `verify` accepts the password against the stored hash. */
    function CheckPassword(password: string, verify: (string, string) -> bool): bool
      reads this
    {
      verify(passwordHash, password)
    }

    method UpdateLastLogin(now: int)
      modifies this
      ensures Row() == old(Row()).(lastLogin := Some(now))
    {
      lastLogin := Some(now);
    }

    method UpdateLastAlertTime(now: int)
      modifies this
      ensures Row() == old(Row()).(lastAlertTime := Some(now))
      ensures lastAlertTime.Some?
    {
      lastAlertTime := Some(now);
    }

    /**
     * `login_errors += 1`. The column is nullable: on a NULL counter Python
     * raises a TypeError and nothing changes.
     */
    method IncrementLoginError() returns (r: Attempt<()>)
      modifies this
      ensures old(loginErrors).Some? ==> r == Returns(()) && Row() == old(Row()).(loginErrors := Some(old(loginErrors).value + 1))
      ensures old(loginErrors).None? ==> r.Raises? && r.exc.cls == TypeErrorClass && Row() == old(Row())
    {
      if loginErrors.None? {
        return Raises(Exception(TypeErrorClass, NullCounterText));
      }
      loginErrors := Some(loginErrors.value + 1);
      r := Returns(());
    }

    /** Sets `is_suspended`; on a suspended user it changes nothing. */
    method SuspendUser()
      modifies this
      ensures Row() == old(Row()).(isSuspended := true)
      ensures old(isSuspended) ==> Row() == old(Row())
    {
      isSuspended := true;
    }
  }

  /** Suspending twice leaves the user as suspending once does. */
  method SuspendTwice(u: User)
    modifies u
    ensures u.Row() == old(u.Row()).(isSuspended := true)
  {
    u.SuspendUser();
    ghost var once := u.Row();
    u.SuspendUser();
    assert u.Row() == once;
  }

  /** The rows of a sequence of users, position by position. */
  function RowsOf(us: seq<User>): (r: seq<UserRow>)
    reads us
    ensures |r| == |us| && forall i :: 0 <= i < |us| ==> r[i] == us[i].Row()
  {
    if us == [] then [] else RowsOf(us[..|us| - 1]) + [us[|us| - 1].Row()]
  }
}
