/**
 * The `/register` and `/login` views over the user table. The form's own
 * validation, the hashing routine and any failure of the database before the
 * commit are inputs; what the views do with them is modelled.
 */
module Session {
  import opened Wrappers
  import opened UserModel

  datatype Flash = Flash(message: string, category: string)

  /** What a view hands back to Flask. */
  datatype Response = Render(template: string) | Redirect(endpoint: string)

  const RegisterTemplate := "user/register.html"
  const LoginTemplate := "user/login.html"
  const RegisteredText := "Registration completed. You can log in now"
  const DuplicateText := "User with this username or email already exists."
  const WrongCredentialsText := "Wrong usermane or password."
  const UnexpectedPrefix := "Unexpecter error occured: "
  const WelcomePrefix := "Logged in succefully. Welcome back "

  /** The unique constraints of the `username` and `email` columns would reject this pair. */
  predicate Conflicts(rows: seq<UserRow>, username: string, email: string) {
    exists i :: 0 <= i < |rows| && (rows[i].username == username || rows[i].email == email)
  }

  /** How one POST to `/register` ends, decided on the rows before it. */
  datatype RegisterOutcome =
    | FormRejected
    | UnexpectedError(msg: string)
    | Duplicate
    | Created(isAdmin: bool)

  /** `failure` is an exception some step before the commit raised; the commit itself fails exactly on a conflict. */
  function RegisterDecision(rows: seq<UserRow>, formValid: bool, username: string, email: string,
                            failure: Option<string>): (o: RegisterOutcome)
    ensures o.Created? <==> formValid && failure.None? && !Conflicts(rows, username, email)
    ensures o.Created? ==> (o.isAdmin <==> rows == [])
    ensures o.Duplicate? <==> formValid && failure.None? && Conflicts(rows, username, email)
  {
    if !formValid then FormRejected
    else if failure.Some? then UnexpectedError(failure.value)
    else if Conflicts(rows, username, email) then Duplicate
    else Created(rows == [])
  }

  /** Only the first user ever registered becomes an administrator. */
  lemma OnlyFirstUserIsAdmin(rows: seq<UserRow>, username: string, email: string)
    requires |rows| >= 1
    ensures RegisterDecision(rows, true, username, email, None) in {Duplicate, Created(false)}
  {
  }

  /** On an empty table any valid registration succeeds, and as an administrator. */
  lemma FirstRegistrationIsAdmin(username: string, email: string)
    ensures RegisterDecision([], true, username, email, None) == Created(true)
  {
    assert !Conflicts([], username, email);
  }

  /** The user a login attempt finds: the first with that username, as `filter_by(...).first()` does. */
  function FindUser(rows: seq<UserRow>, username: string, from: nat): (r: Option<nat>)
    requires from <= |rows|
    ensures r.Some? ==> from <= r.value < |rows| && rows[r.value].username == username
                        && forall j :: from <= j < r.value ==> rows[j].username != username
    ensures r.None? ==> forall j :: from <= j < |rows| ==> rows[j].username != username
    decreases |rows| - from
  {
    if from == |rows| then None
    else if rows[from].username == username then Some(from)
    else FindUser(rows, username, from + 1)
  }

  /** The position of the user who logs in, if the attempt succeeds. */
  function LoginDecision(rows: seq<UserRow>, formValid: bool, username: string, password: string,
                         verify: (string, string) -> bool): (r: Option<nat>)
    ensures r.Some? <==> formValid && exists i :: 0 <= i < |rows| && rows[i].username == username
                                                  && (forall j :: 0 <= j < i ==> rows[j].username != username)
                                                  && verify(rows[i].passwordHash, password)
    ensures r.Some? ==> r.value < |rows| && rows[r.value].username == username
  {
    if !formValid then None
    else match FindUser(rows, username, 0)
      case None => None
      case Some(i) => if verify(rows[i].passwordHash, password) then Some(i) else None
  }

  /** With usernames unique, a login succeeds exactly when the named user's password is accepted. */
  lemma LoginWithUniqueNames(rows: seq<UserRow>, i: nat, password: string, verify: (string, string) -> bool)
    requires i < |rows|
    requires forall j, k :: 0 <= j < k < |rows| ==> rows[j].username != rows[k].username
    ensures LoginDecision(rows, true, rows[i].username, password, verify) == (if verify(rows[i].passwordHash, password) then Some(i) else None)
  {
    assert FindUser(rows, rows[i].username, 0).Some?;
  }

  /** The two unique columns hold no duplicate. */
  predicate UniqueColumns(rows: seq<UserRow>) {
    forall i, j :: 0 <= i < j < |rows| ==> rows[i].username != rows[j].username && rows[i].email != rows[j].email
  }

  /** A row that conflicts with no row keeps the columns unique. */
  lemma UniqueAppend(rows: seq<UserRow>, r: UserRow)
    requires UniqueColumns(rows) && !Conflicts(rows, r.username, r.email)
    ensures UniqueColumns(rows + [r])
  {
    var all := rows + [r];
    forall i, j | 0 <= i < j < |all| ensures all[i].username != all[j].username && all[i].email != all[j].email {
      if j == |rows| {
        assert all[i] == rows[i];
      }
    }
  }

  /** Changing a row without touching its unique columns keeps them unique. */
  lemma UniqueUpdate(rows: seq<UserRow>, k: nat, r: UserRow)
    requires k < |rows| && UniqueColumns(rows)
    requires r.username == rows[k].username && r.email == rows[k].email
    ensures UniqueColumns(rows[k := r])
  {
  }

  class UserTable {
    var users: seq<User>

    function Rows(): seq<UserRow>
      reads this, users
    {
      RowsOf(users)
    }

    /** Distinct objects, and the two unique columns hold no duplicate. */
    predicate Valid()
      reads this, users
    {
      (forall i, j :: 0 <= i < j < |users| ==> users[i] != users[j]) && UniqueColumns(Rows())
    }

    constructor ()
      ensures users == [] && Valid()
    {
      users := [];
    }

    /**
     * `register`. A valid form either adds exactly one user, administrator
     * exactly when the table was empty, or rolls back and leaves the table as
     * it was.
     */
    method Register(formValid: bool, username: string, email: string, password: string,
                    hash: string -> string, now: int, failure: Option<string>)
      returns (resp: Response, flashes: seq<Flash>)
      requires Valid()
      modifies this
      ensures Valid()
      ensures var o := RegisterDecision(old(Rows()), formValid, username, email, failure);
        match o
        case FormRejected => users == old(users) && resp == Render(RegisterTemplate) && flashes == []
        case UnexpectedError(msg) =>
          users == old(users) && resp == Render(RegisterTemplate)
          && flashes == [Flash(UnexpectedPrefix + msg, "danger")]
        case Duplicate =>
          users == old(users) && resp == Render(RegisterTemplate) && flashes == [Flash(DuplicateText, "danger")]
        case Created(isAdmin) =>
          |users| == |old(users)| + 1 && users[..|old(users)|] == old(users)
          && fresh(users[|old(users)|])
          && users[|old(users)|].Row() == NewRow(username, email, hash(password), isAdmin, now)
          && resp == Redirect("login") && flashes == [Flash(RegisteredText, "success")]
      ensures Rows()[..|old(users)|] == old(Rows())
    {
      var o := RegisterDecision(Rows(), formValid, username, email, failure);
      if o.FormRejected? {
        return Render(RegisterTemplate), [];
      }
      if o.UnexpectedError? {
        return Render(RegisterTemplate), [Flash(UnexpectedPrefix + o.msg, "danger")];
      }
      if o.Duplicate? {
        return Render(RegisterTemplate), [Flash(DuplicateText, "danger")];
      }
      Add(username, email, password, hash, o.isAdmin, now);
      resp, flashes := Redirect("login"), [Flash(RegisteredText, "success")];
    }

    /** The successful path of `register`: construct, hash the password, add and commit one user. */
    method Add(username: string, email: string, password: string, hash: string -> string, isAdmin: bool, now: int)
      requires Valid() && !Conflicts(Rows(), username, email)
      modifies this
      ensures Valid()
      ensures |users| == |old(users)| + 1 && users[..|old(users)|] == old(users) && fresh(users[|old(users)|])
      ensures users[|old(users)|].Row() == NewRow(username, email, hash(password), isAdmin, now)
      ensures Rows() == old(Rows()) + [NewRow(username, email, hash(password), isAdmin, now)]
    {
      ghost var rows := Rows();
      var u := new User(username, email, "", isAdmin, now);
      u.SetPassword(password, hash);
      var row := NewRow(username, email, hash(password), isAdmin, now);
      users := users + [u];
      assert users[..|users| - 1] == old(users);
      assert Rows() == rows + [row] by {
        forall i | 0 <= i < |users| ensures Rows()[i] == (rows + [row])[i] {
          if i < |users| - 1 {
            assert users[i] == old(users)[i];
          }
        }
      }
      UniqueAppend(rows, row);
    }

    /**
     * `login`. A success stamps `last_login` on exactly the user who logged
     * in; a failure changes nothing.
     */
    method Login(formValid: bool, username: string, password: string,
                 verify: (string, string) -> bool, now: int)
      returns (resp: Response, flashes: seq<Flash>)
      requires Valid()
      modifies users
      ensures Valid() && users == old(users)
      ensures match LoginDecision(old(Rows()), formValid, username, password, verify)
        case Some(i) =>
          Rows() == old(Rows())[i := old(Rows())[i].(lastLogin := Some(now))]
          && resp == Redirect("admin.index")
          && flashes == [Flash(WelcomePrefix + username, "success")]
        case None =>
          Rows() == old(Rows()) && resp == Render(LoginTemplate)
          && flashes == (if formValid then [Flash(WrongCredentialsText, "danger")] else [])
    {
      var d := LoginDecision(Rows(), formValid, username, password, verify);
      if d.None? {
        if formValid {
          return Render(LoginTemplate), [Flash(WrongCredentialsText, "danger")];
        }
        return Render(LoginTemplate), [];
      }
      ghost var rows := Rows();
      var u := users[d.value];
      u.UpdateLastLogin(now);
      assert RowsOf(users) == rows[d.value := rows[d.value].(lastLogin := Some(now))] by {
        forall k | 0 <= k < |users|
          ensures RowsOf(users)[k] == rows[d.value := rows[d.value].(lastLogin := Some(now))][k]
        {
          if k != d.value {
            assert users[k] != u;
          }
        }
      }
      UniqueUpdate(rows, d.value, rows[d.value].(lastLogin := Some(now)));
      resp, flashes := Redirect("admin.index"), [Flash(WelcomePrefix + u.username, "success")];
    }
  }
}
