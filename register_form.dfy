/**
 * The registration form of the `app` package: the password-complexity
 * validator and the validator chains of the form's fields. A field's chain
 * runs as WTForms runs it: a `ValidationError` records its message and the
 * chain goes on, the `StopValidation` that `DataRequired` raises clears the
 * field's messages, records its own and ends the chain. The e-mail syntax
 * check and the reCAPTCHA check are foreign and come in as their outcomes.
 */
module RegisterForm {
  import opened Wrappers
  import Text

  /** The four character classes the complexity validator searches for, in the order it searches. */
  datatype CharClass = Upper | Lower | Digit | Special

  /** The members of the regular-expression class `[!@#$%^&*(),.?":{}|<>]`. */
  const SpecialChars: set<char> :=
    {'!', '@', '#', '$', '%', '^', '&', '*', '(', ')', ',', '.', '?', '"', ':', '{', '}', '|', '<', '>'}

  predicate InClass(c: char, cls: CharClass) {
    match cls
    case Upper => 'A' <= c <= 'Z'
    case Lower => 'a' <= c <= 'z'
    case Digit => '0' <= c <= '9'
    case Special => c in SpecialChars
  }

  /** Specification of `re.search` with a one-class pattern: some character of `s` is in the class. */
  ghost predicate Occurs(s: string, cls: CharClass) {
    exists i :: 0 <= i < |s| && InClass(s[i], cls)
  }

  /** `re.search(pattern, s)` for a one-character-class pattern: a left-to-right scan. */
  function Search(s: string, cls: CharClass): bool {
    if |s| == 0 then false
    else InClass(s[0], cls) || Search(s[1..], cls)
  }

  /** The scan finds a character of the class exactly when one occurs. */
  lemma {:induction false} SearchCorrect(s: string, cls: CharClass)
    ensures Search(s, cls) <==> Occurs(s, cls)
  {
    if |s| > 0 {
      SearchCorrect(s[1..], cls);
      if Occurs(s[1..], cls) {
        var i :| 0 <= i < |s[1..]| && InClass(s[1..][i], cls);
        assert InClass(s[i + 1], cls);
      }
      if Occurs(s, cls) && !InClass(s[0], cls) {
        var i :| 0 <= i < |s| && InClass(s[i], cls);
        assert i > 0 && InClass(s[1..][i - 1], cls);
      }
    }
  }

  const UpperMessage := "Password must contain at least one uppercase letter."
  const LowerMessage := "Password must contain at least one lowercase letter."
  const DigitMessage := "Password must contain at least one digit."
  const SpecialMessage := "Password must contain at least one special character."

  function MessageOf(cls: CharClass): string {
    match cls
    case Upper => UpperMessage
    case Lower => LowerMessage
    case Digit => DigitMessage
    case Special => SpecialMessage
  }

  function Rank(cls: CharClass): nat {
    match cls
    case Upper => 0
    case Lower => 1
    case Digit => 2
    case Special => 3
  }

  /** The password has a character of every class. */
  ghost predicate Complex(p: string) {
    Occurs(p, Upper) && Occurs(p, Lower) && Occurs(p, Digit) && Occurs(p, Special)
  }

  /** `cls` is missing from the password and every class searched before it is present. */
  ghost predicate FirstMissing(p: string, cls: CharClass) {
    !Occurs(p, cls) && forall c: CharClass :: Rank(c) < Rank(cls) ==> Occurs(p, c)
  }

  /**
   * `password_complexity`: `None` when the password passes, otherwise the
   * message of the first class, in search order, that it lacks.
   */
  function PasswordComplexity(p: string): (r: Option<string>)
    ensures r.None? <==> Complex(p)
    ensures forall cls: CharClass :: FirstMissing(p, cls) ==> r == Some(MessageOf(cls))
  {
    SearchCorrect(p, Upper);
    SearchCorrect(p, Lower);
    SearchCorrect(p, Digit);
    SearchCorrect(p, Special);
    if !Search(p, Upper) then Some(UpperMessage)
    else if !Search(p, Lower) then Some(LowerMessage)
    else if !Search(p, Digit) then Some(DigitMessage)
    else if !Search(p, Special) then Some(SpecialMessage)
    else None
  }

  /** A failing password has exactly one first missing class, and its message is the one reported. */
  lemma ComplexityReportsFirstMissing(p: string)
    requires !Complex(p)
    ensures exists cls: CharClass :: FirstMissing(p, cls) && PasswordComplexity(p) == Some(MessageOf(cls))
  {
    var cls := if !Occurs(p, Upper) then Upper else if !Occurs(p, Lower) then Lower
      else if !Occurs(p, Digit) then Digit else Special;
    assert FirstMissing(p, cls);
  }

  /** The four messages are distinct, so the message names the class. */
  lemma MessagesDistinct(a: CharClass, b: CharClass)
    ensures MessageOf(a) == MessageOf(b) <==> a == b
  {
    if a != b {
      assert MessageOf(a)[35] != MessageOf(b)[35] || |MessageOf(a)| != |MessageOf(b)|;
    }
  }

  /** The characters Python's `str.strip()` removes (`str.isspace()`). */
  predicate IsSpace(c: char) {
    '\t' <= c <= '\r' || '\U{1C}' <= c <= ' ' || '\U{2000}' <= c <= '\U{200A}'
    || c in {'\U{85}', '\U{A0}', '\U{1680}', '\U{2028}', '\U{2029}', '\U{202F}', '\U{205F}', '\U{3000}'}
  }

  /** What `DataRequired` rejects: an empty value, or one made of whitespace only. */
  predicate Blank(s: string) {
    forall i :: 0 <= i < |s| ==> IsSpace(s[i])
  }

  /** One validator of a field's chain. `Email` carries the verdict of the foreign address check. */
  datatype Validator =
    | DataRequired
    | Length(min: int, max: int)
    | Complexity
    | EqualTo(other: string, message: string)
    | Email(valid: bool)

  /** What a validator does with a value: nothing, a `ValidationError`, or a `StopValidation`. */
  datatype Verdict = Pass | Fail(message: string) | Stop(message: string)

  const RequiredMessage := "This field is required."
  const EmailMessage := "Invalid email address."
  const MismatchMessage := "Passwords must match."
  const BetweenPrefix := "Field must be between "
  const BetweenInfix := " and "
  const BetweenSuffix := " characters long."

  /** The default message of `Length` when both bounds are given. */
  function LengthMessage(min: int, max: int): string {
    BetweenPrefix + Text.IntToString(min) + BetweenInfix + Text.IntToString(max) + BetweenSuffix
  }

  function Check(v: Validator, data: string): (r: Verdict)
    ensures r.Stop? <==> v.DataRequired? && Blank(data)
  {
    match v
    case DataRequired => if Blank(data) then Stop(RequiredMessage) else Pass
    case Length(min, max) =>
      if min <= |data| && (max == -1 || |data| <= max) then Pass
      else Fail(LengthMessage(min, max))
    case Complexity =>
      var c := PasswordComplexity(data);
      if c.None? then Pass else Fail(c.value)
    case EqualTo(other, message) => if data == other then Pass else Fail(message)
    case Email(valid) => if valid then Pass else Fail(EmailMessage)
  }

  /** Runs the rest of a chain `vs` with `errors` recorded so far; the field's final message list. */
  function RunChain(vs: seq<Validator>, data: string, errors: seq<string>): (r: seq<string>)
    ensures (forall k :: 0 <= k < |vs| ==> Check(vs[k], data).Pass?) ==> r == errors
    decreases |vs|
  {
    if |vs| == 0 then errors
    else match Check(vs[0], data)
      case Pass => RunChain(vs[1..], data, errors)
      case Fail(m) => RunChain(vs[1..], data, errors + [m])
      case Stop(m) => [m]
  }

  /** A chain after which no message is left is one whose every validator passed. */
  lemma {:induction false} ChainClean(vs: seq<Validator>, data: string)
    ensures RunChain(vs, data, []) == [] <==> forall k :: 0 <= k < |vs| ==> Check(vs[k], data).Pass?
    decreases |vs|
  {
    if |vs| > 0 {
      match Check(vs[0], data)
      case Pass =>
        ChainClean(vs[1..], data);
        forall k | 0 <= k < |vs[1..]| ensures Check(vs[1..][k], data) == Check(vs[k + 1], data) { }
      case Fail(m) =>
        assert [] + [m] == [m];
        ChainKeeps(vs[1..], data, [m]);
      case Stop(m) =>
    }
  }

  /** Once a message is recorded, the chain ends with at least one message. */
  lemma {:induction false} ChainKeeps(vs: seq<Validator>, data: string, errors: seq<string>)
    requires errors != []
    ensures RunChain(vs, data, errors) != []
    decreases |vs|
  {
    if |vs| > 0 {
      match Check(vs[0], data)
      case Pass => ChainKeeps(vs[1..], data, errors);
      case Fail(m) => ChainKeeps(vs[1..], data, errors + [m]);
      case Stop(m) =>
    }
  }

  /** The value a browser submits for each field of the form. */
  datatype Submission = Submission(username: string, email: string, password: string, confirmPassword: string)

  const UsernameChain: seq<Validator> := [DataRequired]
  function EmailChain(emailValid: bool): seq<Validator> { [DataRequired, Email(emailValid)] }
  const PasswordChain: seq<Validator> := [DataRequired, Length(10, 50), Complexity]
  function ConfirmChain(password: string): seq<Validator> { [DataRequired, EqualTo(password, MismatchMessage)] }

  /** The messages the password field collects. */
  function PasswordErrors(p: string): (r: seq<string>)
    ensures Blank(p) ==> r == [RequiredMessage]
    ensures !Blank(p) ==>
      r == (if 10 <= |p| <= 50 then [] else [LengthMessage(10, 50)])
        + (if PasswordComplexity(p).None? then [] else [PasswordComplexity(p).value])
  {
    RunChain(PasswordChain, p, [])
  }

  /** The password field is clean exactly when the password is 10 to 50 characters long and complex. */
  lemma PasswordAccepted(p: string)
    ensures PasswordErrors(p) == [] <==> 10 <= |p| <= 50 && Complex(p)
  {
    if Complex(p) {
      ComplexNotBlank(p);
    }
  }

  /** A complex password has an uppercase letter, which `strip()` keeps. */
  lemma ComplexNotBlank(p: string)
    requires Complex(p)
    ensures !Blank(p)
  {
    var i :| 0 <= i < |p| && InClass(p[i], Upper);
    assert !IsSpace(p[i]);
  }

  /** The confirmation field is clean exactly when it is not blank and repeats the password. */
  lemma ConfirmAccepted(c: string, p: string)
    ensures RunChain(ConfirmChain(p), c, []) == [] <==> !Blank(c) && c == p
  {
    ChainClean(ConfirmChain(p), c);
  }

  /** The form's fields that carry validators; `Name` is the key `form.errors` uses. */
  datatype Field = RecaptchaField | UsernameField | EmailField | PasswordField | ConfirmField {
    function Name(): string {
      match this
      case RecaptchaField => "recaptcha"
      case UsernameField => "username"
      case EmailField => "email"
      case PasswordField => "password"
      case ConfirmField => "confirm_password"
    }
  }

  /** The messages one field collects on this submission. */
  function FieldErrors(s: Submission, emailValid: bool, recaptchaErrors: seq<string>, field: Field): seq<string> {
    match field
    case RecaptchaField => recaptchaErrors
    case UsernameField => RunChain(UsernameChain, s.username, [])
    case EmailField => RunChain(EmailChain(emailValid), s.email, [])
    case PasswordField => PasswordErrors(s.password)
    case ConfirmField => RunChain(ConfirmChain(s.password), s.confirmPassword, [])
  }

  /** `form.errors`: the fields whose chains left a message, with the messages. */
  function Errors(s: Submission, emailValid: bool, recaptchaErrors: seq<string>): map<Field, seq<string>> {
    map f: Field | FieldErrors(s, emailValid, recaptchaErrors, f) != [] :: FieldErrors(s, emailValid, recaptchaErrors, f)
  }

  /** `form.validate()`: no field has a message. */
  function Validate(s: Submission, emailValid: bool, recaptchaErrors: seq<string>): bool {
    |Errors(s, emailValid, recaptchaErrors)| == 0
  }

  /** The form validates exactly when no field collected a message. */
  lemma ValidateFields(s: Submission, emailValid: bool, recaptchaErrors: seq<string>)
    ensures Validate(s, emailValid, recaptchaErrors) <==>
      forall f: Field :: FieldErrors(s, emailValid, recaptchaErrors, f) == []
  {
    var r := Errors(s, emailValid, recaptchaErrors);
    if forall f: Field :: FieldErrors(s, emailValid, recaptchaErrors, f) == [] {
      forall f: Field ensures f !in r { }
      assert r == map[];
    } else {
      var f: Field :| FieldErrors(s, emailValid, recaptchaErrors, f) != [];
      assert f in r;
    }
  }

  /** The username and e-mail fields are clean exactly when their values are present (and, for the address, well formed). */
  lemma IdentityAccepted(s: Submission, emailValid: bool, recaptchaErrors: seq<string>)
    ensures FieldErrors(s, emailValid, recaptchaErrors, UsernameField) == [] <==> !Blank(s.username)
    ensures FieldErrors(s, emailValid, recaptchaErrors, EmailField) == [] <==> !Blank(s.email) && emailValid
  {
    ChainClean(EmailChain(emailValid), s.email);
    ChainClean(UsernameChain, s.username);
  }

  /** Each field is clean exactly when its own rules hold. */
  lemma FieldsAccepted(s: Submission, emailValid: bool, recaptchaErrors: seq<string>)
    ensures FieldErrors(s, emailValid, recaptchaErrors, RecaptchaField) == [] <==> recaptchaErrors == []
    ensures FieldErrors(s, emailValid, recaptchaErrors, UsernameField) == [] <==> !Blank(s.username)
    ensures FieldErrors(s, emailValid, recaptchaErrors, EmailField) == [] <==> !Blank(s.email) && emailValid
    ensures FieldErrors(s, emailValid, recaptchaErrors, PasswordField) == [] <==>
      10 <= |s.password| <= 50 && Complex(s.password)
    ensures FieldErrors(s, emailValid, recaptchaErrors, ConfirmField) == [] <==>
      !Blank(s.confirmPassword) && s.confirmPassword == s.password
  {
    IdentityAccepted(s, emailValid, recaptchaErrors);
    PasswordAccepted(s.password);
    ConfirmAccepted(s.confirmPassword, s.password);
  }

  /**
   * The form validates exactly when the reCAPTCHA passed, the username is
   * not blank, the address is not blank and well formed, the password is 10
   * to 50 characters and complex, and the confirmation repeats it.
   */
  lemma ValidateExactly(s: Submission, emailValid: bool, recaptchaErrors: seq<string>)
    ensures Validate(s, emailValid, recaptchaErrors) <==>
      recaptchaErrors == [] && !Blank(s.username) && !Blank(s.email) && emailValid
      && 10 <= |s.password| <= 50 && Complex(s.password) && s.confirmPassword == s.password
  {
    ValidateFields(s, emailValid, recaptchaErrors);
    FieldsAccepted(s, emailValid, recaptchaErrors);
    if Complex(s.password) {
      ComplexNotBlank(s.password);
    }
    var e := (f: Field) => FieldErrors(s, emailValid, recaptchaErrors, f);
    assert (forall f: Field :: e(f) == []) <==>
      e(RecaptchaField) == [] && e(UsernameField) == [] && e(EmailField) == []
      && e(PasswordField) == [] && e(ConfirmField) == [];
  }

  /** The submission every registration scenario starts from. */
  const Sample := Submission("testuser", "test@example.com", "StrongPass1!", "StrongPass1!")

  lemma StrongPassComplex()
    ensures Complex("StrongPass1!")
  {
    var p := "StrongPass1!";
    assert InClass(p[0], Upper) && InClass(p[1], Lower) && InClass(p[10], Digit) && InClass(p[11], Special);
  }

  /** The sample submission, with a well-formed address and a passed reCAPTCHA, validates. */
  lemma SampleValidates()
    ensures Validate(Sample, true, [])
  {
    StrongPassComplex();
    assert !IsSpace(Sample.username[0]) && !IsSpace(Sample.email[0]);
    ValidateExactly(Sample, true, []);
  }

  /** The weak passwords of the registration scenarios, each reported with the first class it lacks. */
  lemma WeakpassMessage()
    ensures PasswordComplexity("weakpass") == Some(UpperMessage)
  {
    assert FirstMissing("weakpass", Upper);
  }

  lemma NonumberMessage()
    ensures PasswordComplexity("nonumber1!") == Some(UpperMessage)
  {
    assert FirstMissing("nonumber1!", Upper);
  }

  lemma NolowerMessage()
    ensures PasswordComplexity("NOLOWER1!") == Some(LowerMessage)
  {
    var p := "NOLOWER1!";
    assert InClass(p[0], Upper);
    assert FirstMissing(p, Lower);
  }

  lemma NoNumberMessage()
    ensures PasswordComplexity("NoNumber!") == Some(DigitMessage)
  {
    var p := "NoNumber!";
    assert InClass(p[0], Upper) && InClass(p[1], Lower);
    assert FirstMissing(p, Digit);
  }

  lemma NoSpecialMessage()
    ensures PasswordComplexity("NoSpecial1") == Some(SpecialMessage)
  {
    var p := "NoSpecial1";
    assert !Occurs(p, Special);
    assert InClass(p[0], Upper) && InClass(p[1], Lower) && InClass(p[9], Digit);
    assert FirstMissing(p, Special);
  }

  /** A password the complexity check rejects puts a message on the password field and fails the form. */
  lemma ComplexityFailureRejects(s: Submission, emailValid: bool, recaptchaErrors: seq<string>)
    requires PasswordComplexity(s.password).Some?
    ensures PasswordField in Errors(s, emailValid, recaptchaErrors)
    ensures !Validate(s, emailValid, recaptchaErrors)
  {
    PasswordAccepted(s.password);
    ValidateExactly(s, emailValid, recaptchaErrors);
  }

  /** A four-character password that is otherwise complex draws only the length message. */
  lemma ShortPasswordMessages()
    ensures PasswordErrors("Aa1!") == [LengthMessage(10, 50)]
  {
    var p := "Aa1!";
    assert InClass(p[0], Upper) && InClass(p[1], Lower) && InClass(p[2], Digit) && InClass(p[3], Special);
    assert !IsSpace(p[0]);
  }

  /** A confirmation that differs, a malformed address and an empty username each name their field. */
  lemma OtherFieldsRejected()
    ensures ConfirmField in Errors(Sample.(confirmPassword := "DifferentPass1!"), true, [])
    ensures EmailField in Errors(Sample.(email := "invalidemail"), false, [])
    ensures UsernameField in Errors(Sample.(username := ""), true, [])
  {
    ConfirmAccepted("DifferentPass1!", Sample.password);
    assert "DifferentPass1!" != Sample.password;
    IdentityAccepted(Sample.(email := "invalidemail"), false, []);
    IdentityAccepted(Sample.(username := ""), true, []);
  }
}
