/** The login / registration form (src/pages/authPage/authPage.js): the
    field rules of `validateForm` with their first-failing-check messages,
    the two regular expressions they use, the form-state transitions of
    `handleChange` and `toggleMode`, and the message shown when the server
    rejects a submission. */
module AuthForm {
  import opened Text
  import opened Lists

  datatype Field = Email | Password | Username | Age

  /** The four inputs, as the strings the form holds. */
  datatype FormData = FormData(email: string, password: string, username: string, age: string) {
    /** The value of one input. */
    function Get(field: Field): string {
      match field
      case Email => email
      case Password => password
      case Username => username
      case Age => age
    }

    /** `{...prev, [name]: value}`. */
    function With(field: Field, value: string): (r: FormData)
      ensures r.Get(field) == value
      ensures forall other :: other != field ==> r.Get(other) == Get(other)
    {
      match field
      case Email => this.(email := value)
      case Password => this.(password := value)
      case Username => this.(username := value)
      case Age => this.(age := value)
    }
  }

  const EmptyForm := FormData("", "", "", "")

  /** The messages `validateForm` shows under the inputs, and the empty
      message `handleChange` leaves when it clears one. */
  datatype Message =
    | Cleared
    | UsernameRequired | UsernameLength
    | AgeRequired | AgeRange
    | EmailRequired | EmailInvalid
    | PasswordRequired | PasswordShort | PasswordWeak
  {
    /** The text the page shows. */
    function Text(): (r: string)
      ensures r == "" <==> this == Cleared
    {
      match this
      case Cleared => ""
      case UsernameRequired => "Username is required"
      case UsernameLength => "Username must be between 2 and 50 characters"
      case AgeRequired => "Age is required"
      case AgeRange => "Age must be between 10 and 120"
      case EmailRequired => "Email is required"
      case EmailInvalid => "Please enter a valid email address"
      case PasswordRequired => "Password is required"
      case PasswordShort => "Password must be at least 8 characters long"
      case PasswordWeak => "Password must contain uppercase, lowercase, number, and special character"
    }
  }

  // ---------------------------------------------------------------------
  // The two regular expressions
  // ---------------------------------------------------------------------

  /** `/\S+@\S+\.\S+/.test(s)`: somewhere in `s` a non-blank, an `@`, a
      non-empty run of non-blanks, a `.` and a non-blank follow each other
      (the pattern is unanchored, so one character on each side suffices). */
  predicate EmailPattern(s: string) {
    exists sign, dot :: 0 <= sign < |s| && 0 <= dot < |s| && EmailAt(s, sign, dot)
  }

  /** The address pattern matches with its `@` at `sign` and its `.` at `dot`. */
  predicate EmailAt(s: string, sign: int, dot: int) {
    && 1 <= sign && sign + 1 < dot && dot + 1 < |s| && s[sign] == '@' && s[dot] == '.'
    && NonBlankRun(s, sign - 1, sign) && NonBlankRun(s, sign + 1, dot) && NonBlankRun(s, dot + 1, dot + 2)
  }

  /** `s[lo..hi]` has no blank, as a run of `\S` requires. */
  predicate NonBlankRun(s: string, lo: int, hi: int)
    requires 0 <= lo <= hi <= |s|
  {
    forall k :: lo <= k < hi ==> !IsJsSpace(s[k])
  }

  /** A line terminator, which `.` does not match. */
  predicate IsLineTerminator(c: char) {
    c == '\n' || c == '\r' || c == '\U{2028}' || c == '\U{2029}'
  }

  predicate IsSpecial(c: char) {
    c == '@' || c == '$' || c == '!' || c == '%' || c == '*' || c == '?' || c == '&'
  }

  /** `[A-Za-z\d@$!%*?&]`. */
  predicate IsAllowed(c: char) {
    IsAsciiUpper(c) || IsAsciiLower(c) || IsAsciiDigit(c) || IsSpecial(c)
  }

  /** The lookahead `(?=.*[class])` at `from`: a character of the kind
      follows without a line terminator before it. */
  predicate Ahead(s: string, from: nat, kind: char -> bool) {
    exists q :: from <= q < |s| && kind(s[q]) && forall k :: from <= k < q ==> !IsLineTerminator(s[k])
  }

  /** `/(?=.*[a-z])(?=.*[A-Z])(?=.*\d)(?=.*[@$!%*?&])[A-Za-z\d@$!%*?&]/.test(s)`:
      at some allowed character all four lookaheads succeed. */
  predicate PasswordPattern(s: string) {
    exists p :: 0 <= p < |s| && PasswordAt(s, p)
  }

  /** The password pattern matches starting at `p`. */
  predicate PasswordAt(s: string, p: int) {
    && 0 <= p < |s| && IsAllowed(s[p])
    && Ahead(s, p, IsAsciiLower) && Ahead(s, p, IsAsciiUpper)
    && Ahead(s, p, IsAsciiDigit) && Ahead(s, p, IsSpecial)
  }

  /** Some character of `s` is of the kind. */
  predicate Has(s: string, kind: char -> bool) {
    exists i :: 0 <= i < |s| && kind(s[i])
  }

  /** The first character of a kind in `s`. */
  lemma FirstOf(s: string, kind: char -> bool) returns (i: nat)
    requires Has(s, kind)
    ensures i < |s| && kind(s[i])
    ensures forall k :: 0 <= k < i ==> !kind(s[k])
  {
    i := 0;
    while !kind(s[i])
      invariant i < |s|
      invariant forall k :: 0 <= k < i ==> !kind(s[k])
      decreases |s| - i
    {
      i := i + 1;
    }
  }

  /** On a single line the password pattern says exactly: at least one
      lower-case letter, one upper-case letter, one digit and one of
      `@$!%*?&`, anywhere, with any other characters allowed besides. */
  lemma PasswordPatternOnOneLine(s: string)
    requires forall k :: 0 <= k < |s| ==> !IsLineTerminator(s[k])
    ensures PasswordPattern(s) <==>
      Has(s, IsAsciiLower) && Has(s, IsAsciiUpper) && Has(s, IsAsciiDigit) && Has(s, IsSpecial)
  {
    if Has(s, IsAsciiLower) && Has(s, IsAsciiUpper) && Has(s, IsAsciiDigit) && Has(s, IsSpecial) {
      var a := FirstOf(s, IsAsciiLower);
      var b := FirstOf(s, IsAsciiUpper);
      var c := FirstOf(s, IsAsciiDigit);
      var d := FirstOf(s, IsSpecial);
      var p := a;
      if b < p { p := b; }
      if c < p { p := c; }
      if d < p { p := d; }
      assert IsAllowed(s[p]);
      assert Ahead(s, p, IsAsciiLower) by { assert p <= a; }
      assert Ahead(s, p, IsAsciiUpper) by { assert p <= b; }
      assert Ahead(s, p, IsAsciiDigit) by { assert p <= c; }
      assert Ahead(s, p, IsSpecial) by { assert p <= d; }
      assert PasswordAt(s, p);
    }
  }

  /** A password split over two lines can fail the pattern although it has
      every kind of character. */
  lemma PasswordPatternStopsAtLineEnd()
    ensures Has("Aa\n1@", IsAsciiLower) && Has("Aa\n1@", IsAsciiUpper)
    ensures Has("Aa\n1@", IsAsciiDigit) && Has("Aa\n1@", IsSpecial)
    ensures !PasswordPattern("Aa\n1@")
  {
    var s := "Aa\n1@";
    assert IsAsciiLower(s[1]) && IsAsciiUpper(s[0]) && IsAsciiDigit(s[3]) && IsSpecial(s[4]);
    forall p | 0 <= p < |s|
      ensures !(Ahead(s, p, IsAsciiUpper) && Ahead(s, p, IsAsciiDigit))
    {
      if p == 0 {
        assert IsLineTerminator(s[2]);
        forall q | p <= q < |s| && IsAsciiDigit(s[q]) ensures q == 3 { }
      } else {
        forall q | p <= q < |s| ensures !IsAsciiUpper(s[q]) { }
      }
    }
  }

  /** `local@domain.tld` with blank-free, non-empty parts is a valid address. */
  lemma EmailPatternOfParts(local: string, domain: string, tld: string)
    requires local != [] && domain != [] && tld != []
    requires forall i :: 0 <= i < |domain| ==> !IsJsSpace(domain[i])
    requires !IsJsSpace(local[|local| - 1]) && !IsJsSpace(tld[0])
    ensures EmailPattern(local + "@" + domain + "." + tld)
  {
    var s := local + "@" + domain + "." + tld;
    var sign := |local|;
    var dot := |local| + 1 + |domain|;
    assert s[sign] == '@' && s[dot] == '.';
    assert NonBlankRun(s, sign - 1, sign) by {
      assert s[sign - 1] == local[|local| - 1];
    }
    assert NonBlankRun(s, dot + 1, dot + 2) by {
      assert s[dot + 1] == tld[0];
    }
    assert NonBlankRun(s, sign + 1, dot) by {
      forall k | sign + 1 <= k < dot ensures !IsJsSpace(s[k]) {
        assert s[k] == domain[k - sign - 1];
      }
    }
    assert EmailAt(s, sign, dot);
  }

  /** Without an `@` no address is valid. */
  lemma EmailPatternNeedsAt(s: string)
    requires '@' !in s
    ensures !EmailPattern(s)
  {
  }

  // ---------------------------------------------------------------------
  // validateForm
  // ---------------------------------------------------------------------

  /** The number JavaScript coerces a non-empty age string to, for decimal
      digits with surrounding blanks; `None` stands for `NaN`. */
  function AgeNumber(age: string): (r: Option<nat>)
    ensures TrimJs(age) == [] ==> r == Some(0)
  {
    var t := TrimJs(age);
    if t == [] then Some(0)
    else if forall i :: 0 <= i < |t| ==> IsAsciiDigit(t[i]) then Some(DecimalValue(t))
    else None
  }

  /** A number written in decimal passes the age rule exactly when it is
      from 10 to 120. */
  lemma AgeOfNumber(n: nat)
    ensures AgeError(NatToString(n)) == if 10 <= n <= 120 then None else Some(AgeRange)
  {
    var s := NatToString(n);
    assert !IsJsSpace(s[0]) && !IsJsSpace(s[|s| - 1]);
    TrimOfTrimmed(s, IsJsSpace);
    NatToStringValue(n);
  }

  /** An age of blanks only is the number 0, so it is out of range rather
      than missing. */
  lemma BlankAge(age: string)
    requires age != [] && forall i :: 0 <= i < |age| ==> IsJsSpace(age[i])
    ensures AgeError(age) == Some(AgeRange)
  {
    var a, b := TrimIsSlice(age, IsJsSpace);
  }

  /** The username rule: required, then 2 to 50 characters. */
  function UsernameError(username: string): (r: Option<Message>)
    ensures r.None? <==> 2 <= |username| <= 50
    ensures r == Some(UsernameRequired) <==> username == []
    ensures r == Some(UsernameLength) <==> username != [] && !(2 <= |username| <= 50)
  {
    if username == [] then Some(UsernameRequired)
    else if |username| < 2 || |username| > 50 then Some(UsernameLength)
    else None
  }

  /** The age rule: required, then a number from 10 to 120. */
  function AgeError(age: string): (r: Option<Message>)
    ensures r.None? <==> age != [] && AgeNumber(age).Some? && 10 <= AgeNumber(age).value <= 120
    ensures r == Some(AgeRequired) <==> age == []
    ensures r == Some(AgeRange) <==> age != [] && !(AgeNumber(age).Some? && 10 <= AgeNumber(age).value <= 120)
  {
    if age == [] then Some(AgeRequired)
    else
      match AgeNumber(age)
      case None => Some(AgeRange)
      case Some(n) => if n < 10 || n > 120 then Some(AgeRange) else None
  }

  /** The e-mail rule: required, then the address pattern. */
  function EmailError(email: string): (r: Option<Message>)
    ensures r.None? <==> email != [] && EmailPattern(email)
    ensures r == Some(EmailRequired) <==> email == []
    ensures r == Some(EmailInvalid) <==> email != [] && !EmailPattern(email)
  {
    if email == [] then Some(EmailRequired)
    else if !EmailPattern(email) then Some(EmailInvalid)
    else None
  }

  /** The password rule: required; on registration also 8 characters, then the pattern. */
  function PasswordError(password: string, isLogin: bool): (r: Option<Message>)
    ensures isLogin ==> (r.None? <==> password != [])
    ensures !isLogin ==> (r.None? <==> password != [] && |password| >= 8 && PasswordPattern(password))
    ensures r == Some(PasswordRequired) <==> password == []
    ensures r == Some(PasswordShort) <==> !isLogin && 0 < |password| < 8
    ensures r == Some(PasswordWeak) <==> !isLogin && |password| >= 8 && !PasswordPattern(password)
  {
    if password == [] then Some(PasswordRequired)
    else if !isLogin && |password| < 8 then Some(PasswordShort)
    else if !isLogin && !PasswordPattern(password) then Some(PasswordWeak)
    else None
  }

  /** Records a message for `field` when its rule gave one. */
  function Record(errors: map<Field, Message>, field: Field, message: Option<Message>): map<Field, Message> {
    if message.Some? then errors[field := message.value] else errors
  }

  /** The messages a registration checks add. */
  function RegistrationErrors(form: FormData): map<Field, Message> {
    Record(Record(map[], Username, UsernameError(form.username)), Age, AgeError(form.age))
  }

  /** `newErrors` as `validateForm` fills it: each checked field whose rule
      fails, with the message of its first failing check. */
  function Validate(form: FormData, isLogin: bool): (errors: map<Field, Message>)
    ensures Username in errors <==> !isLogin && UsernameError(form.username).Some?
    ensures Age in errors <==> !isLogin && AgeError(form.age).Some?
    ensures Email in errors <==> EmailError(form.email).Some?
    ensures Password in errors <==> PasswordError(form.password, isLogin).Some?
    ensures Username in errors ==> errors[Username] == UsernameError(form.username).value
    ensures Age in errors ==> errors[Age] == AgeError(form.age).value
    ensures Email in errors ==> errors[Email] == EmailError(form.email).value
    ensures Password in errors ==> errors[Password] == PasswordError(form.password, isLogin).value
  {
    var checked := if isLogin then map[] else RegistrationErrors(form);
    Record(Record(checked, Email, EmailError(form.email)), Password, PasswordError(form.password, isLogin))
  }

  /** The checks `validateForm` makes only when registering: the username,
      then the age. */
  method CheckRegistration(form: FormData) returns (newErrors: map<Field, Message>)
    ensures newErrors == RegistrationErrors(form)
  {
    newErrors := map[];
    if form.username == [] {
      newErrors := newErrors[Username := UsernameRequired];
    } else if |form.username| < 2 || |form.username| > 50 {
      newErrors := newErrors[Username := UsernameLength];
    }
    assert newErrors == Record(map[], Username, UsernameError(form.username));
    ghost var withUsername := newErrors;
    if form.age == [] {
      newErrors := newErrors[Age := AgeRequired];
    } else {
      var n := AgeNumber(form.age);
      if n.None? || n.value < 10 || n.value > 120 {
        newErrors := newErrors[Age := AgeRange];
      }
    }
    assert newErrors == Record(withUsername, Age, AgeError(form.age));
  }

  /** The e-mail checks of `validateForm`: required, then the pattern. */
  method CheckEmail(form: FormData, errors: map<Field, Message>) returns (newErrors: map<Field, Message>)
    ensures newErrors == Record(errors, Email, EmailError(form.email))
  {
    newErrors := errors;
    if form.email == [] {
      newErrors := newErrors[Email := EmailRequired];
    } else if !EmailPattern(form.email) {
      newErrors := newErrors[Email := EmailInvalid];
    }
  }

  /** The password checks of `validateForm`: required; on registration the
      length, then the pattern. */
  method CheckPassword(form: FormData, isLogin: bool, errors: map<Field, Message>) returns (newErrors: map<Field, Message>)
    ensures newErrors == Record(errors, Password, PasswordError(form.password, isLogin))
  {
    newErrors := errors;
    if form.password == [] {
      newErrors := newErrors[Password := PasswordRequired];
    } else if !isLogin && |form.password| < 8 {
      newErrors := newErrors[Password := PasswordShort];
    } else if !isLogin && !PasswordPattern(form.password) {
      newErrors := newErrors[Password := PasswordWeak];
    }
  }

  /** In login mode the username and the age are never looked at. */
  lemma LoginIgnoresRegistrationFields(form: FormData, username: string, age: string)
    ensures Validate(form, true) == Validate(form.(username := username, age := age), true)
    ensures Username !in Validate(form, true) && Age !in Validate(form, true)
  {
  }

  /** The form is valid exactly when every field passes its rules. */
  lemma ValidIff(form: FormData, isLogin: bool)
    ensures |Validate(form, isLogin)| == 0 <==>
      && (isLogin || (2 <= |form.username| <= 50))
      && (isLogin || (form.age != [] && AgeNumber(form.age).Some? && 10 <= AgeNumber(form.age).value <= 120))
      && form.email != [] && EmailPattern(form.email)
      && form.password != []
      && (isLogin || (|form.password| >= 8 && PasswordPattern(form.password)))
  {
    var errors := Validate(form, isLogin);
    if |errors| == 0 {
      assert errors.Keys == {};
    } else {
      var f :| f in errors;
    }
  }

  // ---------------------------------------------------------------------
  // Submission failure
  // ---------------------------------------------------------------------

  const TooManyAttempts := "Too many attempts. Please try again later."
  const LoginFailed := "Login failed"
  const RegistrationFailed := "Registration failed"

  /** The message shown when the server answers with a non-ok status. */
  function FailureMessage(status: int, serverMessage: Option<string>, isLogin: bool): (r: string)
    ensures status == 429 ==> r == TooManyAttempts
    ensures status != 429 && serverMessage.Some? && serverMessage.value != "" ==> r == serverMessage.value
    ensures status != 429 && (serverMessage.None? || serverMessage.value == "") ==>
      r == if isLogin then LoginFailed else RegistrationFailed
  {
    if status == 429 then TooManyAttempts
    else if serverMessage.Some? && serverMessage.value != "" then serverMessage.value
    else if isLogin then LoginFailed
    else RegistrationFailed
  }

  // ---------------------------------------------------------------------
  // The form state
  // ---------------------------------------------------------------------

  /** The state hooks of the auth page. */
  class AuthPage {
    var isLogin: bool
    var formData: FormData
    var errors: map<Field, Message>
    var apiError: string

    constructor ()
      ensures isLogin && formData == EmptyForm && errors == map[] && apiError == ""
    {
      isLogin := true;
      formData := EmptyForm;
      errors := map[];
      apiError := "";
    }

    /** `handleChange`: sets the typed field, clears its message when it
        has one, and clears the server message. */
    method HandleChange(name: Field, value: string)
      modifies this
      ensures formData == old(formData).With(name, value)
      ensures errors == if name in old(errors) && old(errors)[name] != Cleared then old(errors)[name := Cleared] else old(errors)
      ensures apiError == ""
      ensures isLogin == old(isLogin)
    {
      formData := formData.With(name, value);
      if name in errors && errors[name] != Cleared {
        errors := errors[name := Cleared];
      }
      apiError := "";
    }

    /** `validateForm`: stores the messages and tells whether there are none. */
    method ValidateForm() returns (ok: bool)
      modifies this
      ensures errors == Validate(formData, isLogin)
      ensures ok <==> |errors| == 0
      ensures formData == old(formData) && isLogin == old(isLogin) && apiError == old(apiError)
    {
      var form := formData;
      var newErrors: map<Field, Message> := map[];
      if !isLogin {
        newErrors := CheckRegistration(form);
      }
      newErrors := CheckEmail(form, newErrors);
      newErrors := CheckPassword(form, isLogin, newErrors);
      errors := newErrors;
      ok := |newErrors| == 0;
    }

    /** The non-ok branch of `handleSubmit`. */
    method ShowFailure(status: int, serverMessage: Option<string>)
      modifies this
      ensures apiError == FailureMessage(status, serverMessage, isLogin)
      ensures isLogin == old(isLogin) && formData == old(formData) && errors == old(errors)
    {
      if status == 429 {
        apiError := TooManyAttempts;
      } else if serverMessage.Some? && serverMessage.value != "" {
        apiError := serverMessage.value;
      } else {
        apiError := if isLogin then LoginFailed else RegistrationFailed;
      }
    }

    /** A successful registration: back to the login mode with an empty form. */
    method RegistrationSucceeded()
      requires !isLogin
      modifies this
      ensures isLogin && formData == EmptyForm
      ensures errors == old(errors) && apiError == old(apiError)
    {
      isLogin := true;
      formData := EmptyForm;
    }

    /** `toggleMode`: the other mode, an empty form and no messages. */
    method ToggleMode()
      modifies this
      ensures isLogin == !old(isLogin)
      ensures formData == EmptyForm && errors == map[] && apiError == ""
    {
      isLogin := !isLogin;
      errors := map[];
      apiError := "";
      formData := EmptyForm;
    }
  }

  /** Typing into one field leaves the validity of the others as it was. */
  lemma ChangeKeepsOtherRules(form: FormData, isLogin: bool, field: Field, value: string, other: Field)
    requires other != field
    ensures other in Validate(form, isLogin) <==> other in Validate(form.With(field, value), isLogin)
  {
    assert form.With(field, value).Get(other) == form.Get(other);
  }
}
