/** The registration form's client-side password rules and the guard that
    keeps an invalid password away from the identity provider
    (src/pages/Register.jsx). */
module Register {
  import opened Wrappers

  const MinLength: nat := 6
  const TooShort := "Password must be at least 6 characters long"
  const NoUppercase := "Password must contain at least one uppercase letter"
  const NoLowercase := "Password must contain at least one lowercase letter"
  const Registered := "Registration successful!"

  /** The character classes `[A-Z]` and `[a-z]` of the two regular expressions. */
  predicate IsAsciiUpper(c: char) { 'A' <= c <= 'Z' }
  predicate IsAsciiLower(c: char) { 'a' <= c <= 'z' }

  /** `/[A-Z]/.test(s)` and `/[a-z]/.test(s)`: some character of the class occurs. */
  predicate HasUpper(s: string) { exists i :: 0 <= i < |s| && IsAsciiUpper(s[i]) }
  predicate HasLower(s: string) { exists i :: 0 <= i < |s| && IsAsciiLower(s[i]) }

  /** The password policy as a single statement, independent of the order in
      which the checks are made. */
  predicate Acceptable(s: string) { |s| >= MinLength && HasUpper(s) && HasLower(s) }

  /** `validatePassword`: the message of the first failing check, or `None`
      (the source's `null`) when every check passes. */
  function ValidatePassword(password: string): (r: Option<string>)
    ensures r.None? <==> Acceptable(password)
    ensures r.Some? ==> r.value in {TooShort, NoUppercase, NoLowercase}
  {
    if |password| < MinLength then Some(TooShort)
    else if !HasUpper(password) then Some(NoUppercase)
    else if !HasLower(password) then Some(NoLowercase)
    else None
  }

  /** A check of the chain: whether it passed and the message it reports otherwise. */
  datatype Check = Check(passed: bool, message: string)

  /** The checks in the order they are made: length, then uppercase, then lowercase. */
  function Checks(password: string): seq<Check>
  {
    [ Check(|password| >= MinLength, TooShort),
      Check(HasUpper(password), NoUppercase),
      Check(HasLower(password), NoLowercase) ]
  }

  /** The message of the first check that fails, if any: the meaning of an
      ordered chain of early returns. */
  function FirstFailure(checks: seq<Check>): (r: Option<string>)
    ensures r.None? <==> forall i :: 0 <= i < |checks| ==> checks[i].passed
    ensures r.Some? ==> exists i :: 0 <= i < |checks| && !checks[i].passed
                          && r.value == checks[i].message
                          && forall j :: 0 <= j < i ==> checks[j].passed
  {
    if checks == [] then None
    else if !checks[0].passed then Some(checks[0].message)
    else
      var rest := FirstFailure(checks[1..]);
      assert forall i :: 1 <= i < |checks| ==> checks[i] == checks[1..][i - 1];
      rest
  }

  /** `validatePassword` reports exactly the first failing check of the fixed
      order length, uppercase, lowercase, and at most one message. */
  lemma ValidateIsFirstFailure(password: string)
    ensures ValidatePassword(password) == FirstFailure(Checks(password))
  {
    var c := Checks(password);
    assert c[1..] == [c[1], c[2]];
    assert c[1..][1..] == [c[2]];
    assert c[1..][1..][1..] == [];
    assert FirstFailure(c[1..][1..][1..]) == None;
    if c[0].passed && c[1].passed {
      assert FirstFailure(c[1..][1..]) == if c[2].passed then None else Some(NoLowercase);
    }
  }

  /** Every password shorter than the minimum gets the length message,
      whatever characters it contains. */
  lemma ShortPasswordRejectedForLength(password: string)
    requires |password| < MinLength
    ensures ValidatePassword(password) == Some(TooShort)
  {
  }

  /** A long enough password without an ASCII uppercase letter gets the
      uppercase message, whether or not it has a lowercase letter. */
  lemma MissingUppercaseReported(password: string)
    requires |password| >= MinLength
    requires forall i :: 0 <= i < |password| ==> !IsAsciiUpper(password[i])
    ensures ValidatePassword(password) == Some(NoUppercase)
  {
  }

  /** A long enough password with an uppercase letter but no ASCII lowercase
      letter gets the lowercase message. */
  lemma MissingLowercaseReported(password: string)
    requires |password| >= MinLength && HasUpper(password)
    requires forall i :: 0 <= i < |password| ==> !IsAsciiLower(password[i])
    ensures ValidatePassword(password) == Some(NoLowercase)
  {
  }

  /** Every check is of the form "at least" or "contains", so appending
      characters to an accepted password keeps it accepted. */
  lemma AppendKeepsValid(password: string, suffix: string)
    requires ValidatePassword(password).None?
    ensures ValidatePassword(password + suffix).None?
  {
    var s := password + suffix;
    var u :| 0 <= u < |password| && IsAsciiUpper(password[u]);
    assert s[u] == password[u];
    var l :| 0 <= l < |password| && IsAsciiLower(password[l]);
    assert s[l] == password[l];
  }

  /** The form fields `handleSubmit` reads. */
  datatype FormData = FormData(name: string, email: string, password: string, photoURL: string)

  /** A call into the authentication context. */
  datatype Call = CreateUser(email: string, password: string) | UpdateUserProfile(name: string, photo: string)

  /** A toast shown to the user. */
  datatype Toast = ErrorToast(text: string) | SuccessToast(text: string)

  /** What one submission does: the calls it makes in order, the toast it shows,
      and whether it navigates to the home page. */
  datatype Submission = Submission(calls: seq<Call>, toast: Toast, navigatesHome: bool)

  /** `handleSubmit`. `createError` and `updateError` are the identity provider's
      outcomes for the two calls: `None` when the call resolves, the error's
      message when it throws. */
  function Submit(form: FormData, createError: Option<string>, updateError: Option<string>): (r: Submission)
    ensures r.calls == [] <==> !Acceptable(form.password)
    ensures r.calls != [] ==> r.calls[0] == CreateUser(form.email, form.password)
    ensures |r.calls| <= 2
    ensures |r.calls| == 2 <==> Acceptable(form.password) && createError.None?
    ensures |r.calls| == 2 ==> r.calls[1] == UpdateUserProfile(form.name, form.photoURL)
    ensures r.navigatesHome <==> Acceptable(form.password) && createError.None? && updateError.None?
    ensures r.toast == (if !Acceptable(form.password) then ErrorToast(ValidatePassword(form.password).value)
                        else if createError.Some? then ErrorToast(createError.value)
                        else if updateError.Some? then ErrorToast(updateError.value)
                        else SuccessToast(Registered))
  {
    match ValidatePassword(form.password)
    case Some(message) => Submission([], ErrorToast(message), false)
    case None =>
      var create := CreateUser(form.email, form.password);
      match createError
      case Some(e) => Submission([create], ErrorToast(e), false)
      case None =>
        var calls := [create, UpdateUserProfile(form.name, form.photoURL)];
        match updateError
        case Some(e) => Submission(calls, ErrorToast(e), false)
        case None => Submission(calls, SuccessToast(Registered), true)
  }

  /** A password the validator rejects never reaches `createUser` or
      `updateUserProfile`, and its message is the toast shown. */
  lemma RejectedPasswordMakesNoCall(form: FormData, createError: Option<string>, updateError: Option<string>)
    requires ValidatePassword(form.password).Some?
    ensures var r := Submit(form, createError, updateError);
      && (forall i :: 0 <= i < |r.calls| ==> !r.calls[i].CreateUser? && !r.calls[i].UpdateUserProfile?)
      && r.toast == ErrorToast(ValidatePassword(form.password).value)
      && !r.navigatesHome
  {
  }
}
