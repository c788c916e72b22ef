/** The sign-up page (frontend/src/pages/register.tsx): password validation,
    the guard in front of the register request, and the button's state. */
module RegisterPage {
  import opened Common

  const Mismatch: string := "Passwords do not match"
  const TooShort: string := "Password must be at least 8 characters long"
  const MinPasswordLength: nat := 8

  datatype Form = Form(username: string, email: string, password: string,
                       confirmPassword: string, fullName: string, passwordError: string)

  datatype Validation = Validation(ok: bool, passwordError: string)

  /** `validateForm`: the passwords must match, then be long enough. */
  function ValidateForm(password: string, confirmPassword: string): (r: Validation)
    ensures r.ok <==> password == confirmPassword && |password| >= MinPasswordLength
    ensures r.ok <==> r.passwordError == ""
    ensures password != confirmPassword ==> r.passwordError == Mismatch
    ensures password == confirmPassword && |password| < MinPasswordLength ==> r.passwordError == TooShort
  {
    if password != confirmPassword then Validation(false, Mismatch)
    else if |password| < MinPasswordLength then Validation(false, TooShort)
    else Validation(true, "")
  }

  /** What the register thunk is given; an empty full name is left out. */
  datatype RegisterRequest = RegisterRequest(username: string, email: string, password: string,
                                             fullName: Option<string>)

  datatype Submission = Submission(form: Form, request: Option<RegisterRequest>)

  /** `handleSubmit`. */
  function Submit(f: Form): (r: Submission)
    ensures r.form == f.(passwordError := ValidateForm(f.password, f.confirmPassword).passwordError)
    ensures r.request.Some? <==>
      f.password == f.confirmPassword && |f.password| >= MinPasswordLength && f.username != "" && f.email != ""
    ensures r.request.Some? ==>
      r.request.value == RegisterRequest(f.username, f.email, f.password,
                                         if f.fullName == "" then None else Some(f.fullName))
  {
    var v := ValidateForm(f.password, f.confirmPassword);
    var f' := f.(passwordError := v.passwordError);
    if !v.ok then Submission(f', None)
    else if f.username != "" && f.email != "" && f.password != "" then
      Submission(f', Some(RegisterRequest(f.username, f.email, f.password,
                                          if f.fullName == "" then None else Some(f.fullName))))
    else Submission(f', None)
  }

  /** The Sign Up button's `disabled`. */
  predicate SignUpDisabled(isLoading: bool, f: Form) {
    isLoading || f.username == "" || f.email == "" || f.password == "" || f.confirmPassword == ""
  }

  /** With the button enabled, submitting sends the request exactly when
      the passwords validate; otherwise the page shows why, the mismatch
      taking precedence over the length. */
  lemma EnabledSubmit(f: Form)
    requires !SignUpDisabled(false, f)
    ensures Submit(f).request.Some? <==> ValidateForm(f.password, f.confirmPassword).ok
    ensures f.password != f.confirmPassword ==> Submit(f).form.passwordError == Mismatch
    ensures f.password == f.confirmPassword && |f.password| < MinPasswordLength ==>
      Submit(f).form.passwordError == TooShort
  {
  }

  /** A request is only ever sent with a password of at least eight
      characters, confirmed. */
  lemma RequestHasValidPassword(f: Form)
    requires Submit(f).request.Some?
    ensures |Submit(f).request.value.password| >= MinPasswordLength
    ensures Submit(f).request.value.password == f.confirmPassword
  {
  }
}
