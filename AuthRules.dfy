/** The field rules the auth pages share word for word: the email rule of
    Signup, Login and ForgotPassword, the password rule of Signup, Login and
    ResetPassword, and the confirm-password rule of Signup and
    ResetPassword. Each yields the message the page shows, or None. */
module AuthRules {
  import opened JsValues
  import opened JsText
  import opened EmailPatterns

  const MinPasswordLength: nat := 6

  const EmailRequired := "Email is required"
  const EmailInvalid := "Please enter a valid email"
  const PasswordTooShort := "Password must be at least 6 characters"
  const PasswordsDiffer := "Passwords do not match"

  /** `if (!email) ... else if (!validateEmail(email)) ...` */
  function EmailError(email: string): Option<string> {
    if email == "" then Some(EmailRequired)
    else if !ValidateEmail(email) then Some(EmailInvalid)
    else None
  }

  /** The email is rejected exactly when it does not match the anchored
      pattern, as "required" when it is empty and as "invalid" otherwise. */
  lemma EmailErrorSpec(email: string)
    ensures EmailError(email).Some? <==> !AnchoredMatch(email)
    ensures EmailError(email).Some? ==>
      EmailError(email).value == (if email == "" then EmailRequired else EmailInvalid)
  {
    ValidateEmailSpec(email);
    assert !AnchoredMatch("") by { ValidateEmailSpec(""); }
  }

  /** `if (!password) ... else if (password.length < 6) ...`; the
      required-message differs between the pages. */
  function PasswordError(password: string, required: string): (r: Option<string>)
    ensures r.Some? <==> |password| < MinPasswordLength
    ensures r.Some? ==> r.value == (if password == "" then required else PasswordTooShort)
  {
    if password == "" then Some(required)
    else if |password| < MinPasswordLength then Some(PasswordTooShort)
    else None
  }

  /** `if (password !== confirmPassword) ...`, checked whatever the
      password rule said. */
  function MismatchError(password: string, confirm: string): (r: Option<string>)
    ensures r.Some? <==> password != confirm
    ensures r.Some? ==> r.value == PasswordsDiffer
  {
    if password != confirm then Some(PasswordsDiffer) else None
  }
}
