/** The reset-password page: the guard on the navigation state it is opened
    with, the new-password form and its validation, the show-password
    toggle and the submit button. */
module ResetPassword {
  import opened JsValues
  import opened AuthRules

  /** The navigation state the page reads, `{ email, otp }`; a key the
      sender left out is None. */
  datatype ResetState = ResetState(email: Option<string>, otp: Option<string>)

  /** `const { email, otp } = location.state || {}` */
  function Destructure(state: Option<ResetState>): (r: ResetState)
    ensures state.Some? ==> r == state.value
    ensures state.None? ==> r.email.None? && r.otp.None?
  {
    if state.Some? then state.value else ResetState(None, None)
  }

  /** `if (!email || !otp)`: the page navigates to the forgot-password page
      and renders nothing. */
  function MustRedirect(state: Option<ResetState>): (r: bool)
    ensures !r <==> state.Some? && Truthy(state.value.email) && Truthy(state.value.otp)
  {
    var s := Destructure(state);
    !Truthy(s.email) || !Truthy(s.otp)
  }

  datatype ResetForm = ResetForm(newPassword: string, confirmPassword: string)

  const EmptyForm := ResetForm("", "")

  /** The page's error object: keys `newPassword` and `confirmPassword`. */
  datatype ResetErrors = ResetErrors(newPassword: Option<string>, confirmPassword: Option<string>) {
    /** `Object.keys(errors).length === 0` */
    predicate IsEmpty() {
      newPassword.None? && confirmPassword.None?
    }
  }

  const NoErrors := ResetErrors(None, None)

  const NewPasswordRequired := "New password is required"

  /** The error object `validateForm` builds. The new password is
      rejected exactly when it is shorter than six characters ("required"
      when empty); the confirmation exactly when it differs, whatever the
      password rule said; the form is accepted exactly when neither fires. */
  function ValidateReset(f: ResetForm): (r: ResetErrors)
    ensures r.newPassword.Some? <==> |f.newPassword| < MinPasswordLength
    ensures r.newPassword.Some? ==>
      r.newPassword.value == (if f.newPassword == "" then NewPasswordRequired else PasswordTooShort)
    ensures r.confirmPassword.Some? <==> f.newPassword != f.confirmPassword
    ensures r.confirmPassword.Some? ==> r.confirmPassword.value == PasswordsDiffer
    ensures r.IsEmpty() <==> |f.newPassword| >= MinPasswordLength && f.newPassword == f.confirmPassword
  {
    ResetErrors(PasswordError(f.newPassword, NewPasswordRequired),
                MismatchError(f.newPassword, f.confirmPassword))
  }

  /** The submit button's `disabled` expression: it does not test the
      password's length. */
  function SubmitDisabled(f: ResetForm, isLoading: bool): (r: bool)
    ensures !isLoading && ValidateReset(f).IsEmpty() ==> !r
    ensures isLoading || f.newPassword == "" || f.confirmPassword == "" ==> r
  {
    isLoading || f.newPassword == "" || f.confirmPassword == ""
  }

  /** So a short password gets past the button and is stopped by the
      validator. */
  lemma ShortPasswordEnablesButton()
    ensures !SubmitDisabled(ResetForm("abc", "abc"), false)
    ensures ValidateReset(ResetForm("abc", "abc")).newPassword == Some(PasswordTooShort)
  {
  }

  /** The names of the page's two inputs. */
  datatype ResetField = NewPassword | ConfirmPassword

  /** `{ ...prev, [name]: value }` */
  function WithValue(f: ResetForm, name: ResetField, value: string): (r: ResetForm)
    ensures name == NewPassword ==> r == ResetForm(value, f.confirmPassword)
    ensures name == ConfirmPassword ==> r == ResetForm(f.newPassword, value)
  {
    match name
    case NewPassword => f.(newPassword := value)
    case ConfirmPassword => f.(confirmPassword := value)
  }

  /** The `type` attribute of either password input. */
  function InputType(showPassword: bool): (r: string)
    ensures r == "text" <==> showPassword
    ensures r == "password" <==> !showPassword
  {
    if showPassword then "text" else "password"
  }

  class ResetPasswordPage {
    const state: Option<ResetState>
    var form: ResetForm
    var errors: ResetErrors
    var isLoading: bool
    var showPassword: bool

    constructor (state: Option<ResetState>)
      ensures this.state == state
      ensures form == EmptyForm && errors == NoErrors && !isLoading && !showPassword
    {
      this.state := state;
      form := EmptyForm;
      errors := NoErrors;
      isLoading := false;
      showPassword := false;
    }

    /** Whether the page renders its form rather than redirecting: exactly
        when it was opened with a state holding a non-empty email and a
        non-empty code. */
    predicate Rendered(): (r: bool)
      reads this
      ensures r <==> state.Some? && Truthy(state.value.email) && Truthy(state.value.otp)
      ensures r ==> state.value.email.value != "" && state.value.otp.value != ""
    {
      !MustRedirect(state)
    }

    method HandleChange(name: ResetField, value: string)
      modifies this`form
      ensures form == WithValue(old(form), name, value)
    {
      form := WithValue(form, name, value);
    }

    /** The eye button: one flag, read by both inputs. */
    method ToggleShowPassword()
      modifies this`showPassword
      ensures showPassword == !old(showPassword)
      ensures InputType(showPassword) != InputType(old(showPassword))
    {
      showPassword := !showPassword;
    }

    /** `validateForm`: fills a fresh error object, replaces the page's
        errors with it, and reports whether it is empty. */
    method ValidateForm() returns (ok: bool)
      modifies this`errors
      ensures errors == ValidateReset(form)
      ensures ok <==> |form.newPassword| >= MinPasswordLength && form.newPassword == form.confirmPassword
    {
      var f := form;
      var newErrors := NoErrors;
      if f.newPassword == "" {
        newErrors := newErrors.(newPassword := Some(NewPasswordRequired));
      } else if |f.newPassword| < MinPasswordLength {
        newErrors := newErrors.(newPassword := Some(PasswordTooShort));
      }
      if f.newPassword != f.confirmPassword {
        newErrors := newErrors.(confirmPassword := Some(PasswordsDiffer));
      }
      errors := newErrors;
      ok := newErrors.IsEmpty();
    }

    /** `handleSubmit` up to the simulated request. */
    method HandleSubmit() returns (proceed: bool)
      modifies this`errors, this`isLoading
      ensures errors == ValidateReset(form)
      ensures proceed <==> ValidateReset(form).IsEmpty()
      ensures isLoading == (proceed || old(isLoading))
    {
      proceed := ValidateForm();
      if proceed {
        isLoading := true;
      }
    }

    /** The `finally` block once the request settles. */
    method FinishSubmit()
      modifies this`isLoading
      ensures !isLoading
    {
      isLoading := false;
    }
  }
}
