/** The sign-up page: its form state, the validation that decides whether
    an account may be created, the terms checkbox and the submit button. */
module Signup {
  import opened JsValues
  import opened JsText
  import opened EmailPatterns
  import opened AuthRules

  datatype SignupForm = SignupForm(
    firstName: string,
    lastName: string,
    email: string,
    password: string,
    confirmPassword: string,
    agreeTerms: bool)

  const EmptyForm := SignupForm("", "", "", "", "", false)

  /** The names of the page's text inputs. */
  datatype TextField = FirstName | LastName | Email | Password | ConfirmPassword

  /** The page's error object. Its keys are the six form fields, so it is a
      record holding, per key, the message stored there or None when the
      key is absent. */
  datatype SignupErrors = SignupErrors(
    firstName: Option<string>,
    lastName: Option<string>,
    email: Option<string>,
    password: Option<string>,
    confirmPassword: Option<string>,
    agreeTerms: Option<string>)
  {
    /** `Object.keys(errors).length === 0` */
    predicate IsEmpty() {
      firstName.None? && lastName.None? && email.None? && password.None?
      && confirmPassword.None? && agreeTerms.None?
    }
  }

  const NoErrors := SignupErrors(None, None, None, None, None, None)

  const FirstNameRequired := "First name is required"
  const LastNameRequired := "Last name is required"
  const PasswordRequired := "Password is required"
  const TermsRequired := "You must accept the terms and conditions"

  /** The error object `validateForm` builds. A name is rejected when it is
      blank after trimming; the email when it does not match the anchored
      pattern ("required" when empty); the password when it is shorter than
      six characters ("required" when empty); the confirmation when it
      differs from the password; the terms when they are not accepted. */
  function ValidateSignup(f: SignupForm): SignupErrors {
    SignupErrors(
      if Trim(f.firstName) == "" then Some(FirstNameRequired) else None,
      if Trim(f.lastName) == "" then Some(LastNameRequired) else None,
      EmailError(f.email),
      PasswordError(f.password, PasswordRequired),
      MismatchError(f.password, f.confirmPassword),
      if f.agreeTerms then None else Some(TermsRequired))
  }

  /** What each entry of the error object means. */
  lemma ValidateSignupSpec(f: SignupForm)
    ensures ValidateSignup(f).firstName.Some? <==> AllSpace(f.firstName)
    ensures ValidateSignup(f).firstName.Some? ==> ValidateSignup(f).firstName.value == FirstNameRequired
    ensures ValidateSignup(f).lastName.Some? <==> AllSpace(f.lastName)
    ensures ValidateSignup(f).lastName.Some? ==> ValidateSignup(f).lastName.value == LastNameRequired
    ensures ValidateSignup(f).email.Some? <==> !AnchoredMatch(f.email)
    ensures ValidateSignup(f).email.Some? ==> ValidateSignup(f).email.value == (if f.email == "" then EmailRequired else EmailInvalid)
    ensures ValidateSignup(f).password.Some? <==> |f.password| < MinPasswordLength
    ensures ValidateSignup(f).password.Some? ==> ValidateSignup(f).password.value == (if f.password == "" then PasswordRequired else PasswordTooShort)
    ensures ValidateSignup(f).confirmPassword.Some? <==> f.password != f.confirmPassword
    ensures ValidateSignup(f).confirmPassword.Some? ==> ValidateSignup(f).confirmPassword.value == PasswordsDiffer
    ensures ValidateSignup(f).agreeTerms.Some? <==> !f.agreeTerms
    ensures ValidateSignup(f).agreeTerms.Some? ==> ValidateSignup(f).agreeTerms.value == TermsRequired
  {
    TrimEmpty(f.firstName);
    TrimEmpty(f.lastName);
    EmailErrorSpec(f.email);
  }

  /** The form is accepted exactly when both names have a non-blank
      character, the email matches the anchored pattern, the password has
      at least six characters and equals its confirmation, and the terms
      are accepted. */
  ghost predicate Acceptable(f: SignupForm) {
    !AllSpace(f.firstName) && !AllSpace(f.lastName) && AnchoredMatch(f.email)
    && |f.password| >= MinPasswordLength && f.password == f.confirmPassword && f.agreeTerms
  }

  lemma SignupValidIff(f: SignupForm)
    ensures ValidateSignup(f).IsEmpty() <==> Acceptable(f)
  {
    ValidateSignupSpec(f);
  }

  /** The submit button's `disabled` expression. It tests the names
      untrimmed, unlike the validator. */
  function SubmitDisabled(f: SignupForm, isLoading: bool): (r: bool)
    ensures !isLoading && Acceptable(f) ==> !r
    ensures f.password != "" && |f.password| < MinPasswordLength ==> r
  {
    assert !AnchoredMatch("") by { ValidateEmailSpec(""); }
    isLoading || f.firstName == "" || f.lastName == "" || f.email == "" || f.password == ""
    || f.confirmPassword == "" || !f.agreeTerms || |f.password| < MinPasswordLength
  }

  /** The converse fails: a blank first name enables the button but is
      rejected by the validator. */
  lemma BlankNameEnablesButton()
    ensures !SubmitDisabled(SignupForm(" ", "Ade", "a@b.co", "secret", "secret", true), false)
    ensures ValidateSignup(SignupForm(" ", "Ade", "a@b.co", "secret", "secret", true)).firstName.Some?
  {
    assert TrimStart(" ") == "" by { assert IsSpace(" "[0]); }
  }

  /** `{ ...formData, [name]: value }` for one of the text inputs. */
  function WithText(f: SignupForm, name: TextField, value: string): (r: SignupForm)
    ensures r.agreeTerms == f.agreeTerms
    ensures r.firstName == (if name == FirstName then value else f.firstName)
    ensures r.lastName == (if name == LastName then value else f.lastName)
    ensures r.email == (if name == Email then value else f.email)
    ensures r.password == (if name == Password then value else f.password)
    ensures r.confirmPassword == (if name == ConfirmPassword then value else f.confirmPassword)
  {
    match name
    case FirstName => f.(firstName := value)
    case LastName => f.(lastName := value)
    case Email => f.(email := value)
    case Password => f.(password := value)
    case ConfirmPassword => f.(confirmPassword := value)
  }

  class SignupPage {
    var form: SignupForm
    var errors: SignupErrors
    var isLoading: bool

    constructor ()
      ensures form == EmptyForm && errors == NoErrors && !isLoading
    {
      form := EmptyForm;
      errors := NoErrors;
      isLoading := false;
    }

    /** `handleChange`: the inputs wired to it are the five text inputs,
        so `checked` is never the value taken. */
    method HandleChange(name: TextField, value: string)
      modifies this`form
      ensures form == WithText(old(form), name, value)
    {
      form := WithText(form, name, value);
    }

    /** The terms checkbox: store the flag, and when it is checked delete
        the agreeTerms error and only that one. */
    method OnTermsCheckedChange(checked: bool)
      modifies this`form, this`errors
      ensures form == old(form).(agreeTerms := checked)
      ensures checked ==> errors == old(errors).(agreeTerms := None)
      ensures !checked ==> errors == old(errors)
    {
      form := form.(agreeTerms := checked);
      if checked {
        errors := errors.(agreeTerms := None);
      }
    }

    /** `validateForm`: fills a fresh error object rule by rule, replaces
        the page's errors with it, and reports whether it is empty. */
    method ValidateForm() returns (ok: bool)
      modifies this`errors
      ensures errors == ValidateSignup(form)
      ensures ok <==> Acceptable(form)
    {
      var f := form;
      ghost var want := ValidateSignup(f);
      var newErrors := NoErrors;
      if Trim(f.firstName) == "" {
        newErrors := newErrors.(firstName := Some(FirstNameRequired));
      }
      assert newErrors == NoErrors.(firstName := want.firstName);
      if Trim(f.lastName) == "" {
        newErrors := newErrors.(lastName := Some(LastNameRequired));
      }
      assert newErrors == NoErrors.(firstName := want.firstName, lastName := want.lastName);
      if f.email == "" {
        newErrors := newErrors.(email := Some(EmailRequired));
      } else if !ValidateEmail(f.email) {
        newErrors := newErrors.(email := Some(EmailInvalid));
      }
      assert newErrors == want.(password := None, confirmPassword := None, agreeTerms := None);
      if f.password == "" {
        newErrors := newErrors.(password := Some(PasswordRequired));
      } else if |f.password| < MinPasswordLength {
        newErrors := newErrors.(password := Some(PasswordTooShort));
      }
      assert newErrors == want.(confirmPassword := None, agreeTerms := None);
      if f.password != f.confirmPassword {
        newErrors := newErrors.(confirmPassword := Some(PasswordsDiffer));
      }
      assert newErrors == want.(agreeTerms := None);
      if !f.agreeTerms {
        newErrors := newErrors.(agreeTerms := Some(TermsRequired));
      }
      errors := newErrors;
      SignupValidIff(f);
      ok := newErrors.IsEmpty();
    }

    /** `handleSubmit` up to the simulated request: a rejected form stops
        with its errors shown; an accepted one starts loading. */
    method HandleSubmit() returns (proceed: bool)
      modifies this`errors, this`isLoading
      ensures errors == ValidateSignup(form)
      ensures proceed <==> Acceptable(form)
      ensures isLoading == (proceed || old(isLoading))
    {
      proceed := ValidateForm();
      if proceed {
        isLoading := true;
      }
    }

    /** The `finally` block once the request settles. */
    method FinishSubmit()
      modifies this`isLoading
      ensures !isLoading
    {
      isLoading := false;
    }
  }
}
