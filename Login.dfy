/** The login page: its form state, the validation that decides whether
    the credentials are submitted, the change handler and the submit
    button. */
module Login {
  import opened JsValues
  import opened JsText
  import opened EmailPatterns
  import opened AuthRules

  datatype LoginForm = LoginForm(email: string, password: string, rememberMe: bool)

  const EmptyForm := LoginForm("", "", false)

  /** The page's error object: keys `email` and `password`. */
  datatype LoginErrors = LoginErrors(email: Option<string>, password: Option<string>) {
    /** `Object.keys(errors).length === 0` */
    predicate IsEmpty() {
      email.None? && password.None?
    }
  }

  const NoErrors := LoginErrors(None, None)

  const PasswordRequired := "Password is required"

  /** The error object `validateForm` builds. */
  function ValidateLogin(f: LoginForm): LoginErrors {
    LoginErrors(EmailError(f.email), PasswordError(f.password, PasswordRequired))
  }

  /** The email is rejected exactly when it does not match the anchored
      pattern ("required" when empty, "invalid" otherwise), the password
      exactly when it is shorter than six characters ("required" when
      empty); the remember-me flag plays no part. */
  lemma ValidateLoginSpec(f: LoginForm)
    ensures ValidateLogin(f).email.Some? <==> !AnchoredMatch(f.email)
    ensures ValidateLogin(f).email.Some? ==>
      ValidateLogin(f).email.value == (if f.email == "" then EmailRequired else EmailInvalid)
    ensures ValidateLogin(f).password.Some? <==> |f.password| < MinPasswordLength
    ensures ValidateLogin(f).password.Some? ==>
      ValidateLogin(f).password.value == (if f.password == "" then PasswordRequired else PasswordTooShort)
    ensures ValidateLogin(f) == ValidateLogin(f.(rememberMe := !f.rememberMe))
  {
    EmailErrorSpec(f.email);
  }

  /** The credentials are accepted exactly when the email matches the
      anchored pattern and the password has at least six characters. */
  ghost predicate Acceptable(f: LoginForm) {
    AnchoredMatch(f.email) && |f.password| >= MinPasswordLength
  }

  lemma LoginValidIff(f: LoginForm)
    ensures ValidateLogin(f).IsEmpty() <==> Acceptable(f)
  {
    ValidateLoginSpec(f);
  }

  /** The submit button's `disabled` expression. For the credentials it
      is a necessary condition of acceptance, not a sufficient one: the
      button does not test the email's shape. */
  function SubmitDisabled(f: LoginForm, isLoading: bool): (r: bool)
    ensures !isLoading && Acceptable(f) ==> !r
    ensures |f.password| < MinPasswordLength ==> r
  {
    assert !AnchoredMatch("") by { ValidateEmailSpec(""); }
    isLoading || f.email == "" || f.password == "" || |f.password| < MinPasswordLength
  }

  /** An enabled button does not mean the credentials pass: "ab" is no
      email address. */
  lemma EnabledButInvalid()
    ensures !SubmitDisabled(LoginForm("ab", "secret", false), false)
    ensures ValidateLogin(LoginForm("ab", "secret", false)).email == Some(EmailInvalid)
  {
    assert IndexOf("ab", '@') == 2;
  }

  /** The element a change event comes from, with what `handleChange`
      reads of it: a text input's `value`, or the checkbox's `checked`
      (`type === 'checkbox'`). */
  datatype ChangeTarget =
    | EmailInput(value: string)
    | PasswordInput(value: string)
    | RememberMeCheckbox(checked: bool)

  /** `{ ...prev, [name]: type === 'checkbox' ? checked : value }` */
  function Apply(f: LoginForm, t: ChangeTarget): (r: LoginForm)
    ensures t.EmailInput? ==> r == LoginForm(t.value, f.password, f.rememberMe)
    ensures t.PasswordInput? ==> r == LoginForm(f.email, t.value, f.rememberMe)
    ensures t.RememberMeCheckbox? ==> r == LoginForm(f.email, f.password, t.checked)
  {
    match t
    case EmailInput(v) => f.(email := v)
    case PasswordInput(v) => f.(password := v)
    case RememberMeCheckbox(c) => f.(rememberMe := c)
  }

  /** A change to the checkbox never affects the validation. */
  lemma CheckboxKeepsValidation(f: LoginForm, c: bool)
    ensures ValidateLogin(Apply(f, RememberMeCheckbox(c))) == ValidateLogin(f)
  {
  }

  /** After a successful login the page records the user in session
      storage exactly when remember-me is on. */
  function RememberedUser(f: LoginForm): (r: Option<string>)
    ensures r.Some? <==> f.rememberMe
    ensures r.Some? ==> r.value == f.email
  {
    if f.rememberMe then Some(f.email) else None
  }

  class LoginPage {
    var form: LoginForm
    var errors: LoginErrors
    var isLoading: bool

    constructor ()
      ensures form == EmptyForm && errors == NoErrors && !isLoading
    {
      form := EmptyForm;
      errors := NoErrors;
      isLoading := false;
    }

    /** `handleChange`, and the checkbox's own handler, which stores
        `!!checked` in the same field. */
    method HandleChange(t: ChangeTarget)
      modifies this`form
      ensures form == Apply(old(form), t)
    {
      form := Apply(form, t);
    }

    /** `validateForm`: fills a fresh error object, replaces the page's
        errors with it, and reports whether it is empty. */
    method ValidateForm() returns (ok: bool)
      modifies this`errors
      ensures errors == ValidateLogin(form)
      ensures ok <==> Acceptable(form)
    {
      var f := form;
      var newErrors := NoErrors;
      if f.email == "" {
        newErrors := newErrors.(email := Some(EmailRequired));
      } else if !ValidateEmail(f.email) {
        newErrors := newErrors.(email := Some(EmailInvalid));
      }
      if f.password == "" {
        newErrors := newErrors.(password := Some(PasswordRequired));
      } else if |f.password| < MinPasswordLength {
        newErrors := newErrors.(password := Some(PasswordTooShort));
      }
      errors := newErrors;
      LoginValidIff(f);
      ok := newErrors.IsEmpty();
    }

    /** `handleSubmit` up to the simulated request: rejected credentials
        stop with their errors shown; accepted ones start loading. */
    method HandleSubmit() returns (proceed: bool)
      modifies this`errors, this`isLoading
      ensures errors == ValidateLogin(form)
      ensures proceed <==> Acceptable(form)
      ensures isLoading == (proceed || old(isLoading))
    {
      proceed := ValidateForm();
      if proceed {
        isLoading := true;
      }
    }

    /** The `finally` block once the request settles. */
    method FinishSubmit()
      modifies this`isLoading
      ensures !isLoading
    {
      isLoading := false;
    }
  }
}
