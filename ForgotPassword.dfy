/** The forgot-password page: one email input, the validation branch of
    its submit handler and its submit button. */
module ForgotPassword {
  import opened JsValues
  import opened EmailPatterns
  import opened AuthRules

  /** The page's error object: key `email` only. */
  datatype ForgotErrors = ForgotErrors(email: Option<string>) {
    /** `Object.keys(newErrors).length > 0` is its negation. */
    predicate IsEmpty() {
      email.None?
    }
  }

  const NoErrors := ForgotErrors(None)

  /** The error object `handleSubmit` builds: "required" for the empty
      email, "invalid" for one that does not match the anchored pattern. */
  function ValidateForgot(email: string): ForgotErrors {
    ForgotErrors(EmailError(email))
  }

  lemma ValidateForgotSpec(email: string)
    ensures email == "" ==> ValidateForgot(email).email == Some(EmailRequired)
    ensures email != "" && !AnchoredMatch(email) ==> ValidateForgot(email).email == Some(EmailInvalid)
    ensures ValidateForgot(email).IsEmpty() <==> AnchoredMatch(email)
  {
    EmailErrorSpec(email);
  }

  /** The submit button's `disabled` expression: it does not test the
      address's shape. */
  function SubmitDisabled(email: string, isLoading: bool): (r: bool)
    ensures !isLoading && AnchoredMatch(email) ==> !r
    ensures email == "" ==> r
  {
    assert !AnchoredMatch("") by { ValidateEmailSpec(""); }
    isLoading || email == ""
  }

  class ForgotPasswordPage {
    var email: string
    var errors: ForgotErrors
    var isLoading: bool

    constructor ()
      ensures email == "" && errors == NoErrors && !isLoading
    {
      email := "";
      errors := NoErrors;
      isLoading := false;
    }

    /** The input's `onChange`. */
    method SetEmail(value: string)
      modifies this`email
      ensures email == value
    {
      email := value;
    }

    /** `handleSubmit` up to the simulated request: the errors are
        replaced; with an error the handler returns, otherwise it starts
        loading and hands the email on to the code-verification page. */
    method HandleSubmit() returns (next: Option<string>)
      modifies this`errors, this`isLoading
      ensures errors == ValidateForgot(email)
      ensures next.Some? <==> AnchoredMatch(email)
      ensures next.Some? ==> next.value == email
      ensures isLoading == (next.Some? || old(isLoading))
    {
      var newErrors := NoErrors;
      if email == "" {
        newErrors := newErrors.(email := Some(EmailRequired));
      } else if !ValidateEmail(email) {
        newErrors := newErrors.(email := Some(EmailInvalid));
      }
      errors := newErrors;
      ValidateForgotSpec(email);
      if !newErrors.IsEmpty() {
        return None;
      }
      isLoading := true;
      next := Some(email);
    }

    /** The `finally` block once the request settles. */
    method FinishSubmit()
      modifies this`isLoading
      ensures !isLoading
    {
      isLoading := false;
    }
  }
}
