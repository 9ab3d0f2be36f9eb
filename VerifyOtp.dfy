/** The code-verification page: six one-digit boxes, the length check on
    submit, and the resend countdown. */
module VerifyOtp {
  import opened JsValues
  import opened JsText
  import opened EmailPatterns
  import opened ResetPassword

  const CodeLength: nat := 6
  const ResendDelay: nat := 30
  const InvalidCode := "Please enter a valid 6-digit code"

  /** `otp.join('')` */
  function Join(boxes: seq<string>): string {
    if boxes == [] then "" else Join(boxes[..|boxes| - 1]) + boxes[|boxes| - 1]
  }

  /** Joining digit strings gives a digit string. */
  lemma {:induction false} JoinDigits(boxes: seq<string>)
    requires forall i :: 0 <= i < |boxes| ==> AllDigits(boxes[i])
    ensures AllDigits(Join(boxes))
  {
    if boxes != [] {
      JoinDigits(boxes[..|boxes| - 1]);
    }
  }

  /** `otp.some(digit => !digit)` */
  function AnyEmpty(boxes: seq<string>): (r: bool)
    ensures r <==> exists i :: 0 <= i < |boxes| && boxes[i] == ""
  {
    if boxes == [] then false
    else if boxes[0] == "" then true
    else
      var r := AnyEmpty(boxes[1..]);
      assert forall i :: 1 <= i < |boxes| ==> boxes[i] == boxes[1..][i - 1];
      r
  }

  /** While every box holds at most one character, as the inputs'
      `maxLength` keeps them, the joined code has one character per box
      exactly when no box is empty: the button and the length check agree. */
  lemma {:induction false} JoinLengthOfSingles(boxes: seq<string>)
    requires forall i :: 0 <= i < |boxes| ==> |boxes[i]| <= 1
    ensures |Join(boxes)| <= |boxes|
    ensures |Join(boxes)| == |boxes| <==> !AnyEmpty(boxes)
  {
    if boxes != [] {
      var init := boxes[..|boxes| - 1];
      JoinLengthOfSingles(init);
      assert AnyEmpty(boxes) <==> AnyEmpty(init) || boxes[|boxes| - 1] == "" by {
        if AnyEmpty(init) {
          var i :| 0 <= i < |init| && init[i] == "";
          assert boxes[i] == "";
        }
      }
    }
  }

  /** The handler itself accepts values of several digits. With no box
      empty, the length check passes exactly when every box holds one
      character, and a longer box makes the code too long. */
  lemma {:induction false} NoEmptyBoxLength(boxes: seq<string>)
    requires !AnyEmpty(boxes)
    ensures |Join(boxes)| >= |boxes|
    ensures |Join(boxes)| == |boxes| <==> forall i :: 0 <= i < |boxes| ==> |boxes[i]| == 1
  {
    if boxes != [] {
      var init := boxes[..|boxes| - 1];
      assert !AnyEmpty(init) by {
        forall i | 0 <= i < |init| ensures init[i] != "" { assert init[i] == boxes[i]; }
      }
      NoEmptyBoxLength(init);
      assert boxes[|boxes| - 1] != "";
      if forall i :: 0 <= i < |boxes| ==> |boxes[i]| == 1 {
        assert forall i :: 0 <= i < |init| ==> |init[i]| == 1 by {
          forall i | 0 <= i < |init| ensures |init[i]| == 1 { assert init[i] == boxes[i]; }
        }
      }
    }
  }

  /** The page's error object: key `otp` only. */
  datatype OtpErrors = OtpErrors(otp: Option<string>)

  class VerifyOtpPage {
    /** `location.state?.email || ''` */
    const email: string
    /** The six boxes. */
    const otp: array<string>
    var resendTime: nat
    var isLoading: bool
    var errors: OtpErrors

    /** Six boxes, each empty or all digits, and a countdown of at most
        thirty seconds. */
    ghost predicate Valid()
      reads this, otp
    {
      otp.Length == CodeLength
      && (forall i :: 0 <= i < otp.Length ==> AllDigits(otp[i]))
      && resendTime <= ResendDelay
    }

    constructor (stateEmail: Option<string>)
      ensures Valid() && fresh(otp)
      ensures email == OrElse(stateEmail, "")
      ensures otp[..] == ["", "", "", "", "", ""]
      ensures resendTime == ResendDelay && !isLoading && errors == OtpErrors(None)
    {
      email := OrElse(stateEmail, "");
      otp := new string[CodeLength](_ => "");
      resendTime := ResendDelay;
      isLoading := false;
      errors := OtpErrors(None);
      new;
      assert otp[..] == ["", "", "", "", "", ""];
    }

    /** `handleOtpChange`: a non-empty value with a non-digit is ignored;
        anything else goes into box `index` and only there. */
    method HandleOtpChange(index: nat, value: string)
      requires Valid() && index < otp.Length
      modifies otp
      ensures Valid()
      ensures value != "" && !AllDigits(value) ==> otp[..] == old(otp[..])
      ensures AllDigits(value) ==> otp[..] == old(otp[..])[index := value]
    {
      if value != "" && !AllDigits(value) {
        return;
      }
      otp[index] := value;
    }

    /** What the boxes join to. */
    function Code(): string
      reads this, otp
    {
      Join(otp[..])
    }

    /** The verify button's `disabled` expression. */
    function VerifyDisabled(): (r: bool)
      reads this, otp
      ensures r <==> isLoading || exists i :: 0 <= i < otp.Length && otp[i] == ""
    {
      isLoading || AnyEmpty(otp[..])
    }

    /** `handleSubmit` up to the simulated request: a code that is not
        six characters long stores the error and stops; otherwise loading
        starts and the email and the code go on to the reset page. The
        error object is not cleared on success. */
    method HandleSubmit() returns (next: Option<ResetState>)
      requires Valid()
      modifies this`errors, this`isLoading
      ensures |Code()| != CodeLength ==>
        next.None? && errors == OtpErrors(Some(InvalidCode)) && isLoading == old(isLoading)
      ensures |Code()| == CodeLength ==>
        next == Some(ResetState(Some(email), Some(Code()))) && errors == old(errors) && isLoading
    {
      var code := Join(otp[..]);
      if |code| != CodeLength {
        errors := OtpErrors(Some(InvalidCode));
        return None;
      }
      isLoading := true;
      next := Some(ResetState(Some(email), Some(code)));
    }

    /** The `finally` block once the request settles. */
    method FinishSubmit()
      modifies this`isLoading
      ensures !isLoading
    {
      isLoading := false;
    }

    /** The countdown effect: while the counter is positive, one second
        later it drops by one. */
    method Tick()
      requires Valid() && resendTime > 0
      modifies this`resendTime
      ensures Valid()
      ensures resendTime == old(resendTime) - 1
      ensures ResendDisabled() <==> old(resendTime) > 1
    {
      resendTime := resendTime - 1;
    }

    /** The resend link's `disabled` expression: the link is enabled
        exactly when the countdown has run out. */
    function ResendDisabled(): (r: bool)
      reads this
      ensures !r <==> resendTime == 0
    {
      resendTime > 0
    }

    /** `handleResendOtp`: nothing while the countdown runs; otherwise,
        once the simulated request is done, the countdown restarts. */
    method HandleResendOtp() returns (sent: bool)
      requires Valid()
      modifies this`resendTime
      ensures Valid()
      ensures sent <==> old(resendTime) == 0
      ensures sent <==> !old(ResendDisabled())
      ensures old(resendTime) > 0 ==> resendTime == old(resendTime)
      ensures sent ==> resendTime == ResendDelay
    {
      if resendTime > 0 {
        return false;
      }
      resendTime := ResendDelay;
      sent := true;
    }
  }

  /** A code that passes the length check reaches the reset page, which
      renders exactly when the email it was given is not empty; and the
      code consists of digits only. */
  lemma SubmittedCodeIsDigits(p: VerifyOtpPage)
    requires p.Valid() && |p.Code()| == CodeLength
    ensures AllDigits(p.Code())
    ensures MustRedirect(Some(ResetState(Some(p.email), Some(p.Code())))) <==> p.email == ""
  {
    JoinDigits(p.otp[..]);
  }

  /** An email handed on by the forgot-password page (one that matches
      its pattern) is not empty, and the code-verification page reads it
      back unchanged. */
  lemma ForwardedEmailArrives(email: string)
    requires AnchoredMatch(email)
    ensures email != ""
    ensures OrElse(Some(email), "") == email
  {
    assert !AnchoredMatch("") by { ValidateEmailSpec(""); }
  }
}
