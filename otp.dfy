/**
 * The e-mail verification dialog: sending a one-time code to the address,
 * the 30-second countdown before another can be sent, and checking the code
 * the user types. Each handler is split where it awaits the network: the
 * part before the request, and the part that runs with the answer.
 */
module Otp {
  import opened JsString

  /** A request's fate: no answer (or an unreadable body) with the thrown
      error's message, or an answer with its `ok` flag and `data.error` ("" when
      absent or empty). */
  datatype Reply = Thrown(message: string) | Answered(ok: bool, error: string)

  const EmailRequired := "Email is required"
  const EnterOtp := "Please enter the OTP"
  const EmailExists := "Email already exists"
  const Countdown: nat := 30

  /** The text of the `Error` thrown for a refused answer: the answer's error,
      or the fallback when it has none. */
  function ThrownMessage(error: string, fallback: string): (m: string)
    ensures error != "" ==> m == error
    ensures error == "" ==> m == fallback
  {
    if error != "" then error else fallback
  }

  /** The countdown after `ticks` one-second steps from `timer`: each step
      takes one off while it is positive. */
  function TimerAfter(timer: nat, ticks: nat): nat {
    if ticks == 0 then timer
    else TimerAfter(if timer > 0 then timer - 1 else 0, ticks - 1)
  }

  /** The countdown stops at zero: after `ticks` steps it shows `timer - ticks`,
      or zero once that many steps have passed. */
  lemma {:induction false} TimerRunsDown(timer: nat, ticks: nat)
    ensures TimerAfter(timer, ticks) == if ticks >= timer then 0 else timer - ticks
  {
    if ticks > 0 {
      TimerRunsDown(if timer > 0 then timer - 1 else 0, ticks - 1);
    }
  }

  class OtpDialog {
    /** The `email` the dialog verifies. */
    const email: string
    /** Whether an `onOtpVerified` callback was given. */
    const notifies: bool
    var otp: string
    var otpSent: bool
    var otpError: string
    var loadingOtp: bool
    var verifyingOtp: bool
    var timer: nat
    /** The addresses the code was requested for, in order. */
    var sendRequests: seq<string>
    /** The (address, code) pairs sent for checking, in order. */
    var verifyRequests: seq<(string, string)>
    /** How many times `onOtpVerified` was called. */
    var verifiedCalls: nat

    /** The countdown never exceeds its start. */
    ghost predicate Valid()
      reads this
    {
      timer <= Countdown
    }

    constructor(email: string, notifies: bool)
      ensures Valid()
      ensures this.email == email && this.notifies == notifies
      ensures otp == "" && !otpSent && otpError == "" && !loadingOtp && !verifyingOtp && timer == 0
      ensures sendRequests == [] && verifyRequests == [] && verifiedCalls == 0
    {
      this.email := email;
      this.notifies := notifies;
      otp, otpSent, otpError := "", false, "";
      loadingOtp, verifyingOtp, timer := false, false, 0;
      sendRequests, verifyRequests, verifiedCalls := [], [], 0;
    }

    /** The send button is enabled. */
    predicate SendEnabled()
      reads this
    {
      !(loadingOtp || timer > 0)
    }

    /** The verify button is enabled. */
    predicate VerifyEnabled()
      reads this
    {
      !(verifyingOtp || Trim(otp) == "")
    }

    /** The code input's `onChange`. */
    method SetOtp(value: string)
      requires Valid()
      modifies this
      ensures Valid()
      ensures otp == value
      ensures otpSent == old(otpSent) && otpError == old(otpError) && loadingOtp == old(loadingOtp)
      ensures verifyingOtp == old(verifyingOtp) && timer == old(timer)
      ensures sendRequests == old(sendRequests) && verifyRequests == old(verifyRequests)
      ensures verifiedCalls == old(verifiedCalls)
    {
      otp := value;
    }

    /** One second of the countdown passes. */
    method Tick()
      requires Valid()
      modifies this
      ensures Valid()
      ensures timer == TimerAfter(old(timer), 1)
      ensures otp == old(otp) && otpSent == old(otpSent) && otpError == old(otpError)
      ensures loadingOtp == old(loadingOtp) && verifyingOtp == old(verifyingOtp)
      ensures sendRequests == old(sendRequests) && verifyRequests == old(verifyRequests)
      ensures verifiedCalls == old(verifiedCalls)
    {
      if timer > 0 {
        timer := timer - 1;
      }
    }

    /** `handleSendOtp` up to the request: with no address, only the error;
        otherwise clear the code, the flag and the error, start the countdown
        and send the request. */
    method SendOtp() returns (sent: bool)
      requires Valid()
      modifies this
      ensures Valid()
      ensures sent <==> email != ""
      ensures !sent ==>
        otpError == EmailRequired && otp == old(otp) && otpSent == old(otpSent)
        && loadingOtp == old(loadingOtp) && timer == old(timer) && sendRequests == old(sendRequests)
      ensures sent ==>
        otp == "" && !otpSent && otpError == "" && loadingOtp && timer == Countdown
        && sendRequests == old(sendRequests) + [email] && !SendEnabled()
      ensures verifyingOtp == old(verifyingOtp) && verifyRequests == old(verifyRequests)
      ensures verifiedCalls == old(verifiedCalls)
    {
      if email == "" {
        otpError := EmailRequired;
        return false;
      }
      loadingOtp := true;
      otpError := "";
      otp := "";
      otpSent := false;
      timer := Countdown;
      sendRequests := sendRequests + [email];
      sent := true;
    }

    /** The rest of `handleSendOtp`, once the request settles: the code counts
        as sent when the answer is `ok` or says the address is already taken;
        otherwise the error is shown. */
    method SendSettled(reply: Reply)
      requires Valid()
      modifies this
      ensures Valid()
      ensures !loadingOtp
      ensures otpSent <==> old(otpSent) || (reply.Answered? && (reply.ok || reply.error == EmailExists))
      ensures otpError == match reply
                          case Thrown(message) => message
                          case Answered(ok, error) =>
                            if ok || error == EmailExists then old(otpError)
                            else ThrownMessage(error, "Failed to send OTP")
      ensures otp == old(otp) && verifyingOtp == old(verifyingOtp) && timer == old(timer)
      ensures sendRequests == old(sendRequests) && verifyRequests == old(verifyRequests)
      ensures verifiedCalls == old(verifiedCalls)
    {
      match reply {
        case Answered(ok, error) =>
          if ok || error == EmailExists {
            otpSent := true;
          } else {
            otpError := ThrownMessage(error, "Failed to send OTP");
          }
        case Thrown(message) =>
          otpError := message;
      }
      loadingOtp := false;
    }

    /** `handleVerifyOtp` up to the request: a blank code shows the error and
        sends nothing; otherwise the address and the code are sent. */
    method VerifyOtp() returns (sent: bool)
      requires Valid()
      modifies this
      ensures Valid()
      ensures sent <==> !AllSpace(otp)
      ensures !sent ==>
        otpError == EnterOtp && verifyingOtp == old(verifyingOtp) && verifyRequests == old(verifyRequests)
      ensures sent ==>
        otpError == "" && verifyingOtp && verifyRequests == old(verifyRequests) + [(email, otp)]
      ensures otp == old(otp) && otpSent == old(otpSent) && loadingOtp == old(loadingOtp) && timer == old(timer)
      ensures sendRequests == old(sendRequests) && verifiedCalls == old(verifiedCalls)
    {
      BlankIffAllSpace(otp);
      if Trim(otp) == "" {
        otpError := EnterOtp;
        return false;
      }
      verifyingOtp := true;
      otpError := "";
      verifyRequests := verifyRequests + [(email, otp)];
      sent := true;
    }

    /** The rest of `handleVerifyOtp`: only an `ok` answer calls `onOtpVerified`
        (when given); anything else shows the error. */
    method VerifySettled(reply: Reply)
      requires Valid()
      modifies this
      ensures Valid()
      ensures !verifyingOtp
      ensures verifiedCalls == old(verifiedCalls) + (if reply.Answered? && reply.ok && notifies then 1 else 0)
      ensures otpError == match reply
                          case Thrown(message) => message
                          case Answered(ok, error) => if ok then old(otpError) else ThrownMessage(error, "Invalid OTP")
      ensures otp == old(otp) && otpSent == old(otpSent) && loadingOtp == old(loadingOtp) && timer == old(timer)
      ensures sendRequests == old(sendRequests) && verifyRequests == old(verifyRequests)
    {
      match reply {
        case Answered(ok, error) =>
          if !ok {
            otpError := ThrownMessage(error, "Invalid OTP");
          } else if notifies {
            verifiedCalls := verifiedCalls + 1;
          }
        case Thrown(message) =>
          otpError := message;
      }
      verifyingOtp := false;
    }
  }

  /** An enabled verify button always sends the code. */
  lemma VerifyEnabledSends(verifying: bool, otp: string)
    requires !(verifying || Trim(otp) == "")
    ensures !AllSpace(otp)
  {
    BlankIffAllSpace(otp);
  }
}
