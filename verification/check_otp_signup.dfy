/** The OTP screen of sign-up: the code the server sends, the resend countdown, the ordered
    checks of `handleVerify` and the sign-up request they lead to. */
module CheckOtpSignup {
  import opened Js
  import SignupScreen

  /** The countdown's starting value, in seconds. */
  const ResendSeconds: int := 60

  /** The longest code the input accepts. */
  const OtpLength: int := 4

  /** `correctOtp`: null until a reply arrives, then the reply's `otp`: a string, or some
      other value (a number, or undefined when the field is missing). */
  datatype Code = NullCode | CodeText(text: string) | CodeOther

  /** The reply to the code request: an exception, or a parsed body with its `otp`. */
  datatype OtpReply = OtpFailed | OtpAnswered(otp: Code)

  /** What a tap on Verify does. */
  datatype Verify =
    | BackToSignup
    | EnterFourDigits
    | IncorrectOtp
    | SignupRequest(params: SignupScreen.Form)

  /** The reply to the sign-up request: an exception, or a parsed body with its `error`. */
  datatype SignupReply = SignupFailed | SignupAnswered(error: Option<string>)

  /** One second of the countdown: down by one, but never below zero. */
  function Countdown(t: int): (u: int)
    ensures t > 0 ==> u == t - 1
    ensures t <= 0 ==> u == 0
  {
    if t > 0 then t - 1 else 0
  }

  /** The countdown after `n` seconds. */
  function Ticks(t: int, n: nat): int
    decreases n
  {
    if n == 0 then t else Ticks(Countdown(t), n - 1)
  }

  /** From any non-negative value, `n` seconds take the countdown to `t - n`, or to zero
      once that is reached; it is never negative. */
  lemma {:induction false} TicksClamp(t: int, n: nat)
    requires t >= 0
    ensures Ticks(t, n) == if t >= n then t - n else 0
    decreases n
  {
    if n > 0 {
      TicksClamp(Countdown(t), n - 1);
    }
  }

  /** Resend is offered sixty seconds after a code arrives, and not before. */
  lemma ResendAfterAMinute(n: nat)
    ensures Ticks(ResendSeconds, n) == 0 <==> n >= 60
  {
    TicksClamp(ResendSeconds, n);
  }

  /** The input keeps at most four characters. */
  function Typed(text: string): (otp: string)
    ensures |otp| <= OtpLength
    ensures |text| <= OtpLength ==> otp == text
    ensures otp == text[..|otp|]
  {
    if |text| > OtpLength then text[..OtpLength] else text
  }

  /** `otp !== correctOtp`: the typed text matches only a code that is that same string. */
  predicate Matches(otp: string, code: Code) {
    code.CodeText? && code.text == otp
  }

  /** `handleVerify`'s checks in order: a missing sign-up field sends the user back, a code
      shorter than four characters brings a warning, a code other than the one received is
      refused, and only then is the sign-up request sent, with the route's five fields. */
  function VerifyOf(params: SignupScreen.Form, otp: string, code: Code): (v: Verify)
    ensures v == BackToSignup <==> !SignupScreen.Filled(params)
    ensures v == EnterFourDigits <==> SignupScreen.Filled(params) && |otp| < OtpLength
    ensures v == IncorrectOtp <==> SignupScreen.Filled(params) && |otp| >= OtpLength && !Matches(otp, code)
    ensures v.SignupRequest? <==> SignupScreen.Filled(params) && |otp| >= OtpLength && Matches(otp, code)
    ensures v.SignupRequest? ==> v.params == params
  {
    if params.email == "" || params.password == "" || params.name == "" || params.age == "" || params.phone == "" then
      BackToSignup
    else if |otp| < OtpLength then EnterFourDigits
    else if !(code.CodeText? && code.text == otp) then IncorrectOtp
    else SignupRequest(params)
  }

  /** Until a code has arrived as a string, no sign-up request is ever sent. */
  lemma NoCodeNoSignup(params: SignupScreen.Form, otp: string, code: Code)
    requires !code.CodeText?
    ensures !VerifyOf(params, otp, code).SignupRequest?
  {
  }

  /** A form that passed the sign-up screen's validation never bounces back from here. */
  lemma ValidatedFormStays(f: SignupScreen.Form, otp: string, code: Code)
    requires SignupScreen.Validate(f).CheckUser?
    ensures VerifyOf(f, otp, code) != BackToSignup
  {
  }

  /** A sign-up reply leads to the login screen when it has no error, or an empty (falsy)
      one; otherwise only the error is shown. */
  function ToLogin(reply: SignupReply): (go: bool)
    ensures go ==> reply.SignupAnswered?
    ensures reply.SignupAnswered? && reply.error.Some? && reply.error.value != "" ==> !go
    ensures reply == SignupAnswered(None) ==> go
  {
    reply.SignupAnswered? && (reply.error.None? || reply.error.value == "")
  }

  class Screen {
    /** The five sign-up fields from the route. */
    const params: SignupScreen.Form
    var otp: string
    var correctOtp: Code
    var timer: int
    var loading: bool

    /** The countdown stays between zero and sixty, and the input holds at most four
        characters. */
    predicate Valid()
      reads this
    {
      0 <= timer <= ResendSeconds && |otp| <= OtpLength
    }

    constructor (params: SignupScreen.Form)
      ensures this.params == params && otp == "" && correctOtp == NullCode
      ensures timer == ResendSeconds && !loading
      ensures Valid()
    {
      this.params := params;
      otp := "";
      correctOtp := NullCode;
      timer := ResendSeconds;
      loading := false;
    }

    /** One call of the interval. */
    method Tick()
      requires Valid()
      modifies this`timer
      ensures timer == Countdown(old(timer))
      ensures Valid()
    {
      timer := if timer > 0 then timer - 1 else 0;
    }

    /** Typing into the code input. */
    method SetOtp(text: string)
      requires Valid()
      modifies this`otp
      ensures otp == Typed(text)
      ensures Valid()
    {
      otp := if |text| > OtpLength then text[..OtpLength] else text;
    }

    /** The Resend link: offered only once the countdown is at zero. */
    predicate ResendShown()
      reads this
    {
      timer == 0
    }

    /** The reply to `sendOtp`: a parsed reply stores its code and restarts the countdown; an
        exception changes nothing. */
    method ReceiveOtp(reply: OtpReply)
      requires Valid()
      modifies this`correctOtp, this`timer
      ensures reply.OtpAnswered? ==> correctOtp == reply.otp && timer == ResendSeconds
      ensures reply.OtpFailed? ==> correctOtp == old(correctOtp) && timer == old(timer)
      ensures Valid()
    {
      if reply.OtpAnswered? {
        correctOtp := reply.otp;
        timer := ResendSeconds;
      }
    }

    /** `handleVerify`: the checks, and the loading flag set only when the request goes out. */
    method HandleVerify() returns (v: Verify)
      modifies this`loading
      ensures v == VerifyOf(params, otp, correctOtp)
      ensures v.SignupRequest? ==> loading
      ensures !v.SignupRequest? ==> loading == old(loading)
    {
      if params.email == "" || params.password == "" || params.name == "" || params.age == "" || params.phone == "" {
        return BackToSignup;
      }
      if |otp| < OtpLength {
        return EnterFourDigits;
      }
      if !Matches(otp, correctOtp) {
        return IncorrectOtp;
      }
      loading := true;
      v := SignupRequest(params);
    }

    /** The reply to the sign-up request: loading ends, and the user moves on to the login
        screen exactly as `ToLogin` says. */
    method ReceiveSignup(reply: SignupReply) returns (toLogin: bool)
      modifies this`loading
      ensures !loading
      ensures toLogin == ToLogin(reply)
    {
      loading := false;
      toLogin := match reply
        case SignupFailed => false
        case SignupAnswered(error) => error.None? || error.value == "";
    }
  }
}
