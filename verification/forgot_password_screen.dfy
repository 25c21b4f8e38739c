/** The forgot-password screen: three inputs, the ordered checks of `handleResetPassword`, and
    the two visibility toggles. */
module ForgotPasswordScreen {

  /** What a tap on the reset button does: a warning that a field is empty, the notice that
      the passwords differ, or the move to the OTP screen with the phone and the new
      password. */
  datatype Reset = FillAllFields | Mismatch | ToOtp(phone: string, password: string)

  /** `handleResetPassword`'s checks: the empty check comes first, then the comparison of the
      two passwords; only matching passwords are passed on. */
  function ResetOf(phone: string, newPassword: string, confirmPassword: string): (r: Reset)
    ensures r == FillAllFields <==> phone == "" || newPassword == "" || confirmPassword == ""
    ensures r == Mismatch <==>
      phone != "" && newPassword != "" && confirmPassword != "" && newPassword != confirmPassword
    ensures r.ToOtp? ==> r.phone == phone && r.password == newPassword && r.password == confirmPassword
  {
    if phone == "" || newPassword == "" || confirmPassword == "" then FillAllFields
    else if newPassword != confirmPassword then Mismatch
    else ToOtp(phone, newPassword)
  }

  /** A form with every input filled in and the same password twice always goes on. */
  lemma CompleteFormGoesOn(phone: string, password: string)
    requires phone != "" && password != ""
    ensures ResetOf(phone, password, password) == ToOtp(phone, password)
  {
  }

  class Screen {
    var phone: string
    var newPassword: string
    var confirmPassword: string
    var loading: bool
    var passwordVisible: bool
    var confirmPasswordVisible: bool

    constructor ()
      ensures phone == "" && newPassword == "" && confirmPassword == ""
      ensures !loading && !passwordVisible && !confirmPasswordVisible
    {
      phone := "";
      newPassword := "";
      confirmPassword := "";
      loading := false;
      passwordVisible := false;
      confirmPasswordVisible := false;
    }

    method SetPhone(text: string)
      modifies this`phone
      ensures phone == text
    {
      phone := text;
    }

    method SetNewPassword(text: string)
      modifies this`newPassword
      ensures newPassword == text
    {
      newPassword := text;
    }

    method SetConfirmPassword(text: string)
      modifies this`confirmPassword
      ensures confirmPassword == text
    {
      confirmPassword := text;
    }

    /** `handleResetPassword`: a failed check changes nothing; passing both sets `loading`,
        which nothing on this screen clears again. */
    method HandleResetPassword() returns (r: Reset)
      modifies this`loading
      ensures r == ResetOf(phone, newPassword, confirmPassword)
      ensures r.ToOtp? ==> loading
      ensures !r.ToOtp? ==> loading == old(loading)
    {
      if phone == "" || newPassword == "" || confirmPassword == "" {
        return FillAllFields;
      }
      if newPassword != confirmPassword {
        return Mismatch;
      }
      loading := true;
      r := ToOtp(phone, newPassword);
    }

    /** The eye on the new-password input flips that input's visibility and nothing else. */
    method TogglePasswordVisibility()
      modifies this`passwordVisible
      ensures passwordVisible == !old(passwordVisible)
    {
      passwordVisible := !passwordVisible;
    }

    /** The eye on the confirmation input flips that input's visibility and nothing else. */
    method ToggleConfirmPasswordVisibility()
      modifies this`confirmPasswordVisible
      ensures confirmPasswordVisible == !old(confirmPasswordVisible)
    {
      confirmPasswordVisible := !confirmPasswordVisible;
    }
  }
}
