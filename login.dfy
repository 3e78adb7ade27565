/** The sign-up handler of the login page (src/pages/Login.tsx): two
    validation guards, then the form state around the sign-up call. */
module Login {
  import opened Types
  import opened Text

  /** Why an attempt is refused before any sign-up call. */
  datatype Rejection = PasswordTooShort | PasswordsDontMatch

  /** The two guards, length first; `length` counts UTF-16 code units. */
  function ValidateSignup(password: string, confirm: string): (r: Option<Rejection>)
    ensures r == Some(PasswordTooShort) <==> Utf16Length(password) < 6
    ensures r == Some(PasswordsDontMatch) <==> Utf16Length(password) >= 6 && password != confirm
    ensures r.None? <==> Utf16Length(password) >= 6 && password == confirm
  {
    if Utf16Length(password) < 6 then Some(PasswordTooShort)
    else if password != confirm then Some(PasswordsDontMatch)
    else None
  }

  /** Three characters outside the Basic Multilingual Plane are six code
      units, so such a password passes the length check. */
  lemma AstralPasswordLongEnough()
    ensures ValidateSignup("\U{1F600}\U{1F600}\U{1F600}", "\U{1F600}\U{1F600}\U{1F600}").None?
  {
    assert Utf16Length("\U{1F600}\U{1F600}\U{1F600}") == 6 by {
      var s := "\U{1F600}\U{1F600}\U{1F600}";
      assert s[1..] == "\U{1F600}\U{1F600}";
      assert s[1..][1..] == "\U{1F600}";
      assert s[1..][1..][1..] == "";
    }
  }

  /** What `handleSignup` does up to the `await`: refuse, or call sign-up
      with these credentials. */
  datatype SignupStep = Refused(reason: Rejection) | CallSignUp(email: string, password: string)

  /** The sign-up half of the page state. */
  class SignupForm {
    var signupEmail: string
    var signupPassword: string
    var confirmPassword: string
    var isSigningUp: bool

    constructor ()
      ensures signupEmail == "" && signupPassword == "" && confirmPassword == ""
      ensures !isSigningUp
    {
      signupEmail := "";
      signupPassword := "";
      confirmPassword := "";
      isSigningUp := false;
    }

    method SetFields(email: string, password: string, confirm: string)
      modifies this
      ensures signupEmail == email && signupPassword == password && confirmPassword == confirm
      ensures isSigningUp == old(isSigningUp)
    {
      signupEmail := email;
      signupPassword := password;
      confirmPassword := confirm;
    }

    /** The guards and `setIsSigningUp(true)`: a refused attempt changes
        nothing; an accepted one raises the flag and hands over the fields. */
    method BeginSignup() returns (step: SignupStep)
      modifies this
      ensures step.Refused? <==> ValidateSignup(old(signupPassword), old(confirmPassword)).Some?
      ensures step.Refused? ==> step.reason == ValidateSignup(old(signupPassword), old(confirmPassword)).value
      ensures step.CallSignUp? ==> step.email == old(signupEmail) && step.password == old(signupPassword)
      ensures signupEmail == old(signupEmail) && signupPassword == old(signupPassword)
      ensures confirmPassword == old(confirmPassword)
      ensures isSigningUp == (if step.Refused? then old(isSigningUp) else true)
    {
      var rejection := ValidateSignup(signupPassword, confirmPassword);
      if rejection.Some? {
        return Refused(rejection.value);
      }
      isSigningUp := true;
      step := CallSignUp(signupEmail, signupPassword);
    }

    /** After the call: the three fields are cleared on success and kept on
        failure; the flag drops either way. */
    method FinishSignup(succeeded: bool)
      modifies this
      ensures !isSigningUp
      ensures succeeded ==> signupEmail == "" && signupPassword == "" && confirmPassword == ""
      ensures !succeeded ==> signupEmail == old(signupEmail) && signupPassword == old(signupPassword)
                             && confirmPassword == old(confirmPassword)
    {
      if succeeded {
        signupEmail := "";
        signupPassword := "";
        confirmPassword := "";
      }
      isSigningUp := false;
    }

    /** The whole handler with the outcome of the sign-up call as a
        parameter: sign-up is requested only for a valid pair, and the flag
        is down afterwards whenever it was down before. */
    method HandleSignup(signUpSucceeds: bool) returns (called: bool)
      modifies this
      ensures called <==> ValidateSignup(old(signupPassword), old(confirmPassword)).None?
      ensures !called ==> signupEmail == old(signupEmail) && signupPassword == old(signupPassword)
                          && confirmPassword == old(confirmPassword) && isSigningUp == old(isSigningUp)
      ensures called ==> !isSigningUp
      ensures called && signUpSucceeds ==> signupEmail == "" && signupPassword == "" && confirmPassword == ""
      ensures called && !signUpSucceeds ==> signupEmail == old(signupEmail) && signupPassword == old(signupPassword)
                                            && confirmPassword == old(confirmPassword)
    {
      var step := BeginSignup();
      if step.Refused? {
        return false;
      }
      assert isSigningUp;
      FinishSignup(signUpSucceeds);
      called := true;
    }
  }
}
