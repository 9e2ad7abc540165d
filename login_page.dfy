/** The sign-in / sign-up form: its mode, the client-side checks run before
    a request is sent, in their order, and the request that results. The
    requests themselves go to the authentication provider, which is not
    part of this model. */
module LoginPage {
  import opened Types

  const FillAllMessage := "Please fill in all fields"
  const MismatchMessage := "Passwords do not match"
  const ShortPasswordMessage := "Password must be at least 6 characters"

  /** The shortest password sign-up accepts. */
  const MinPasswordLength := 6

  /** The message the checks leave, or None when the request may be sent. */
  function FormCheck(isSignUp: bool, email: string, password: string, confirm: string): (r: Option<string>)
    ensures email == "" || password == "" ==> r == Some(FillAllMessage)
    ensures r.None? <==>
      email != "" && password != "" && (isSignUp ==> password == confirm && |password| >= MinPasswordLength)
  {
    if email == "" || password == "" then Some(FillAllMessage)
    else if isSignUp && password != confirm then Some(MismatchMessage)
    else if isSignUp && |password| < MinPasswordLength then Some(ShortPasswordMessage)
    else None
  }

  /** In sign-up mode a mismatch is reported before a short password, and a
      matching password is rejected exactly when it is shorter than six. */
  lemma SignUpOrder(email: string, password: string, confirm: string)
    requires email != "" && password != ""
    ensures password != confirm ==> FormCheck(true, email, password, confirm) == Some(MismatchMessage)
    ensures password == confirm ==>
      (FormCheck(true, email, password, confirm) == Some(ShortPasswordMessage) <==> |password| < MinPasswordLength)
  {
  }

  /** In sign-in mode the confirmation and the length are never looked at. */
  lemma SignInIgnoresSignUpChecks(email: string, password: string, c1: string, c2: string)
    ensures FormCheck(false, email, password, c1) == FormCheck(false, email, password, c2)
    ensures FormCheck(false, email, password, c1).Some? ==> FormCheck(false, email, password, c1) == Some(FillAllMessage)
  {
  }

  /** What the submit sends to the authentication provider. */
  datatype AuthRequest = NoRequest | SignUpRequest(email: string, password: string) | SignInRequest(email: string, password: string)

  /** The form's state. */
  class LoginForm {
    var isSignUp: bool
    var email: string
    var password: string
    var confirmPassword: string
    var formError: Option<string>

    /** The page opens in sign-up mode exactly when the `signup` query
        parameter is "true". */
    constructor (signupParam: Option<string>)
      ensures isSignUp <==> signupParam == Some("true")
      ensures email == "" && password == "" && confirmPassword == "" && formError == None
    {
      isSignUp := signupParam == Some("true");
      email := "";
      password := "";
      confirmPassword := "";
      formError := None;
    }

    /** `toggleAuthMode`. */
    method ToggleAuthMode()
      modifies this
      ensures isSignUp == !old(isSignUp) && formError == None
      ensures email == old(email) && password == old(password) && confirmPassword == old(confirmPassword)
    {
      isSignUp := !isSignUp;
      formError := None;
    }

    /** `handleSubmit`: clear the error, run the checks in order and stop at
        the first that fails; otherwise send the request for the mode. */
    method HandleSubmit() returns (request: AuthRequest)
      modifies this
      ensures isSignUp == old(isSignUp) && email == old(email)
      ensures password == old(password) && confirmPassword == old(confirmPassword)
      ensures formError == FormCheck(isSignUp, email, password, confirmPassword)
      ensures request.NoRequest? <==> formError.Some?
      ensures request.SignUpRequest? ==> isSignUp && request == SignUpRequest(email, password)
      ensures request.SignInRequest? ==> !isSignUp && request == SignInRequest(email, password)
    {
      formError := None;
      if email == "" || password == "" {
        formError := Some(FillAllMessage);
        return NoRequest;
      }
      if isSignUp {
        if password != confirmPassword {
          formError := Some(MismatchMessage);
          return NoRequest;
        }
        if |password| < MinPasswordLength {
          formError := Some(ShortPasswordMessage);
          return NoRequest;
        }
        request := SignUpRequest(email, password);
      } else {
        request := SignInRequest(email, password);
      }
    }
  }
}
