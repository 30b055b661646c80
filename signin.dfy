/** The sign-in form: a required-field guard, the login call, and the choice of the next route. */
module SignInPage {
  import opened Wrappers
  import opened Api
  import opened Auth
  import opened SignUpPage

  const SignInRequiredMessage := "Email and password are required."
  const LoginFallback := "Login failed."

  /** Where a login that settled sends the visitor, or the error it shows. */
  function AfterLogin(typedEmail: string, redirect: Option<string>, result: Result<LoginResult, Thrown>): (r: PageOutcome)
    ensures result.Failure? ==> r == ShowError(MessageOf(result.error, LoginFallback))
    ensures result.Success? && result.value.requiresVerification == Some(true) ==>
              r == Navigate(VerifyRoute(if Given(result.value.email) then result.value.email.value else typedEmail))
    ensures result.Success? && result.value.requiresVerification != Some(true) ==>
              r == Navigate(PathRoute(if Given(redirect) then redirect.value else "/"))
  {
    match result
    case Failure(e) => ShowError(MessageOf(e, LoginFallback))
    case Success(res) =>
      if res.requiresVerification == Some(true) then
        Navigate(VerifyRoute(if Given(res.email) then res.email.value else typedEmail))
      else
        Navigate(PathRoute(if Given(redirect) then redirect.value else "/"))
  }

  /**
   * `handleSubmit` against the auth store. An empty email or password shows the error
   * without calling `login`; otherwise `login` runs with the service's answer `response`
   * and the page follows `AfterLogin`.
   */
  method SubmitSignIn(auth: AuthStore, email: string, password: string, redirect: Option<string>,
                      response: Result<LoginResponse, Thrown>)
    returns (outcome: PageOutcome)
    modifies auth
    ensures email == "" || password == "" ==> outcome == ShowError(SignInRequiredMessage) && unchanged(auth)
    ensures email != "" && password != "" ==> outcome == AfterLogin(email, redirect, LoginReply(response))
    ensures auth.isLoading == old(auth.isLoading)
    ensures (email != "" && password != "" && response.Success? && response.value.requiresVerification != Some(true)
             && Given(response.value.token)) ==>
              auth.storedToken == response.value.token && auth.user == response.value.user
    ensures !(response.Success? && response.value.requiresVerification != Some(true) && Given(response.value.token)) ==>
              auth.user == old(auth.user) && auth.storedToken == old(auth.storedToken)
  {
    if email == "" || password == "" {
      return ShowError(SignInRequiredMessage);
    }
    var result := auth.Login(email, password, response);
    outcome := AfterLogin(email, redirect, result);
  }

  /** A verification demand always leads to the verification page, never to the redirect target. */
  lemma VerificationWins(typedEmail: string, redirect: Option<string>, response: Result<LoginResponse, Thrown>)
    requires response.Success? && response.value.requiresVerification == Some(true)
    ensures AfterLogin(typedEmail, redirect, LoginReply(response)).Navigate?
    ensures AfterLogin(typedEmail, redirect, LoginReply(response)).route.VerifyRoute?
    ensures AfterLogin(typedEmail, redirect, LoginReply(response)).route.email != ""
            || typedEmail == ""
  {
  }
}
