/** The sign-up form: a first-failing-check-wins validation, then registration and the move to verification. */
module SignUpPage {
  import opened Wrappers
  import opened Api
  import opened Auth

  const RequiredMessage := "Full name, email, and password are required."
  const MismatchMessage := "Passwords do not match."
  const ShortPasswordMessage := "Password must be at least 6 characters."
  const TermsMessage := "Please agree to the Terms of Service and Privacy Policy."
  const RegisterFallback := "Registration failed."
  const MinPasswordLength := 6

  datatype SignUpForm = SignUpForm(
    fullName: string,
    email: string,
    password: string,
    confirmPassword: string,
    phone: string,
    dateOfBirth: string,
    location: string,
    agreedTerms: bool)

  /** Where the storefront navigates next. `VerifyRoute(e)` is `/verify?email=` with `e` URI-encoded. */
  datatype Route = VerifyRoute(email: string) | PathRoute(path: string)

  /** How a submit handler ends: an inline error or a navigation. */
  datatype PageOutcome = ShowError(message: string) | Navigate(route: Route)

  predicate RequiredFilled(f: SignUpForm) {
    f.fullName != "" && f.email != "" && f.password != ""
  }

  /** The first check of `handleSubmit` that fails, or none. */
  function FirstFailure(f: SignUpForm): (r: Option<string>)
    ensures r == Some(RequiredMessage) <==> !RequiredFilled(f)
    ensures r == Some(MismatchMessage) <==> RequiredFilled(f) && f.password != f.confirmPassword
    ensures r == Some(ShortPasswordMessage) <==>
              RequiredFilled(f) && f.password == f.confirmPassword && |f.password| < MinPasswordLength
    ensures r == Some(TermsMessage) <==>
              RequiredFilled(f) && f.password == f.confirmPassword && |f.password| >= MinPasswordLength
              && !f.agreedTerms
    ensures r.None? <==>
              RequiredFilled(f) && f.password == f.confirmPassword && |f.password| >= MinPasswordLength
              && f.agreedTerms
  {
    if !RequiredFilled(f) then Some(RequiredMessage)
    else if f.password != f.confirmPassword then Some(MismatchMessage)
    else if |f.password| < MinPasswordLength then Some(ShortPasswordMessage)
    else if !f.agreedTerms then Some(TermsMessage)
    else None
  }

  /** The data `register` receives, when every check passes. */
  function RegisterRequest(f: SignUpForm): (r: Result<RegisterData, string>)
    ensures r.Failure? <==> FirstFailure(f).Some?
    ensures r.Failure? ==> r.error == FirstFailure(f).value
    ensures r.Success? ==> r.value.fullName == f.fullName && r.value.email == f.email && r.value.password == f.password
                           && r.value.phone == Some(f.phone) && r.value.dateOfBirth == Some(f.dateOfBirth)
                           && r.value.location == Some(f.location)
  {
    match FirstFailure(f)
    case Some(msg) => Failure(msg)
    case None => Success(RegisterData(f.fullName, f.email, f.password, Some(f.phone), Some(f.dateOfBirth), Some(f.location)))
  }

  /** `handleSubmit` with the register call's answer as `response`. */
  function SignUpSubmit(f: SignUpForm, response: Result<RegisterResponse, Thrown>): (r: PageOutcome)
    ensures FirstFailure(f).Some? ==> r == ShowError(FirstFailure(f).value)
    ensures FirstFailure(f).None? && response.Success? ==> r == Navigate(VerifyRoute(response.value.email))
    ensures FirstFailure(f).None? && response.Failure? ==> r == ShowError(MessageOf(response.error, RegisterFallback))
  {
    match RegisterRequest(f)
    case Failure(msg) => ShowError(msg)
    case Success(data) =>
      match Register(data, response)
      case Success(email) => Navigate(VerifyRoute(email))
      case Failure(e) => ShowError(MessageOf(e, RegisterFallback))
  }

  /** A rejected form never reaches the service: its outcome does not depend on any response. */
  lemma RejectedFormIgnoresService(f: SignUpForm, r1: Result<RegisterResponse, Thrown>, r2: Result<RegisterResponse, Thrown>)
    requires FirstFailure(f).Some?
    ensures SignUpSubmit(f, r1) == SignUpSubmit(f, r2) && SignUpSubmit(f, r1).ShowError?
  {
  }

  /** Only a successful registration navigates, and only to the verification page. */
  lemma NavigatesOnlyToVerify(f: SignUpForm, response: Result<RegisterResponse, Thrown>)
    ensures SignUpSubmit(f, response).Navigate? <==> FirstFailure(f).None? && response.Success?
    ensures SignUpSubmit(f, response).Navigate? ==> SignUpSubmit(f, response).route.VerifyRoute?
  {
  }
}
