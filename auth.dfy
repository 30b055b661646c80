/**
 * The auth store: the signed-in user, the loading flag and the bearer token kept in
 * browser storage, with the mount-time profile load, `login`, `register` and `logout`.
 * Every API response is an input: the remote service is not part of the model.
 */
module Auth {
  import opened Wrappers
  import opened Api

  datatype AuthUser = AuthUser(
    id: string,
    fullName: string,
    email: string,
    phone: Option<string>,
    profilePhoto: Option<string>,
    location: Option<string>,
    isVerified: bool)

  /** The body of a `POST /api/auth/login` response; every field may be missing. */
  datatype LoginResponse = LoginResponse(
    token: Option<string>,
    user: Option<AuthUser>,
    requiresVerification: Option<bool>,
    email: Option<string>,
    message: Option<string>)

  /** What `login` resolves to: `{ requiresVerification: true, email }` or `{}`. */
  datatype LoginResult = LoginResult(requiresVerification: Option<bool>, email: Option<string>)

  datatype RegisterData = RegisterData(
    fullName: string,
    email: string,
    password: string,
    phone: Option<string>,
    dateOfBirth: Option<string>,
    location: Option<string>)

  /** The body of a `POST /api/auth/register` response. */
  datatype RegisterResponse = RegisterResponse(email: string, message: string)

  const NoFields := LoginResult(None, None)

  /** `register(data)`: hands back the email the service registered; no store state is involved. */
  function Register(data: RegisterData, response: Result<RegisterResponse, Thrown>): (r: Result<string, Thrown>)
    ensures response.Success? ==> r == Success(response.value.email)
    ensures response.Failure? ==> r == Failure(response.error)
  {
    match response
    case Success(body) => Success(body.email)
    case Failure(e) => Failure(e)
  }

  /** What `login` resolves to for a given service answer (the store update is separate). */
  function LoginReply(response: Result<LoginResponse, Thrown>): (r: Result<LoginResult, Thrown>)
    ensures response.Failure? ==> r == Failure(response.error)
    ensures response.Success? && response.value.requiresVerification == Some(true) ==>
              r == Success(LoginResult(Some(true), response.value.email))
    ensures response.Success? && response.value.requiresVerification != Some(true) ==> r == Success(NoFields)
  {
    match response
    case Failure(e) => Failure(e)
    case Success(body) =>
      if body.requiresVerification == Some(true) then Success(LoginResult(Some(true), body.email))
      else Success(NoFields)
  }

  class AuthStore {
    var user: Option<AuthUser>
    var isLoading: bool
    /** The token stored under `AuthTokenKey`. */
    var storedToken: Option<string>

    /** The provider before its mount effect: no user, loading, storage as left behind. */
    constructor (storage: Option<string>)
      ensures user == None && isLoading && storedToken == storage
    {
      user := None;
      isLoading := true;
      storedToken := storage;
    }

    /** `isAuthenticated`: a user is held. */
    function IsAuthenticated(): (r: bool)
      reads this
      ensures r <==> user.Some?
    {
      user.Some?
    }

    /**
     * `loadUser` on mount. A missing or empty token only ends loading; otherwise the
     * profile fetch (`GET /api/auth/me`, given as `profile`) either sets the user or,
     * on any failure, removes the stored token. Loading ends in every case.
     */
    method LoadUser(profile: Result<AuthUser, Thrown>)
      modifies this
      ensures !isLoading
      ensures !Given(old(storedToken)) ==> user == old(user) && storedToken == old(storedToken)
      ensures Given(old(storedToken)) && profile.Success? ==>
                user == Some(profile.value) && storedToken == old(storedToken)
      ensures Given(old(storedToken)) && profile.Failure? ==>
                user == old(user) && storedToken == None
    {
      if !Given(storedToken) {
        isLoading := false;
        return;
      }
      match profile {
        case Success(u) => user := Some(u);
        case Failure(_) => storedToken := None;
      }
      isLoading := false;
    }

    /**
     * `login(email, password)` with the service's answer as `response`. A thrown error
     * propagates and changes nothing; a verification demand is passed on and changes
     * nothing; a token is stored and the user (or none) taken from the response.
     */
    method Login(email: string, password: string, response: Result<LoginResponse, Thrown>)
      returns (r: Result<LoginResult, Thrown>)
      modifies this
      ensures isLoading == old(isLoading) && r == LoginReply(response)
      ensures response.Failure? ==> r == Failure(response.error) && user == old(user) && storedToken == old(storedToken)
      ensures response.Success? && response.value.requiresVerification == Some(true) ==>
                r == Success(LoginResult(Some(true), response.value.email))
                && user == old(user) && storedToken == old(storedToken)
      ensures response.Success? && response.value.requiresVerification != Some(true) && Given(response.value.token) ==>
                r == Success(NoFields)
                && storedToken == response.value.token && user == response.value.user
      ensures response.Success? && response.value.requiresVerification != Some(true) && !Given(response.value.token) ==>
                r == Success(NoFields) && user == old(user) && storedToken == old(storedToken)
    {
      if response.Failure? {
        return Failure(response.error);
      }
      var body := response.value;
      if body.requiresVerification == Some(true) {
        return Success(LoginResult(Some(true), body.email));
      }
      if Given(body.token) {
        storedToken := body.token;
        user := body.user;
      }
      r := Success(NoFields);
    }

    /** `logout()`: forgets the token and the user without asking the service. */
    method Logout()
      modifies this
      ensures storedToken == None && user == None && !IsAuthenticated()
      ensures isLoading == old(isLoading)
    {
      storedToken := None;
      user := None;
    }

    /** `setUser(user)`, exposed to the verification page. */
    method SetUser(u: AuthUser)
      modifies this
      ensures user == Some(u) && IsAuthenticated()
      ensures storedToken == old(storedToken) && isLoading == old(isLoading)
    {
      user := Some(u);
    }

    /** Stores a token the way `localStorage.setItem(authTokenKey, token)` does. */
    method StoreToken(token: string)
      modifies this
      ensures storedToken == Some(token)
      ensures user == old(user) && isLoading == old(isLoading)
    {
      storedToken := Some(token);
    }
  }
}
