/** The session store: the current user, the bearer token and the
    authenticated flag, kept beside the `token` entry of the browser's
    storage, which is modelled as the field `stored`. */
module AuthStore {
  import opened Wrappers
  import opened Js
  import opened AuthTypes
  import opened Http
  import opened Jwt
  import AuthService

  const NoTokenMessage: string := "No token received from login"

  class Store {
    var user: Option<User>
    var token: Option<string>
    var isAuthenticated: bool
    /** The `token` entry of the browser's storage. */
    var stored: Option<string>

    /** No partial session: the flag implies a token, a user implies the
        flag, and the stored token is the one in memory. */
    ghost predicate Consistent()
      reads this
    {
      && (isAuthenticated ==> token.Some?)
      && (user.Some? ==> isAuthenticated)
      && stored == token
    }

    /** The empty session with nothing stored. */
    ghost predicate SignedOut()
      reads this
    {
      user == None && token == None && !isAuthenticated && stored == None
    }

    /** The store's initial state: the stored token is taken up, the user is
        not restored, and the session counts as authenticated exactly when
        the stored token is non-empty. */
    constructor (stored: Option<string>)
      ensures this.stored == stored && token == stored && user == None
      ensures isAuthenticated <==> IsTruthyText(stored)
      ensures Consistent()
    {
      this.stored := stored;
      user := None;
      token := stored;
      isAuthenticated := IsTruthyText(stored);
    }

    /** The `getToken` getter: the in-memory token when it is non-empty,
        otherwise whatever storage holds. */
    function GetToken(): (t: Option<string>)
      reads this
      ensures IsTruthyText(token) ==> t == token
      ensures !IsTruthyText(token) ==> t == stored
      ensures IsTruthyText(t) <==> IsTruthyText(token) || IsTruthyText(stored)
    {
      if IsTruthyText(token) then token else stored
    }

    /** The `isAdmin` getter: the cached role is exactly the string `ADMIN`. */
    function IsAdmin(): (b: bool)
      reads this
      ensures b <==> user.Some? && user.value.roles == Str("ADMIN")
      ensures user.None? ==> !b
    {
      user.Some? && user.value.roles == Str("ADMIN")
    }

    /** The `signup` action: on success the session holds the server's user
        and token, stored as well; on any failure it is emptied and the error
        re-thrown. */
    method Signup(server: Request -> Reply<AuthResponse>, data: SignupRequest) returns (r: Outcome<AuthResponse>)
      modifies this
      ensures r == AuthService.Signup(server, data)
      ensures r.Ok? ==> user == Some(r.value.user) && token == Some(r.value.token) && isAuthenticated
      ensures Consistent()
      ensures r.Thrown? ==> SignedOut()
    {
      r := AuthService.Signup(server, data);
      if r.Ok? {
        user := Some(r.value.user);
        token := Some(r.value.token);
        isAuthenticated := true;
        stored := Some(r.value.token);
      } else {
        user := None;
        token := None;
        isAuthenticated := false;
        stored := None;
      }
    }

    /** The `login` action: a successful call with a non-empty token sets the
        whole session and stores the token; a failure, or an empty token,
        empties the session and storage and throws. The user login builds
        always has the role `USER`, so the session is never admin after it. */
    method Login(p: Primitives, server: Request -> Reply<string>, data: LoginRequest) returns (r: Outcome<AuthResponse>)
      modifies this
      ensures var response := AuthService.Login(p, server, data);
        && (response.Thrown? ==> r == response)
        && (response.Ok? && response.value.token == "" ==> r == Thrown(Error(NoTokenMessage)))
        && (response.Ok? && response.value.token != "" ==> r == response)
      ensures r.Ok? ==> user == Some(r.value.user) && token == Some(r.value.token) && isAuthenticated
      ensures r.Ok? ==> r.value.token != "" && !IsAdmin()
      ensures Consistent()
      ensures r.Thrown? ==> SignedOut()
    {
      var response := AuthService.Login(p, server, data);
      if response.Ok? && response.value.token != "" {
        user := Some(response.value.user);
        token := Some(response.value.token);
        isAuthenticated := true;
        stored := Some(response.value.token);
        r := response;
      } else {
        r := if response.Thrown? then response else Thrown(Error(NoTokenMessage));
        user := None;
        token := None;
        isAuthenticated := false;
        stored := None;
      }
    }

    /** The `logout` action: always the empty session with nothing stored,
        whatever the state before, so a second logout changes nothing. */
    method Logout()
      modifies this
      ensures SignedOut() && Consistent()
    {
      user := None;
      token := None;
      isAuthenticated := false;
      stored := None;
    }
  }

  /** Login through the store never takes the empty-token branch: the
      service only succeeds with a non-empty token, so the store's outcome is
      the service's. */
  method LoginOutcomeIsService(p: Primitives, server: Request -> Reply<string>, data: LoginRequest, s: Store)
    returns (r: Outcome<AuthResponse>)
    modifies s
    ensures r == AuthService.Login(p, server, data)
  {
    var response := AuthService.Login(p, server, data);
    if response.Ok? {
      AuthService.LoginTokenNonEmpty(p, server, data);
    }
    r := s.Login(p, server, data);
  }
}
