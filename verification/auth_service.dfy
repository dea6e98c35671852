/** The signup and login calls. Signup passes the server's answer through;
    login receives a bare token and rebuilds the user from its claims. */
module AuthService {
  import opened Wrappers
  import opened Js
  import opened AuthTypes
  import opened Http
  import opened Jwt
  import Base64

  function SignupRequestFor(data: SignupRequest): Request {
    Request(Post, ApiUrl + "/auth/signup", map[], Registration(data))
  }

  function LoginRequestFor(data: LoginRequest): Request {
    Request(Post, ApiUrl + "/auth/authenticate", map[], Credentials(data))
  }

  /** `authService.signup`: the server's `{token, user}` or its error, unchanged. */
  function Signup(server: Request -> Reply<AuthResponse>, data: SignupRequest): (r: Outcome<AuthResponse>)
    // the answer's data is the result, exactly when the server answers
    ensures r.Ok? <==> server(SignupRequestFor(data)).Received?
    ensures server(SignupRequestFor(data)).Received? ==> r == Ok(server(SignupRequestFor(data)).data)
    // a rejected request is re-thrown as it is
    ensures server(SignupRequestFor(data)).Rejected? ==>
      r == Thrown(AxiosError(server(SignupRequestFor(data)).message, server(SignupRequestFor(data)).response))
  {
    Await(server(SignupRequestFor(data)))
  }

  /** The user record login builds from the decoded claims: the `userId`
      claim, the subject as the name, the fixed role `USER` and no
      followings; it has no `id`. */
  function UserFromClaims(claims: Value): User
    requires Truthy(claims)
  {
    User(Undefined, Prop(claims, "userId").value, Prop(claims, "sub").value, Str("USER"), [], [])
  }

  /** `authService.login`. */
  function Login(p: Primitives, server: Request -> Reply<string>, data: LoginRequest): (r: Outcome<AuthResponse>)
    // a rejected request is re-thrown as it is
    ensures server(LoginRequestFor(data)).Rejected? ==>
      r == Thrown(AxiosError(server(LoginRequestFor(data)).message, server(LoginRequestFor(data)).response))
    // a token that does not decode to a truthy value is a failure
    ensures server(LoginRequestFor(data)).Received? && !Truthy(ParseJwt(p, server(LoginRequestFor(data)).data))
      ==> r == Thrown(Error("Failed to decode token"))
    // on success the server's token is returned unchanged, with the user built from its claims
    ensures r.Ok? ==>
      && server(LoginRequestFor(data)).Received?
      && r.value.token == server(LoginRequestFor(data)).data
      && Truthy(ParseJwt(p, r.value.token))
      && r.value.user == UserFromClaims(ParseJwt(p, r.value.token))
  {
    match Await(server(LoginRequestFor(data)))
    case Thrown(e) => Thrown(e)
    case Ok(token) =>
      var decoded := ParseJwt(p, token);
      if !Truthy(decoded) then Thrown(Error("Failed to decode token"))
      else Ok(AuthResponse(token, UserFromClaims(decoded)))
  }

  /** Login never hands out the admin role: every user it builds is `USER`. */
  lemma LoginRoleIsUser(p: Primitives, server: Request -> Reply<string>, data: LoginRequest)
    requires Login(p, server, data).Ok?
    ensures Login(p, server, data).value.user.roles == Str("USER")
    ensures Login(p, server, data).value.user.following == []
    ensures Login(p, server, data).value.user.followers == []
  {
  }

  /** A successful login always carries a non-empty token: the empty string
      has no payload segment, so it never decodes. */
  lemma LoginTokenNonEmpty(p: Primitives, server: Request -> Reply<string>, data: LoginRequest)
    requires Login(p, server, data).Ok?
    ensures Login(p, server, data).value.token != ""
  {
    assert ParseJwt(p, "") == Null;
  }

  /** A token whose claims are not an object with the fields read yields
      `undefined` fields, not a failure: only a falsy payload fails. */
  lemma LoginFailsOnlyOnFalsyClaims(p: Primitives, server: Request -> Reply<string>, data: LoginRequest)
    requires server(LoginRequestFor(data)).Received?
    ensures Login(p, server, data).Ok? <==> Truthy(ParseJwt(p, server(LoginRequestFor(data)).data))
  {
  }

  /** The end-to-end case: the server answers with a compact token whose
      payload reads `{"sub": "alice", "userId": "42"}`; login returns that
      token with the user `{userId: "42", name: "alice", roles: "USER"}`. */
  lemma LoginAlice(
    p: Primitives, server: Request -> Reply<string>, data: LoginRequest,
    header: string, payload: seq<Base64.byte>, signature: string, text: string)
    requires '.' !in header
    requires server(LoginRequestFor(data)) == Received(Compact(header, payload, signature))
    requires p.decodeUriComponent(Percent.Escape(payload)) == Some(text)
    requires p.parseJson(text) == Some(Object(map["sub" := Str("alice"), "userId" := Str("42")]))
    ensures Login(p, server, data) == Ok(AuthResponse(
      Compact(header, payload, signature),
      User(Undefined, Str("42"), Str("alice"), Str("USER"), [], [])))
  {
    DecodePayloadOfCompact(p, header, payload, signature);
  }
}
