/** The points and rewards calls. Both read the token from storage, take the
    user id from the token's claims, ask for `/auth/{userId}/points` or
    `/auth/{userId}/rewards`, and turn every failure into one of three
    messages. */
module Rewards {
  import opened Wrappers
  import opened Js
  import opened Http
  import opened Jwt
  import Base64

  const NoTokenMessage: string := "No authentication token found"
  const UnauthorizedMessage: string := "Invalid or missing token"
  const NotFoundMessage: string := "User not found"

  /** `getUserIdFromToken`: the `userId` claim of the decoded payload. It
      throws whatever the decoding chain throws, or a TypeError when the
      payload is null. */
  function UserIdFromToken(p: Primitives, token: string): (r: Outcome<Value>)
    ensures r.Thrown? ==> r.error.DecodeError?
    ensures r.Ok? <==> DecodePayload(p, token).Ok? && Prop(DecodePayload(p, token).value, "userId").Some?
    ensures r.Ok? ==> Prop(DecodePayload(p, token).value, "userId") == Some(r.value)
  {
    match DecodePayload(p, token)
    case Thrown(e) => Thrown(e)
    case Ok(decoded) =>
      match Prop(decoded, "userId")
      case None => Thrown(DecodeError(NullPayload))
      case Some(id) => Ok(id)
  }

  /** For a well-formed compact token the user id is the payload's `userId`
      claim, the base64url alphabet being translated before `atob`. */
  lemma UserIdOfCompact(p: Primitives, header: string, payload: seq<Base64.byte>, signature: string, claims: map<string, Value>)
    requires '.' !in header
    requires DecodeBytes(p, payload) == Ok(Object(claims))
    requires "userId" in claims
    ensures UserIdFromToken(p, Compact(header, payload, signature)) == Ok(claims["userId"])
  {
    DecodePayloadOfCompact(p, header, payload, signature);
  }

  /** The request for one of the user's resources, with the bearer header. */
  function UserRequest(token: string, userId: Value, resource: string): Request {
    Request(Get, ApiUrl + "/auth/" + ToJsString(userId) + "/" + resource, Bearer(token), NoBody)
  }

  /** The catch block: 401 and 404 answers get their own message, anything
      else (another status, no answer, a decoding failure) the fallback. */
  function Classify(e: Failure, fallback: string): (message: string)
    requires e.AxiosError? || e.DecodeError?
    ensures e.AxiosError? && e.response.Some? && e.response.value.status == 401 ==> message == UnauthorizedMessage
    ensures e.AxiosError? && e.response.Some? && e.response.value.status == 404 ==> message == NotFoundMessage
    ensures !(e.AxiosError? && e.response.Some? && e.response.value.status in {401, 404}) ==> message == fallback
  {
    match e
    case AxiosError(_, Some(response)) =>
      if response.status == 401 then UnauthorizedMessage
      else if response.status == 404 then NotFoundMessage
      else fallback
    case _ => fallback
  }

  /** The shared body of `getUserPoints` and `getUserRewards`. */
  function FetchForUser<T>(
    p: Primitives, stored: Option<string>, server: Request -> Reply<T>, resource: string, fallback: string)
    : (r: Outcome<T>)
    // no token: fail before any decoding or request
    ensures !IsTruthyText(stored) ==> r == Thrown(Error(NoTokenMessage))
    // a token that does not decode: the fallback message, and no request
    ensures IsTruthyText(stored) && UserIdFromToken(p, stored.value).Thrown? ==> r == Thrown(Error(fallback))
    // success: the server's answer to the request for this user id, with this token
    ensures r.Ok? ==>
      && IsTruthyText(stored) && UserIdFromToken(p, stored.value).Ok?
      && server(UserRequest(stored.value, UserIdFromToken(p, stored.value).value, resource)) == Received(r.value)
    // and every answer to that request is returned as it is
    ensures
      && IsTruthyText(stored) && UserIdFromToken(p, stored.value).Ok?
      && server(UserRequest(stored.value, UserIdFromToken(p, stored.value).value, resource)).Received?
      ==> r == Ok(server(UserRequest(stored.value, UserIdFromToken(p, stored.value).value, resource)).data)
    // every failure after the token check is one of three messages
    ensures r.Thrown? && IsTruthyText(stored) ==>
      r.error.Error? && r.error.message in {UnauthorizedMessage, NotFoundMessage, fallback}
  {
    if !IsTruthyText(stored) then Thrown(Error(NoTokenMessage))
    else
      var token := stored.value;
      match UserIdFromToken(p, token)
      case Thrown(e) => Thrown(Error(Classify(e, fallback)))
      case Ok(userId) =>
        match Await(server(UserRequest(token, userId, resource)))
        case Ok(data) => Ok(data)
        case Thrown(e) => Thrown(Error(Classify(e, fallback)))
  }

  /** A server answer of 401 or 404 gets its own message, any other
      rejection the fallback. */
  lemma FetchForUserStatus<T>(
    p: Primitives, stored: Option<string>, server: Request -> Reply<T>, resource: string, fallback: string, userId: Value)
    requires IsTruthyText(stored) && UserIdFromToken(p, stored.value) == Ok(userId)
    requires server(UserRequest(stored.value, userId, resource)).Rejected?
    ensures var reply := server(UserRequest(stored.value, userId, resource));
      FetchForUser(p, stored, server, resource, fallback) == Thrown(Error(
        if reply.response.Some? && reply.response.value.status == 401 then UnauthorizedMessage
        else if reply.response.Some? && reply.response.value.status == 404 then NotFoundMessage
        else fallback))
  {
  }

  /** `getUserPoints`. */
  function GetUserPoints(p: Primitives, stored: Option<string>, server: Request -> Reply<int>): (r: Outcome<int>)
    ensures !IsTruthyText(stored) ==> r == Thrown(Error(NoTokenMessage))
    ensures r.Thrown? && IsTruthyText(stored) ==>
      r.error.Error? && r.error.message in {UnauthorizedMessage, NotFoundMessage, "Failed to fetch points"}
    // a token that does not decode: the fallback, and no request
    ensures IsTruthyText(stored) && UserIdFromToken(p, stored.value).Thrown? ==> r == Thrown(Error("Failed to fetch points"))
    // the answer for this user, or the message its status calls for
    ensures IsTruthyText(stored) && UserIdFromToken(p, stored.value).Ok? ==>
      var reply := server(UserRequest(stored.value, UserIdFromToken(p, stored.value).value, "points"));
      r == if reply.Received? then Ok(reply.data)
           else Thrown(Error(
             if reply.response.Some? && reply.response.value.status == 401 then UnauthorizedMessage
             else if reply.response.Some? && reply.response.value.status == 404 then NotFoundMessage
             else "Failed to fetch points"))
  {
    FetchForUser(p, stored, server, "points", "Failed to fetch points")
  }

  /** `getUserRewards`. */
  function GetUserRewards(p: Primitives, stored: Option<string>, server: Request -> Reply<seq<string>>)
    : (r: Outcome<seq<string>>)
    ensures !IsTruthyText(stored) ==> r == Thrown(Error(NoTokenMessage))
    ensures r.Thrown? && IsTruthyText(stored) ==>
      r.error.Error? && r.error.message in {UnauthorizedMessage, NotFoundMessage, "Failed to fetch rewards"}
    // a token that does not decode: the fallback, and no request
    ensures IsTruthyText(stored) && UserIdFromToken(p, stored.value).Thrown? ==> r == Thrown(Error("Failed to fetch rewards"))
    // the answer for this user, or the message its status calls for
    ensures IsTruthyText(stored) && UserIdFromToken(p, stored.value).Ok? ==>
      var reply := server(UserRequest(stored.value, UserIdFromToken(p, stored.value).value, "rewards"));
      r == if reply.Received? then Ok(reply.data)
           else Thrown(Error(
             if reply.response.Some? && reply.response.value.status == 401 then UnauthorizedMessage
             else if reply.response.Some? && reply.response.value.status == 404 then NotFoundMessage
             else "Failed to fetch rewards"))
  {
    FetchForUser(p, stored, server, "rewards", "Failed to fetch rewards")
  }
}
