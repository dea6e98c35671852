/** The records exchanged by signup and login, and the session state. */
module AuthTypes {
  import opened Js

  /** The registration form. */
  datatype SignupRequest = SignupRequest(
    name: string,
    password: string,
    roles: string,
    following: seq<string>,
    followers: seq<string>)

  /** The login form. */
  datatype LoginRequest = LoginRequest(name: string, password: string)

  /** The user record held by the session. The declared type has an `id`
      field; login builds a record with `userId` instead, so both are kept,
      as JavaScript values (a missing one is `Undefined`). */
  datatype User = User(
    id: Value,
    userId: Value,
    name: Value,
    roles: Value,
    following: seq<string>,
    followers: seq<string>)

  /** What signup answers and what login returns: a bearer token and a user. */
  datatype AuthResponse = AuthResponse(token: string, user: User)
}
