/** Requests, server replies and thrown errors. The network is not modelled:
    every call site builds a `Request` and receives, from a transport function
    given as a parameter, the `Reply` the server would send. */
module Http {
  import opened Wrappers
  import opened Js
  import opened AuthTypes

  /** The base of every backend URL. */
  const ApiUrl: string := "http://localhost:8090/api/v1"

  datatype Verb = Get | Post | Put | Delete

  datatype Body =
    | NoBody
    | EmptyObject
    | Credentials(login: LoginRequest)
    | Registration(signup: SignupRequest)

  datatype Request = Request(verb: Verb, url: string, headers: map<string, string>, body: Body)

  /** `error.response`: the status and the parsed body of a non-2xx answer. */
  datatype Response = Response(status: int, data: Value)

  /** What axios settles with: the response body, or a rejection carrying the
      library's message and, when the server answered, its response. */
  datatype Reply<T> = Received(data: T) | Rejected(message: string, response: Option<Response>)

  /** The stage of the token-decoding chain that threw. */
  datatype DecodeStage =
    | MissingSegment   // `undefined.replace(...)`: a TypeError
    | InvalidBase64    // `atob`: an InvalidCharacterError
    | InvalidUtf8      // `decodeURIComponent`: a URIError
    | InvalidJson      // `JSON.parse`: a SyntaxError
    | NullPayload      // a property read on a null payload: a TypeError

  /** A thrown value. */
  datatype Failure =
    | AxiosError(message: string, response: Option<Response>)
    | Error(message: string)              // `new Error(message)` in the client's own code
    | DecodeError(stage: DecodeStage)
    | NonError(value: Value)              // a thrown value that is not an Error

  /** The settled result of an async client function: a value or a throw. */
  datatype Outcome<T> = Ok(value: T) | Thrown(error: Failure)

  /** `await axios...`: the reply, with a rejection turned into a thrown AxiosError. */
  function Await<T>(reply: Reply<T>): (r: Outcome<T>)
    ensures r.Ok? <==> reply.Received?
    ensures reply.Received? ==> r.value == reply.data
    ensures reply.Rejected? ==> r.error == AxiosError(reply.message, reply.response)
  {
    match reply
    case Received(data) => Ok(data)
    case Rejected(message, response) => Thrown(AxiosError(message, response))
  }

  /** `error.response?.data?.message` of an axios error. */
  function ServerMessage(response: Option<Response>): (m: Value)
    ensures response.None? ==> m == Undefined
  {
    match response
    case None => Undefined
    case Some(r) => OptionalProp(r.data, "message")
  }

  /** `new Error(v || fallback).message`: the text of a truthy value, else the fallback. */
  function ErrorText(v: Value, fallback: string): (m: string)
    ensures !Truthy(v) ==> m == fallback
    ensures v.Str? && Truthy(v) ==> m == v.s
  {
    if Truthy(v) then ToJsString(v) else fallback
  }

  /** The `Authorization` header of an authenticated request. */
  function Bearer(token: string): (h: map<string, string>)
    ensures h.Keys == {"Authorization"}
    ensures |h["Authorization"]| == 7 + |token| && h["Authorization"][7..] == token
    ensures h["Authorization"][..7] == "Bearer "
  {
    map["Authorization" := "Bearer " + token]
  }
}
