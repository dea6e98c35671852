/** The feed call and the feed store. */
module FeedService {
  import opened Wrappers
  import opened Js
  import opened Http

  datatype Post = Post(
    id: string,
    content: string,
    authorName: string,
    authorAvatar: string,
    imageUrl: Option<string>,
    createdAt: string,
    likes: int,
    comments: int)

  datatype FeedResponse = FeedResponse(posts: seq<Post>)

  const NoTokenMessage: string := "No authentication token found"
  const FeedFailedMessage: string := "Failed to fetch feed"

  function FeedRequest(token: string): Request {
    Request(Get, ApiUrl + "/feed", Bearer(token), NoBody)
  }

  /** `feedService.getFeed(token)`; `None` is a missing argument. The
      missing-token Error is not an axios error, so the catch block re-throws
      it as it is; a rejected request becomes an Error with the server's
      message, or a fixed one. */
  function GetFeed(token: Option<string>, server: Request -> Reply<FeedResponse>): (r: Outcome<FeedResponse>)
    ensures !IsTruthyText(token) ==> r == Thrown(Error(NoTokenMessage))
    ensures r.Ok? ==> IsTruthyText(token) && server(FeedRequest(token.value)) == Received(r.value)
    ensures IsTruthyText(token) && server(FeedRequest(token.value)).Received? ==>
      r == Ok(server(FeedRequest(token.value)).data)
    ensures IsTruthyText(token) && server(FeedRequest(token.value)).Rejected? ==>
      r == Thrown(Error(ErrorText(ServerMessage(server(FeedRequest(token.value)).response), FeedFailedMessage)))
    ensures r.Thrown? ==> r.error.Error?
  {
    if !IsTruthyText(token) then Thrown(Error(NoTokenMessage))
    else
      match Await(server(FeedRequest(token.value)))
      case Ok(data) => Ok(data)
      case Thrown(e) =>
        if e.AxiosError? then Thrown(Error(ErrorText(ServerMessage(e.response), FeedFailedMessage)))
        else Thrown(e)
  }

  /** A rejection without a server answer, or whose answer has no message,
      gets the fixed message. */
  lemma GetFeedWithoutServerMessage(token: string, server: Request -> Reply<FeedResponse>)
    requires token != "" && server(FeedRequest(token)).Rejected?
    requires !Truthy(ServerMessage(server(FeedRequest(token)).response))
    ensures GetFeed(Some(token), server) == Thrown(Error(FeedFailedMessage))
  {
  }
}

module FeedStore {
  import opened Wrappers
  import opened Http
  import opened FeedService

  /** `error instanceof Error ? error.message : 'Failed to fetch feed'` for
      what `getFeed` can throw. */
  function CaughtMessage(e: Failure): string
    requires !e.DecodeError?
  {
    match e
    case AxiosError(m, _) => m
    case Error(m) => m
    case NonError(_) => FeedFailedMessage
  }

  class Store {
    var posts: seq<Post>
    var loading: bool
    var error: Option<string>

    constructor ()
      ensures posts == [] && !loading && error == None
    {
      posts := [];
      loading := false;
      error := None;
    }

    /** The part of `fetchFeed` before the call: loading, no error, the old posts. */
    method BeginFetch()
      modifies this
      ensures loading && error == None && posts == old(posts)
    {
      loading := true;
      error := None;
    }

    /** The part of `fetchFeed` after the call settles: the posts of a
        response, or the old posts and the failure's message; loading ends
        in both cases. */
    method SettleFetch(response: Outcome<FeedResponse>)
      requires response.Thrown? ==> !response.error.DecodeError?
      modifies this
      ensures !loading
      ensures response.Ok? ==> posts == response.value.posts && error == old(error)
      ensures response.Thrown? ==> posts == old(posts) && error == Some(CaughtMessage(response.error))
    {
      if response.Ok? {
        posts := response.value.posts;
      } else {
        error := Some(CaughtMessage(response.error));
      }
      loading := false;
    }

    /** `fetchFeed`. It calls `getFeed()` without a token, so it always ends
        with the missing-token message, the old posts and loading off,
        whatever the server would have answered. */
    method FetchFeed(server: Request -> Reply<FeedResponse>)
      modifies this
      ensures !loading && posts == old(posts) && error == Some(NoTokenMessage)
    {
      BeginFetch();
      var response := GetFeed(None, server);
      SettleFetch(response);
    }
  }
}
