# Session, token and store logic of the trueshot browser client

This project is a Dafny model of the logic inside the trueshot web client, a
Vue/Pinia front end of a social and gamification backend. The model covers:

- **Session store** (`AuthStore.Store`). It holds the user, the bearer token
  and the `isAuthenticated` flag. The browser's `token` storage entry is a
  field of the class.
- **Token decoding** used by login and the rewards calls (`Jwt`). It
  concretely models:
  - taking the payload segment of a JWS Compact Serialization (section 7.1 of
    RFC 7515), in `Segments`;
  - the base64url-to-base64 translation (sections 5 and 4 of RFC 4648), in
    `Base64`;
  - `atob`, the forgiving-base64 decode of the HTML standard, also in
    `Base64`;
  - the `%hh` escaping of each decoded byte (section 2.1 of RFC 3986), in
    `Percent`.

  `decodeURIComponent` and `JSON.parse` are browser primitives. They enter the
  model as partial functions: the record `Jwt.Primitives`, passed as a
  parameter.
- **Login's user record** (`AuthService`). It is built from the claims with
  the fixed role `USER`.
- **Navigation guard** and the route table's `requiresAuth`/`requiresAdmin`
  flags (`Router`).
- **Notifications store** (`Notifications.Store`). It covers fetching, mark
  one read, mark all read and delete.
- **Points and rewards calls** (`Rewards`). They cover the token precondition,
  taking the user id out of the token, and the mapping from HTTP status to
  error message.
- **Feed call and feed store** (`FeedService`, `FeedStore`).

JavaScript values are `Js.Value`, with the language's truthiness, property
reads and string conversion. An async function ends in `Http.Outcome`: a value
or a thrown `Http.Failure`. No call goes over the network. Each call site builds
an `Http.Request`, and a transport function given as a parameter maps it to
the `Http.Reply` the server would send.

These are the behaviours of the code as written that the model keeps and proves:

- `fetchFeed` calls `getFeed()` without a token. So it always ends with "No
  authentication token found" (`FeedStore.Store.FetchFeed`).
- A failed notifications fetch leaves the store's `error` null. The catch
  block's parameter shadows the store's `error` ref
  (`Notifications.Store.FetchNotifications`).
- The guard does not translate base64url. A valid token whose payload holds
  `-` or `_` is sent to `/login` on `/admin` (`Router.GuardUrlCharacters`).
- The guard decides by the token's subject claim. `isAdmin` decides by the
  cached role, which login always sets to `USER`. So `isAdmin` is false after
  every login (`AuthStore.Store.Login`).
- The store's "No token received from login" branch is never taken after the
  service succeeds (`AuthStore.LoginOutcomeIsService`).

Other facts about the code that the model keeps:

- Only the token goes into the browser's storage. There is no `user` entry,
  so a reload restores the token but not the user.
- The guard reads the storage entry, not the session store.
- Login accepts only a bare-string token as the server's answer.
- The guard's admin check compares the token's subject claim with `admin`.
- Unlike the declared `AuthResponse` type, login's user has `userId` and no
  `id`.

## Model

| member | source | states |
|---|---|---|
| Segments.JoinSplit | src/services/auth.service.ts:9 | `split('.')` loses nothing: joining the pieces with `.` gives the token back |
| Segments.SplitPiecesFree | src/services/auth.service.ts:9 | no piece of `split('.')` contains a dot |
| Segments.SplitCount | src/services/auth.service.ts:9 | `split` yields one more piece than there are separators |
| Segments.SecondSegmentOf | src/services/auth.service.ts:9 | `split('.')[1]` of `header.payload.rest` is exactly the payload, whatever follows the second dot |
| Segments.SecondSegmentMissing | src/services/auth.service.ts:9 | the second segment is undefined exactly when the token has no dot |
| Base64.UrlToStandardAt | src/services/auth.service.ts:10 | the translation keeps the length, turns every `-` into `+` and every `_` into `/`, and keeps every other character |
| Base64.UrlToStandardOfUrlText | src/services/auth.service.ts:10 | the translation maps base64url text onto the base64 text of the same 6-bit values |
| Base64.DecodeEncodeValues | src/services/auth.service.ts:11 | the bit regrouping `atob` does inverts the RFC 4648 grouping of bytes into 6-bit values |
| Base64.AtobEncode | src/services/auth.service.ts:11 | `atob` accepts every padded base64 encoding and returns exactly the encoded bytes |
| Base64.AtobUrl | src/services/auth.service.ts:10-11 | translation then `atob` returns exactly the bytes of any unpadded base64url text |
| Base64.AtobRejectsUrlCharacters | src/router/index.ts:112 | `atob` throws on any text holding `-` or `_` |
| Base64.AtobRejectsLeftover | src/router/index.ts:112 | `atob` throws when, once whitespace is removed, one character is left over after the groups of four, padding included |
| Base64.AtobRejectsLengthOneMod4 | src/router/index.ts:112 | `atob` throws on a text without whitespace whose length is 1 mod 4, such as `undefined` |
| Percent.EscapeByteDigits | src/services/auth.service.ts:11-13 | each byte becomes `%` and exactly two lowercase hex digits, high nibble first |
| Percent.EscapeLength | src/services/auth.service.ts:11-13 | the escaped text is three characters per byte |
| Percent.UnescapeEscape | src/services/auth.service.ts:11-13 | percent-decoding the escaped text gives back exactly the bytes |
| Percent.EscapeInjective | src/services/auth.service.ts:11-13 | distinct byte strings escape to distinct text |
| Jwt.DecodePayload | src/services/auth.service.ts:8-15 | the decoding chain fails with a missing segment when the token has no dot, and every failure it raises is a decoding failure |
| Jwt.ParseJwt | src/services/auth.service.ts:7-20 | `parseJwt` never throws: it gives the parsed payload, or null when any step fails |
| Jwt.DecodePayloadOfCompact | src/services/auth.service.ts:9-15 | for every compact token `header.payload.signature`, `decodeURIComponent` gets exactly the escaped payload bytes |
| Jwt.ParseJwtWithoutDot | src/services/auth.service.ts:16-19 | a token without a dot decodes to null |
| AuthService.Signup | src/services/auth.service.ts:23-26 | the result is the server's data, exactly when the server answers; a rejected request is re-thrown as the same axios error |
| AuthService.Login | src/services/auth.service.ts:28-58 | a rejected request is re-thrown; a token decoding to a falsy value throws "Failed to decode token"; success returns the server's token unchanged with the user built from its claims |
| AuthService.LoginRoleIsUser | src/services/auth.service.ts:44-53 | every user login builds has role `USER` and empty following and followers lists |
| AuthService.LoginTokenNonEmpty | src/services/auth.service.ts:36-41 | a successful login always carries a non-empty token |
| AuthService.LoginFailsOnlyOnFalsyClaims | src/services/auth.service.ts:39-53 | once the server answers, login succeeds exactly when the decoded payload is truthy |
| AuthService.LoginAlice | src/services/auth.service.ts:28-53 | a compact token with claims `{sub: "alice", userId: "42"}` gives that token and user `{userId: "42", name: "alice", roles: "USER", following: [], followers: []}` |
| AuthStore.Store.constructor | src/stores/auth.ts:6-14 | the initial state takes the stored token, no user, and is authenticated exactly when the stored token is non-empty |
| AuthStore.Store.GetToken | src/stores/auth.ts:17-21 | the in-memory token when it is non-empty, otherwise the stored one; the result is non-empty iff one of them is |
| AuthStore.Store.IsAdmin | src/stores/auth.ts:22-26 | true iff there is a user whose role is exactly `ADMIN`; false without a user |
| AuthStore.Store.Signup | src/stores/auth.ts:30-49 | success sets user, token and the flag together and stores the token; any failure empties the session and storage and re-throws |
| AuthStore.Store.Login | src/stores/auth.ts:51-78 | success with a non-empty token sets the whole session and storage and leaves `isAdmin` false; a failure or an empty token empties session and storage and throws |
| AuthStore.Store.Logout | src/stores/auth.ts:80-86 | always the empty session with nothing stored, so a second logout changes nothing |
| AuthStore.LoginOutcomeIsService | src/stores/auth.ts:57-59 | the store's empty-token branch never fires: its login outcome is the service's |
| Router.RouteFlags | src/router/index.ts:18-97 | only `/admin` requires admin, and it also requires auth; `/`, `/signup`, `/login` are open; every other route requires auth |
| Router.Guard | src/router/index.ts:101-133 | one decision of three. No token on an auth route goes to `/login`. An unflagged route proceeds. On an admin route it proceeds iff the subject is exactly `admin`, goes to `/login` iff decoding threw, and otherwise to `/feed` |
| Router.GuardTokenWithoutDot | src/router/index.ts:112 | on `/admin` a token without a dot goes to `/login`, since `atob` gets `undefined` |
| Router.GuardUrlCharacters | src/router/index.ts:112 | on `/admin` a payload segment with `-` or `_` goes to `/login` |
| Router.GuardCompactToken | src/router/index.ts:109-125 | on `/admin` a compact token whose base64url payload text holds no `-` or `_` and whose payload parses to an object with subject `admin` proceeds, whatever its other claims (`userId`, `iat`, ...), and any other subject string goes to `/feed` |
| Notifications.MarkedReadChangesFirstOnly | src/stores/notifications.ts:68-71 | marking read sets `read` on the first notification with that id only; with no match the list is unchanged |
| Notifications.AllReadAt | src/stores/notifications.ts:93-95 | marking all read keeps the length and changes only each notification's `read`, to true |
| Notifications.AllReadIdempotent | src/stores/notifications.ts:93-95 | marking all read twice equals once |
| Notifications.WithoutMembers | src/stores/notifications.ts:110 | removal keeps exactly the notifications with another id |
| Notifications.WithoutConcat | src/stores/notifications.ts:110 | removal distributes over concatenation, so kept notifications stay in order |
| Notifications.WithoutAbsent | src/stores/notifications.ts:110 | removing an id that is not there changes nothing |
| Notifications.FindFirst | src/stores/notifications.ts:68 | finds the first position holding the id, or reports that none does |
| Notifications.Store.constructor | src/stores/notifications.ts:15-17 | an empty list, not loading, no error |
| Notifications.Store.AuthHeader | src/stores/notifications.ts:20-24 | a bearer header exactly when the session token is non-empty, no header otherwise |
| Notifications.Store.FetchNotifications | src/stores/notifications.ts:26-58 | Without a user id: the error is set, nothing else changes and no request is made. Otherwise loading ends false, the error stays null, and the list is the server's answer on success and unchanged on failure |
| Notifications.Store.MarkAsRead | src/stores/notifications.ts:60-76 | after the PUT succeeds the list is marked read at the first match; a failure leaves it and re-throws |
| Notifications.Store.MarkAllAsRead | src/stores/notifications.ts:78-100 | without a user id nothing changes; after the PUT succeeds all are read; a failure leaves the list and re-throws |
| Notifications.Store.DeleteNotification | src/stores/notifications.ts:102-115 | after the DELETE succeeds the notifications with that id are removed; a failure leaves the list and re-throws |
| Rewards.UserIdFromToken | src/services/reward.service.ts:6-17 | succeeds exactly when the payload decodes to a non-null value, giving its `userId` claim; otherwise a decoding failure |
| Rewards.UserIdOfCompact | src/services/reward.service.ts:8-16 | for a compact token whose payload parses to an object with `userId`, that claim is the user id |
| Rewards.Classify | src/services/reward.service.ts:42-51 | 401 gives "Invalid or missing token", 404 gives "User not found", anything else the fallback |
| Rewards.FetchForUser | src/services/reward.service.ts:20-52 | no token throws "No authentication token found"; an undecodable token throws the fallback; success happens only on the server's answer to `/auth/{userId}/{resource}` with the bearer header, and every such answer is returned as it is; every later failure is one of three messages |
| Rewards.FetchForUserStatus | src/services/reward.service.ts:45-50 | a rejected request gets the 401 message, the 404 message or the fallback, by status |
| Rewards.GetUserPoints | src/services/reward.service.ts:20-52 | no token throws "No authentication token found". A token that does not decode throws "Failed to fetch points" and makes no request. For a decodable token, the server's answer to `/auth/{userId}/points` is returned as it is, and a rejection throws "Invalid or missing token" on 401, "User not found" on 404 and otherwise "Failed to fetch points" |
| Rewards.GetUserRewards | src/services/reward.service.ts:54-86 | no token throws "No authentication token found". A token that does not decode throws "Failed to fetch rewards" and makes no request. For a decodable token, the server's answer to `/auth/{userId}/rewards` is returned as it is, and a rejection throws "Invalid or missing token" on 401, "User not found" on 404 and otherwise "Failed to fetch rewards" |
| FeedService.GetFeed | src/services/feed.service.ts:7-27 | No token re-throws "No authentication token found". A received answer is returned as it is, and only then does it succeed. A rejection becomes an Error with the server's message or "Failed to fetch feed". Only Errors are thrown |
| FeedService.GetFeedWithoutServerMessage | src/services/feed.service.ts:22-24 | a rejection without a server message gives "Failed to fetch feed" |
| FeedStore.Store.constructor | src/stores/feed.ts:12-16 | no posts, not loading, no error |
| FeedStore.Store.BeginFetch | src/stores/feed.ts:20-21 | before the call: loading, no error, posts unchanged |
| FeedStore.Store.SettleFetch | src/stores/feed.ts:22-29 | loading ends false; on success the posts are the response's; on failure the posts are kept and the error is the thrown Error's message |
| FeedStore.Store.FetchFeed | src/stores/feed.ts:19-30 | always ends not loading, posts unchanged, error "No authentication token found" |

## Left out

- Network I/O. Every axios call is replaced by a transport parameter from request to reply. Timing, retries and cancellation are not modelled.
- `decodeURIComponent` and `JSON.parse` are parameters (`Jwt.Primitives`). UTF-8 decoding and JSON syntax are not modelled.
- The browser's storage is the single field `AuthStore.Store.stored`. Writes by other tabs are not modelled. `getToken`'s fallback to storage is modelled.
- JavaScript numbers are integers in `Js.Value`. Fractional claim values are not represented.
- `Js.Prop` covers only the property names the client reads (`sub`, `userId`, `message`) and the one inherited method among them, `String.prototype.sub`.
- Signup's response is taken to have a string `token`. Login's server body is taken to be a string. An object body fails in `split` and ends in the same "Failed to decode token".
- Async interleaving: two overlapping login calls racing, or a view reading the store between steps. For the feed store, the states before and after the `await` are exposed by `BeginFetch` and `SettleFetch`. The other stores are modelled one call at a time.
- `console.log` and `console.error` have no effect on behaviour and are left out.
- The property that `fetchNotifications`'s catch block writes onto the caught error object is left out. Only the store's state is modelled.
- Vue and Pinia reactivity, the router's history and lazy component loading, and all views are left out.
- The group, notification and challenge service wrappers are not part of this model. Nor are the reward and post type declarations beyond the `Post` and `FeedResponse` records.
- FeedStore.SettleFetch: its requires excludes decoding failures. `getFeed` never throws one (`FeedService.GetFeed` proves it throws only Errors).
- Rewards.Classify: its requires limits it to axios and decoding failures. Those are the only failures the try block of the reward calls can raise.
