/** The route table's access flags and the navigation guard run before every
    navigation. The guard reads only the token in the browser's storage and
    the target's flags; the session store plays no part in its decision. */
module Router {
  import opened Wrappers
  import opened Js
  import opened Segments
  import opened Base64
  import opened Jwt

  /** A route's `meta`; a flag the route does not set is false. */
  datatype Meta = Meta(requiresAuth: bool, requiresAdmin: bool)

  datatype Route = Route(path: string, name: string, meta: Meta)

  const Open: Meta := Meta(false, false)
  const Protected: Meta := Meta(true, false)
  const AdminOnly: Meta := Meta(true, true)

  const Routes: seq<Route> := [
    Route("/", "welcome", Open),
    Route("/home", "home", Protected),
    Route("/about", "about", Protected),
    Route("/signup", "signup", Open),
    Route("/login", "login", Open),
    Route("/feed", "feed", Protected),
    Route("/create-post", "create-post", Protected),
    Route("/posts", "posts", Protected),
    Route("/calendar", "calendar", Protected),
    Route("/notifications", "notifications", Protected),
    Route("/group/:id", "group-details", Protected),
    Route("/admin", "admin", AdminOnly),
    Route("/rewards", "rewards", Protected)
  ]

  /** Only `/admin` needs the admin check, and it needs a token as well;
      `/`, `/signup` and `/login` are open and every other route needs a token. */
  lemma RouteFlags()
    ensures forall r :: r in Routes ==> (r.meta.requiresAdmin <==> r.path == "/admin")
    ensures forall r :: r in Routes ==> (r.meta.requiresAdmin ==> r.meta.requiresAuth)
    ensures forall r :: r in Routes ==> (!r.meta.requiresAuth <==> r.path in {"/", "/signup", "/login"})
  {
  }

  /** The argument of `next`: go on, or go elsewhere. */
  datatype Next = Proceed | RedirectTo(path: string)

  /** `JSON.parse(atob(token!.split('.')[1])).sub`: `None` when any step
      throws. No base64url translation and no UTF-8 decoding is done here,
      and a missing segment reaches `atob` as the text `undefined`. */
  function AdminSubject(p: Primitives, token: Option<string>): Option<Value> {
    match token
    case None => None
    case Some(t) =>
      match Atob(SecondSegment(t, '.').GetOr("undefined"))
      case None => None
      case Some(bytes) =>
        match p.parseJson(BinaryString(bytes))
        case None => None
        case Some(data) => Prop(data, "sub")
  }

  /** The `beforeEach` guard: exactly one decision per navigation, and it
      never throws. */
  function Guard(p: Primitives, meta: Meta, stored: Option<string>): (n: Next)
    ensures n == Proceed || n == RedirectTo("/login") || n == RedirectTo("/feed")
    // no token on a protected route: to the login page, whatever the admin flag says
    ensures meta.requiresAuth && !IsTruthyText(stored) ==> n == RedirectTo("/login")
    // no admin flag and no missing token: go on
    ensures !meta.requiresAdmin && (!meta.requiresAuth || IsTruthyText(stored)) ==> n == Proceed
    // the admin check: go on iff the subject is exactly "admin", to the login
    // page iff decoding threw, and to the feed otherwise
    ensures meta.requiresAdmin && (!meta.requiresAuth || IsTruthyText(stored)) ==>
      && (n == Proceed <==> AdminSubject(p, stored) == Some(Str("admin")))
      && (n == RedirectTo("/login") <==> AdminSubject(p, stored).None?)
  {
    if meta.requiresAuth && !IsTruthyText(stored) then RedirectTo("/login")
    else if meta.requiresAdmin then
      match AdminSubject(p, stored)
      case None => RedirectTo("/login")
      case Some(sub) => if sub == Str("admin") then Proceed else RedirectTo("/feed")
    else Proceed
  }

  /** On the admin route, a token without a dot sends the user to the login
      page: `atob` is then given `undefined`, nine characters, and throws. */
  lemma GuardTokenWithoutDot(p: Primitives, t: string)
    requires '.' !in t
    ensures Guard(p, AdminOnly, Some(t)) == RedirectTo("/login")
  {
    SecondSegmentMissing(t, '.');
    AtobRejectsLengthOneMod4("undefined");
  }

  /** On the admin route, a token whose payload segment holds a base64url
      character `-` or `_` sends the user to the login page, even when the
      token is valid, because the guard does not translate the alphabet. */
  lemma GuardUrlCharacters(p: Primitives, t: string, segment: string)
    requires SecondSegment(t, '.') == Some(segment)
    requires '-' in segment || '_' in segment
    ensures Guard(p, AdminOnly, Some(t)) == RedirectTo("/login")
  {
    AtobRejectsUrlCharacters(segment);
  }

  /** On the admin route, a compact token whose base64url payload text holds
      no `-` or `_` (the guard does not translate them) and whose payload
      parses to an object with subject `admin`, whatever its other claims,
      proceeds; with any other subject string it goes to the feed. */
  lemma GuardCompactToken(
    p: Primitives, header: string, payload: seq<byte>, signature: string,
    claims: map<string, Value>, sub: string)
    requires '.' !in header
    requires '-' !in EncodeUrl(payload) && '_' !in EncodeUrl(payload)
    requires p.parseJson(BinaryString(payload)) == Some(Object(claims))
    requires "sub" in claims && claims["sub"] == Str(sub)
    ensures Guard(p, AdminOnly, Some(Compact(header, payload, signature)))
      == if sub == "admin" then Proceed else RedirectTo("/feed")
  {
    var token := Compact(header, payload, signature);
    var segment := EncodeUrl(payload);
    EncodeUrlHasNoDot(payload);
    assert token == header + ['.'] + segment + ("." + signature);
    SecondSegmentOf(header, segment, "." + signature, '.');
    UrlToStandardAt(segment);
    assert UrlToStandard(segment) == segment;
    AtobUrl(payload);
  }
}
