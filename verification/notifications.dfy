/** The notifications store: the list of the user's notifications, a
    loading flag and an error text, updated after each backend call
    succeeds. It reads the user and token of the session store. */
module Notifications {
  import opened Wrappers
  import opened Js
  import opened AuthTypes
  import opened Http
  import AuthStore

  datatype Notification = Notification(id: int, userId: string, message: string, timestamp: string, read: bool)

  /** The list after the first notification with `id` is marked read. */
  function MarkedRead(ns: seq<Notification>, id: int): seq<Notification>
    decreases |ns|
  {
    if ns == [] then []
    else if ns[0].id == id then [ns[0].(read := true)] + ns[1..]
    else [ns[0]] + MarkedRead(ns[1..], id)
  }

  /** `k` is where `ns.find(n => n.id === id)` stops. */
  ghost predicate IsFirst(ns: seq<Notification>, id: int, k: int) {
    0 <= k < |ns| && ns[k].id == id && forall j :: 0 <= j < k ==> ns[j].id != id
  }

  /** Marking read changes the first match only, and only its flag; with no
      match the list is unchanged. */
  lemma {:induction false} MarkedReadChangesFirstOnly(ns: seq<Notification>, id: int, k: int)
    ensures IsFirst(ns, id, k) ==> MarkedRead(ns, id) == ns[k := ns[k].(read := true)]
    ensures (forall j :: 0 <= j < |ns| ==> ns[j].id != id) ==> MarkedRead(ns, id) == ns
    decreases |ns|
  {
    if ns != [] {
      MarkedReadChangesFirstOnly(ns[1..], id, k - 1);
      if ns[0].id != id {
        assert IsFirst(ns, id, k) ==> IsFirst(ns[1..], id, k - 1);
        assert [ns[0]] + ns[1..] == ns;
      }
    }
  }

  /** Every notification marked read, every other field kept. */
  function AllRead(ns: seq<Notification>): seq<Notification>
    decreases |ns|
  {
    if ns == [] then [] else [ns[0].(read := true)] + AllRead(ns[1..])
  }

  lemma {:induction false} AllReadAt(ns: seq<Notification>)
    ensures |AllRead(ns)| == |ns|
    ensures forall i :: 0 <= i < |ns| ==> AllRead(ns)[i] == ns[i].(read := true)
    decreases |ns|
  {
    if ns != [] {
      AllReadAt(ns[1..]);
    }
  }

  /** Marking all read twice is marking all read once. */
  lemma AllReadIdempotent(ns: seq<Notification>)
    ensures AllRead(AllRead(ns)) == AllRead(ns)
  {
    AllReadAt(ns);
    AllReadAt(AllRead(ns));
  }

  /** `ns.filter(n => n.id !== id)`. */
  function Without(ns: seq<Notification>, id: int): seq<Notification>
    decreases |ns|
  {
    if ns == [] then []
    else if ns[0].id == id then Without(ns[1..], id)
    else [ns[0]] + Without(ns[1..], id)
  }

  /** Removal keeps exactly the notifications with another id. */
  lemma {:induction false} WithoutMembers(ns: seq<Notification>, id: int)
    ensures forall n :: n in Without(ns, id) <==> n in ns && n.id != id
    decreases |ns|
  {
    if ns != [] {
      WithoutMembers(ns[1..], id);
      assert ns == [ns[0]] + ns[1..];
    }
  }

  /** Removal works piece by piece, so the kept notifications stay in their
      original order. */
  lemma {:induction false} WithoutConcat(a: seq<Notification>, b: seq<Notification>, id: int)
    ensures Without(a + b, id) == Without(a, id) + Without(b, id)
    decreases |a|
  {
    if a != [] {
      WithoutConcat(a[1..], b, id);
      assert (a + b)[1..] == a[1..] + b;
    } else {
      assert a + b == b;
    }
  }

  /** Removal is the identity on a list without that id. */
  lemma {:induction false} WithoutAbsent(ns: seq<Notification>, id: int)
    requires forall j :: 0 <= j < |ns| ==> ns[j].id != id
    ensures Without(ns, id) == ns
    decreases |ns|
  {
    if ns != [] {
      WithoutAbsent(ns[1..], id);
      assert [ns[0]] + ns[1..] == ns;
    }
  }

  /** `ns.find(n => n.id === id)`, as a position. */
  method FindFirst(ns: seq<Notification>, id: int) returns (k: Option<nat>)
    ensures k.Some? ==> IsFirst(ns, id, k.value)
    ensures k.None? ==> forall j :: 0 <= j < |ns| ==> ns[j].id != id
  {
    var i := 0;
    while i < |ns|
      invariant 0 <= i <= |ns|
      invariant forall j :: 0 <= j < i ==> ns[j].id != id
    {
      if ns[i].id == id {
        return Some(i);
      }
      i := i + 1;
    }
    return None;
  }

  const ApiNotifications: string := ApiUrl + "/notifications"

  class Store {
    const auth: AuthStore.Store
    var notifications: seq<Notification>
    var loading: bool
    var error: Option<string>

    constructor (auth: AuthStore.Store)
      ensures this.auth == auth && notifications == [] && !loading && error == None
    {
      this.auth := auth;
      notifications := [];
      loading := false;
      error := None;
    }

    /** `getAuthHeader`: a bearer header for a non-empty session token, no
        header otherwise. */
    function AuthHeader(): (h: map<string, string>)
      reads this, auth
      ensures "Authorization" in h <==> IsTruthyText(auth.token)
      ensures h.Keys <= {"Authorization"}
      ensures IsTruthyText(auth.token) ==> h == Bearer(auth.token.value)
    {
      if IsTruthyText(auth.token) then Bearer(auth.token.value) else map[]
    }

    /** The session user's `userId`, when the user exists and it is truthy. */
    function UserId(): (u: Option<Value>)
      reads this, auth
      ensures u.Some? ==> Truthy(u.value)
    {
      if auth.user.Some? && Truthy(auth.user.value.userId) then Some(auth.user.value.userId) else None
    }

    /** `fetchNotifications`. Without a user id it only records the error
        and makes no request. Otherwise the list becomes the server's answer
        on success, and `loading` ends false; a failure leaves the list and
        leaves `error` null, because the catch block writes to its own
        parameter, which shadows the store's `error`. */
    method FetchNotifications(server: Request -> Reply<seq<Notification>>)
      modifies this
      ensures UserId().None? ==>
        && error == Some("User not authenticated")
        && notifications == old(notifications) && loading == old(loading)
      ensures UserId().Some? ==>
        var reply := server(Request(Get, ApiNotifications + "/user/" + ToJsString(UserId().value), AuthHeader(), NoBody));
        && !loading && error == None
        && notifications == (if reply.Received? then reply.data else old(notifications))
    {
      var userId := UserId();
      if userId.None? {
        error := Some("User not authenticated");
        return;
      }
      loading := true;
      error := None;
      var url := ApiNotifications + "/user/" + ToJsString(userId.value);
      var response := Await(server(Request(Get, url, AuthHeader(), NoBody)));
      if response.Ok? {
        notifications := response.value;
      }
      loading := false;
    }

    /** `markAsRead`: after the server accepts, the first notification with
        that id is marked read; a failure changes nothing and is re-thrown. */
    method MarkAsRead(id: int, server: Request -> Reply<Value>) returns (r: Outcome<()>)
      modifies this
      ensures var reply := server(Request(Put, ApiNotifications + "/" + Decimal(id) + "/read", AuthHeader(), EmptyObject));
        && (reply.Received? ==> r == Ok(()) && notifications == MarkedRead(old(notifications), id))
        && (reply.Rejected? ==> r == Thrown(AxiosError(reply.message, reply.response)) && notifications == old(notifications))
      ensures loading == old(loading) && error == old(error)
    {
      var url := ApiNotifications + "/" + Decimal(id) + "/read";
      var response := Await(server(Request(Put, url, AuthHeader(), EmptyObject)));
      if response.Thrown? {
        return Thrown(response.error);
      }
      var k := FindFirst(notifications, id);
      MarkedReadChangesFirstOnly(notifications, id, k.GetOr(0));
      if k.Some? {
        notifications := notifications[k.value := notifications[k.value].(read := true)];
      }
      r := Ok(());
    }

    /** `markAllAsRead`: without a user id nothing happens; after the server
        accepts, every notification is marked read; a failure changes nothing
        and is re-thrown. */
    method MarkAllAsRead(server: Request -> Reply<Value>) returns (r: Outcome<()>)
      modifies this
      ensures UserId().None? ==> r == Ok(()) && notifications == old(notifications)
      ensures UserId().Some? ==>
        var reply := server(Request(Put, ApiNotifications + "/user/" + ToJsString(UserId().value) + "/read", AuthHeader(), EmptyObject));
        && (reply.Received? ==> r == Ok(()) && notifications == AllRead(old(notifications)))
        && (reply.Rejected? ==> r == Thrown(AxiosError(reply.message, reply.response)) && notifications == old(notifications))
      ensures loading == old(loading) && error == old(error)
    {
      var userId := UserId();
      if userId.None? {
        return Ok(());
      }
      var url := ApiNotifications + "/user/" + ToJsString(userId.value) + "/read";
      var response := Await(server(Request(Put, url, AuthHeader(), EmptyObject)));
      if response.Thrown? {
        return Thrown(response.error);
      }
      AllReadAt(notifications);
      var i := 0;
      while i < |notifications|
        invariant 0 <= i <= |notifications| == |old(notifications)|
        invariant forall j :: 0 <= j < i ==> notifications[j] == old(notifications)[j].(read := true)
        invariant forall j :: i <= j < |notifications| ==> notifications[j] == old(notifications)[j]
        invariant loading == old(loading) && error == old(error)
      {
        notifications := notifications[i := notifications[i].(read := true)];
        i := i + 1;
      }
      r := Ok(());
    }

    /** `deleteNotification`: after the server accepts, every notification
        with that id is gone and the others keep their order; a failure
        changes nothing and is re-thrown. */
    method DeleteNotification(id: int, server: Request -> Reply<Value>) returns (r: Outcome<()>)
      modifies this
      ensures var reply := server(Request(Delete, ApiNotifications + "/" + Decimal(id), AuthHeader(), NoBody));
        && (reply.Received? ==> r == Ok(()) && notifications == Without(old(notifications), id))
        && (reply.Rejected? ==> r == Thrown(AxiosError(reply.message, reply.response)) && notifications == old(notifications))
      ensures loading == old(loading) && error == old(error)
    {
      var url := ApiNotifications + "/" + Decimal(id);
      var response := Await(server(Request(Delete, url, AuthHeader(), NoBody)));
      if response.Thrown? {
        return Thrown(response.error);
      }
      notifications := Without(notifications, id);
      r := Ok(());
    }
  }
}
