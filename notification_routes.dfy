/** The notification routes: the caller's listing with its unread count,
    marking one or all as read, the admin announcement broadcast, and
    deleting one. Every single-notification operation is scoped to the
    caller's own notifications. */
module NotificationRoutes {
  import opened Collections
  import opened Text
  import opened Schemas
  import opened Database

  // -------------------------------------------------------------- listing

  /** The list query: the caller's notifications, unread ones only when
      `unreadOnly` is the string `true`. */
  predicate Listed(n: Notification, caller: Id, unreadOnly: string) {
    n.userId == caller && (unreadOnly == "true" ==> !n.isRead)
  }

  function ListSelector(caller: Id, unreadOnly: string): Notification -> bool {
    (n: Notification) => Listed(n, caller, unreadOnly)
  }

  function UnreadSelector(caller: Id): Notification -> bool {
    (n: Notification) => n.userId == caller && !n.isRead
  }

  /** The response body: one page and the caller's total unread count. */
  datatype NotificationPage = NotificationPage(listing: Listing<Notification>, unreadCount: nat)

  /** GET `/`. */
  function ListNotifications(users: seq<User>, notes: seq<Notification>, caller: Id, unreadOnly: string, page: int, limit: int): (r: Outcome<NotificationPage>)
    ensures r.Fail? <==> FindUser(users, caller).None? || SkipRefused(page, limit)
    ensures r.Fail? ==> r.code == (if FindUser(users, caller).None? then 401 else 500)
    ensures r.Ok? ==> forall i :: 0 <= i < |r.value.listing.items| ==>
      r.value.listing.items[i] in notes && Listed(r.value.listing.items[i], caller, unreadOnly)
    ensures r.Ok? ==> SortedDesc(r.value.listing.items, NotificationCreated)
    ensures r.Ok? ==> r.value.listing.total == |Filter(notes, ListSelector(caller, unreadOnly))|
    ensures r.Ok? ==> r.value.unreadCount == |Filter(notes, UnreadSelector(caller))|
    ensures r.Ok? ==> r.value.listing.pages == PageCount(r.value.listing.total, limit)
    ensures r.Ok? && limit != 0 ==> |r.value.listing.items| <= Abs(limit)
    ensures r.Ok? ==>
      && Skip(page, limit) >= 0
      && IsPage(r.value.listing.items, Filter(notes, ListSelector(caller, unreadOnly)), NotificationCreated, Skip(page, limit), Abs(limit))
  {
    if FindUser(users, caller).None? then
      Fail(401)
    else
      match Query(notes, ListSelector(caller, unreadOnly), NotificationCreated, page, limit)
      case None => Fail(500)
      case Some(l) => Ok(NotificationPage(l, |Filter(notes, UnreadSelector(caller))|))
  }

  /** The unread count is the same whatever page, limit or `unreadOnly` is asked for. */
  lemma UnreadCountIndependent(users: seq<User>, notes: seq<Notification>, caller: Id,
                               u1: string, p1: int, l1: int, u2: string, p2: int, l2: int)
    requires ListNotifications(users, notes, caller, u1, p1, l1).Ok?
    requires ListNotifications(users, notes, caller, u2, p2, l2).Ok?
    ensures ListNotifications(users, notes, caller, u1, p1, l1).value.unreadCount ==
            ListNotifications(users, notes, caller, u2, p2, l2).value.unreadCount
  {
  }

  // ------------------------------------------------------------ mark read

  /** The `{ _id: id, userId: caller }` filter of the single-notification routes. */
  predicate OwnedAt(notes: seq<Notification>, id: Id, caller: Id) {
    IndexOf(notes, id, NotificationKey).Some? && notes[IndexOf(notes, id, NotificationKey).value].userId == caller
  }

  /** PUT `/:id/read`. */
  method MarkRead(s: Store, caller: Id, id: Id, now: Timestamp) returns (code: int)
    requires s.Valid()
    modifies s
    ensures s.Valid()
    ensures s.users == old(s.users) && s.swaps == old(s.swaps) && s.reviews == old(s.reviews)
    ensures code == 401 <==> FindUser(old(s.users), caller).None?
    ensures code == 404 <==> FindUser(old(s.users), caller).Some? && !OwnedAt(old(s.notifications), id, caller)
    ensures code == 200 <==> FindUser(old(s.users), caller).Some? && OwnedAt(old(s.notifications), id, caller)
    ensures code != 200 ==> s.notifications == old(s.notifications)
    ensures code == 200 ==>
      var i := IndexOf(old(s.notifications), id, NotificationKey).value;
      s.notifications == old(s.notifications)[i := old(s.notifications)[i].(isRead := true, updatedAt := now)]
  {
    if FindUser(s.users, caller).None? {
      return 401;
    }
    var found := IndexOf(s.notifications, id, NotificationKey);
    if found.None? || s.notifications[found.value].userId != caller {
      return 404;
    }
    var i := found.value;
    s.ReplaceNotification(i, s.notifications[i].(isRead := true, updatedAt := now));
    return 200;
  }

  // ------------------------------------------------------------- read all

  /** `updateMany({ userId: caller, isRead: false }, { isRead: true })`; the
      schema's timestamps stamp every matched notification with `now`. */
  function ReadAllFor(notes: seq<Notification>, caller: Id, now: Timestamp): (r: seq<Notification>)
    ensures |r| == |notes|
  {
    seq(|notes|, i requires 0 <= i < |notes| =>
      if notes[i].userId == caller && !notes[i].isRead then notes[i].(isRead := true, updatedAt := now) else notes[i])
  }

  /** After read-all the caller has no unread notification, every other
      user's notification is untouched, and only `isRead` and `updatedAt`
      ever change, the latter only on the notifications marked now. */
  lemma ReadAllEffect(notes: seq<Notification>, caller: Id, now: Timestamp)
    ensures forall i :: 0 <= i < |notes| && notes[i].userId == caller ==> ReadAllFor(notes, caller, now)[i].isRead
    ensures forall i :: 0 <= i < |notes| && notes[i].userId != caller ==> ReadAllFor(notes, caller, now)[i] == notes[i]
    ensures forall i :: 0 <= i < |notes| ==>
      ReadAllFor(notes, caller, now)[i] == notes[i].(isRead := ReadAllFor(notes, caller, now)[i].isRead,
                                                     updatedAt := ReadAllFor(notes, caller, now)[i].updatedAt)
    ensures forall i :: 0 <= i < |notes| && notes[i].isRead ==> ReadAllFor(notes, caller, now)[i] == notes[i]
    ensures |Filter(ReadAllFor(notes, caller, now), UnreadSelector(caller))| == 0
  {
    var r := ReadAllFor(notes, caller, now);
    if |Filter(r, UnreadSelector(caller))| > 0 {
      var f := Filter(r, UnreadSelector(caller));
      InFilter(r, UnreadSelector(caller), f[0]);
      assert false;
    }
  }

  /** Reading all twice is reading all once: the second time, at whatever
      moment, matches nothing. */
  lemma ReadAllIdempotent(notes: seq<Notification>, caller: Id, now: Timestamp, later: Timestamp)
    ensures ReadAllFor(ReadAllFor(notes, caller, now), caller, later) == ReadAllFor(notes, caller, now)
  {
  }

  /** Flipping `isRead` keeps the notification collection valid. */
  lemma ReadAllKeepsTable(notes: seq<Notification>, caller: Id, now: Timestamp, bound: nat)
    requires Table(notes, NotificationKey, ValidNotification, bound)
    ensures Table(ReadAllFor(notes, caller, now), NotificationKey, ValidNotification, bound)
  {
    ReadAllEffect(notes, caller, now);
  }

  /** PUT `/read-all`. */
  method MarkAllRead(s: Store, caller: Id, now: Timestamp) returns (code: int)
    requires s.Valid()
    modifies s
    ensures s.Valid()
    ensures s.users == old(s.users) && s.swaps == old(s.swaps) && s.reviews == old(s.reviews)
    ensures code == 401 <==> FindUser(old(s.users), caller).None?
    ensures code != 401 ==> code == 200
    ensures code == 200 ==> s.notifications == ReadAllFor(old(s.notifications), caller, now)
    ensures code == 401 ==> s.notifications == old(s.notifications)
  {
    if FindUser(s.users, caller).None? {
      return 401;
    }
    ReadAllKeepsTable(s.notifications, caller, now, s.nextId);
    s.SetNotifications(ReadAllFor(s.notifications, caller, now));
    return 200;
  }

  // ------------------------------------------------------------ broadcast

  /** The audience of `sendTo`: non-admin users, only public ones for
      `active`, only private ones for `inactive`, all of them otherwise. */
  predicate InAudience(u: User, sendTo: string) {
    !u.isAdmin &&
    (sendTo == "active" ==> u.isPublic) &&
    (sendTo == "inactive" ==> !u.isPublic)
  }

  function AudienceSelector(sendTo: string): User -> bool {
    (u: User) => InAudience(u, sendTo)
  }

  /** The stored users an announcement goes to, in collection order. */
  function Audience(users: seq<User>, sendTo: string): (r: seq<User>)
    ensures forall i :: 0 <= i < |r| ==> r[i] in users && InAudience(r[i], sendTo)
    ensures forall i :: 0 <= i < |users| && InAudience(users[i], sendTo) ==> users[i] in r
  {
    Filter(users, AudienceSelector(sendTo))
  }

  /** The active and the inactive audiences split the default one. */
  lemma AudienceSplit(users: seq<User>)
    ensures |Audience(users, "active")| + |Audience(users, "inactive")| == |Audience(users, "all")|
  {
    var everyone := AudienceSelector("all");
    var active := AudienceSelector("active");
    var inactive := AudienceSelector("inactive");
    var pub := (u: User) => u.isPublic;
    var priv := (u: User) => !u.isPublic;
    FilterTwice(users, everyone, pub, active);
    FilterTwice(users, everyone, priv, inactive);
    FilterPartition(Filter(users, everyone), pub, priv);
  }

  /** One inserted announcement: addressed to `userId`, unread, with the given text. */
  predicate Announces(n: Notification, userId: Id, title: string, message: string) {
    n.userId == userId && n.ntype == NoteAdminAnnouncement && !n.isRead &&
    n.title == title && n.message == message
  }

  /** `insertMany` of one announcement per target, in target order. */
  method SendAll(s: Store, targets: seq<User>, title: string, message: string, now: Timestamp)
    requires s.Valid() && (|targets| > 0 ==> title != "" && message != "")
    modifies s
    ensures s.Valid()
    ensures s.users == old(s.users) && s.swaps == old(s.swaps) && s.reviews == old(s.reviews)
    ensures |s.notifications| == |old(s.notifications)| + |targets|
    ensures s.notifications[..|old(s.notifications)|] == old(s.notifications)
    ensures forall j :: 0 <= j < |targets| ==>
      Announces(s.notifications[|old(s.notifications)| + j], targets[j].id, title, message)
  {
    var k := 0;
    while k < |targets|
      invariant 0 <= k <= |targets|
      invariant s.Valid()
      invariant s.users == old(s.users) && s.swaps == old(s.swaps) && s.reviews == old(s.reviews)
      invariant |s.notifications| == |old(s.notifications)| + k
      invariant s.notifications[..|old(s.notifications)|] == old(s.notifications)
      invariant forall j :: 0 <= j < k ==>
        Announces(s.notifications[|old(s.notifications)| + j], targets[j].id, title, message)
    {
      var n := Notification(s.nextId, targets[k].id, NoteAdminAnnouncement, title, message, DefaultIsRead, NoData, "", now, now);
      s.InsertNotification(n);
      k := k + 1;
    }
  }

  /** POST `/admin/announcement`: one unread announcement per target and
      the number sent. With at least one target, an empty title or message
      fails validation and nothing is inserted. */
  method Broadcast(s: Store, caller: Id, title: string, message: string, sendTo: string, now: Timestamp)
    returns (code: int, sentCount: nat)
    requires s.Valid()
    modifies s
    ensures s.Valid()
    ensures s.users == old(s.users) && s.swaps == old(s.swaps) && s.reviews == old(s.reviews)
    ensures AdminGate(old(s.users), caller) != 200 ==> code == AdminGate(old(s.users), caller)
    ensures code == 500 <==> (AdminGate(old(s.users), caller) == 200 &&
      |Audience(old(s.users), sendTo)| > 0 && (title == "" || message == ""))
    ensures code == 200 <==> (AdminGate(old(s.users), caller) == 200 &&
      (|Audience(old(s.users), sendTo)| == 0 || (title != "" && message != "")))
    ensures code != 200 ==> s.notifications == old(s.notifications) && sentCount == 0
    ensures code == 200 ==> AdminGate(old(s.users), caller) == 200 && sentCount == |Audience(old(s.users), sendTo)|
    ensures code == 200 ==> (|s.notifications| == |old(s.notifications)| + sentCount &&
      s.notifications[..|old(s.notifications)|] == old(s.notifications))
    ensures code == 200 ==> forall j :: 0 <= j < sentCount ==>
      Announces(s.notifications[|old(s.notifications)| + j], Audience(old(s.users), sendTo)[j].id, title, message)
  {
    var gate := AdminGate(s.users, caller);
    if gate != 200 {
      return gate, 0;
    }
    var targets := Audience(s.users, sendTo);
    if |targets| > 0 && (title == "" || message == "") {
      return 500, 0;
    }
    SendAll(s, targets, title, message, now);
    return 200, |targets|;
  }

  // --------------------------------------------------------------- delete

  /** DELETE `/:id`. */
  method DeleteNotification(s: Store, caller: Id, id: Id) returns (code: int)
    requires s.Valid()
    modifies s
    ensures s.Valid()
    ensures s.users == old(s.users) && s.swaps == old(s.swaps) && s.reviews == old(s.reviews)
    ensures code == 401 <==> FindUser(old(s.users), caller).None?
    ensures code == 404 <==> FindUser(old(s.users), caller).Some? && !OwnedAt(old(s.notifications), id, caller)
    ensures code == 200 <==> FindUser(old(s.users), caller).Some? && OwnedAt(old(s.notifications), id, caller)
    ensures code != 200 ==> s.notifications == old(s.notifications)
    ensures code == 200 ==>
      s.notifications == RemoveAt(old(s.notifications), IndexOf(old(s.notifications), id, NotificationKey).value) &&
      IndexOf(s.notifications, id, NotificationKey).None?
  {
    if FindUser(s.users, caller).None? {
      return 401;
    }
    var found := IndexOf(s.notifications, id, NotificationKey);
    if found.None? || s.notifications[found.value].userId != caller {
      return 404;
    }
    RemoveFound(s.notifications, id, NotificationKey);
    s.RemoveNotification(found.value);
    return 200;
  }
}
