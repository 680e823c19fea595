/** The database: the four collections held in one store, with the
    single-document operations the routes use (`save` of a new document,
    `save` or `findByIdAndUpdate` of an existing one, `findByIdAndDelete`).
    ObjectIds come from one counter, so every id is fresh across
    collections. */
module Database {
  import opened Collections
  import opened Text
  import opened Schemas

  /** The unique index on `email`. */
  ghost predicate UniqueEmails(us: seq<User>) {
    forall i, j :: 0 <= i < j < |us| ==> us[i].email != us[j].email
  }

  /** No stored user other than the one at position `except` has this email. */
  predicate EmailFree(us: seq<User>, email: string, except: int) {
    forall j :: 0 <= j < |us| && j != except ==> us[j].email != email
  }

  /** Under the unique index, a stored user's own email is free for them to keep. */
  lemma OwnEmailFree(us: seq<User>, k: nat)
    requires k < |us| && UniqueEmails(us)
    ensures EmailFree(us, us[k].email, k)
  {
    forall j | 0 <= j < |us| && j != k ensures us[j].email != us[k].email {
      if j < k {
        assert us[j].email != us[k].email;
      } else {
        assert us[k].email != us[j].email;
      }
    }
  }

  lemma RemoveKeepsEmails(us: seq<User>, i: nat)
    requires i < |us| && UniqueEmails(us)
    ensures UniqueEmails(RemoveAt(us, i))
  {
    var r := RemoveAt(us, i);
    forall a, b | 0 <= a < b < |r| ensures r[a].email != r[b].email {
      RemovedAt(us, i, a);
      RemovedAt(us, i, b);
    }
  }

  /** Saving a user whose email nobody has keeps the emails unique. */
  lemma AppendKeepsEmails(us: seq<User>, u: User)
    requires UniqueEmails(us) && EmailFree(us, u.email, -1)
    ensures UniqueEmails(us + [u])
  {
    var r := us + [u];
    forall a, b | 0 <= a < b < |r| ensures r[a].email != r[b].email {
      if b == |us| {
        assert r[a] == us[a];
      }
    }
  }

  /** Changing a user to an email only they have keeps the emails unique. */
  lemma ReplaceKeepsEmails(us: seq<User>, i: nat, u: User)
    requires i < |us| && UniqueEmails(us) && EmailFree(us, u.email, i)
    ensures UniqueEmails(us[i := u])
  {
    var r := us[i := u];
    forall a, b | 0 <= a < b < |r| ensures r[a].email != r[b].email {
      if a == i {
        assert r[b] == us[b];
      } else if b == i {
        assert r[a] == us[a];
      }
    }
  }

  /** A handler's answer: a body with status 200/201, or an error status. */
  datatype Outcome<T> = Ok(value: T) | Fail(code: int)

  /** `User.findById`. The `auth` middleware is this lookup on the decoded
      caller id: a caller that is no stored user gets 401. */
  function FindUser(users: seq<User>, id: Id): (r: Option<User>)
    ensures r.Some? ==> r.value in users && r.value.id == id
    ensures r.None? <==> forall i :: 0 <= i < |users| ==> users[i].id != id
  {
    match IndexOf(users, id, UserKey)
    case None => None
    case Some(i) => Some(users[i])
  }

  /** `adminAuth`: an authenticated caller who is not an admin gets 403. */
  function AdminGate(users: seq<User>, caller: Id): (code: int)
    ensures code == 401 <==> FindUser(users, caller).None?
    ensures code == 403 <==> FindUser(users, caller).Some? && !FindUser(users, caller).value.isAdmin
    ensures code == 200 <==> FindUser(users, caller).Some? && FindUser(users, caller).value.isAdmin
  {
    match FindUser(users, caller)
    case None => 401
    case Some(u) => if u.isAdmin then 200 else 403
  }

  /** The notification fields the routes fix: recipient, type, unread, payload. */
  predicate Notifies(n: Notification, userId: Id, t: NotificationType, data: NoticeData) {
    n.userId == userId && n.ntype == t && !n.isRead && n.data == data
  }

  /** The new notification is the one appended last, after all old ones. */
  predicate AppendedOne(before: seq<Notification>, after: seq<Notification>) {
    |after| == |before| + 1 && after[..|before|] == before
  }

  class Store {
    var users: seq<User>
    var swaps: seq<SwapRequest>
    var reviews: seq<Review>
    var notifications: seq<Notification>
    var nextId: nat
    /** bcrypt's hash, as an uninterpreted function of the clear text. */
    const hasher: string -> string

    /** What the schemas and indexes guarantee of the stored documents. */
    ghost predicate Valid()
      reads this
    {
      Table(users, UserKey, ValidUser, nextId) && UniqueEmails(users) &&
      Table(swaps, SwapKey, ValidSwap, nextId) &&
      Table(reviews, ReviewKey, ValidReview, nextId) &&
      Table(notifications, NotificationKey, ValidNotification, nextId)
    }

    constructor(hasher: string -> string)
      ensures Valid()
      ensures users == [] && swaps == [] && reviews == [] && notifications == []
      ensures nextId == 0 && this.hasher == hasher
    {
      this.hasher := hasher;
      users := [];
      swaps := [];
      reviews := [];
      notifications := [];
      nextId := 0;
    }

    /** Saving a new user document under the fresh id. */
    method InsertUser(u: User)
      requires Valid() && u.id == nextId && ValidUser(u) && EmailFree(users, u.email, -1)
      modifies this
      ensures Valid()
      ensures users == old(users) + [u] && nextId == old(nextId) + 1
      ensures swaps == old(swaps) && reviews == old(reviews) && notifications == old(notifications)
    {
      TableAppend(users, u, UserKey, ValidUser, nextId);
      AppendKeepsEmails(users, u);
      TableGrow(swaps, SwapKey, ValidSwap, nextId);
      TableGrow(reviews, ReviewKey, ValidReview, nextId);
      TableGrow(notifications, NotificationKey, ValidNotification, nextId);
      users := users + [u];
      nextId := nextId + 1;
    }

    /** Saving a changed user document over the one at position `i`. */
    method ReplaceUser(i: nat, u: User)
      requires Valid() && i < |users| && u.id == users[i].id && ValidUser(u)
      requires EmailFree(users, u.email, i)
      modifies this
      ensures Valid()
      ensures users == old(users)[i := u] && nextId == old(nextId)
      ensures swaps == old(swaps) && reviews == old(reviews) && notifications == old(notifications)
    {
      TableReplace(users, i, u, UserKey, ValidUser, nextId);
      ReplaceKeepsEmails(users, i, u);
      users := users[i := u];
    }

    method RemoveUser(i: nat)
      requires Valid() && i < |users|
      modifies this
      ensures Valid()
      ensures users == RemoveAt(old(users), i) && nextId == old(nextId)
      ensures swaps == old(swaps) && reviews == old(reviews) && notifications == old(notifications)
    {
      TableRemove(users, i, UserKey, ValidUser, nextId);
      RemoveKeepsEmails(users, i);
      users := RemoveAt(users, i);
    }

    method InsertSwap(w: SwapRequest)
      requires Valid() && w.id == nextId && ValidSwap(w)
      modifies this
      ensures Valid()
      ensures swaps == old(swaps) + [w] && nextId == old(nextId) + 1
      ensures users == old(users) && reviews == old(reviews) && notifications == old(notifications)
    {
      TableGrow(users, UserKey, ValidUser, nextId);
      TableAppend(swaps, w, SwapKey, ValidSwap, nextId);
      TableGrow(reviews, ReviewKey, ValidReview, nextId);
      TableGrow(notifications, NotificationKey, ValidNotification, nextId);
      swaps := swaps + [w];
      nextId := nextId + 1;
    }

    method ReplaceSwap(i: nat, w: SwapRequest)
      requires Valid() && i < |swaps| && w.id == swaps[i].id && ValidSwap(w)
      modifies this
      ensures Valid()
      ensures swaps == old(swaps)[i := w] && nextId == old(nextId)
      ensures users == old(users) && reviews == old(reviews) && notifications == old(notifications)
    {
      TableReplace(swaps, i, w, SwapKey, ValidSwap, nextId);
      swaps := swaps[i := w];
    }

    method RemoveSwap(i: nat)
      requires Valid() && i < |swaps|
      modifies this
      ensures Valid()
      ensures swaps == RemoveAt(old(swaps), i) && nextId == old(nextId)
      ensures users == old(users) && reviews == old(reviews) && notifications == old(notifications)
    {
      TableRemove(swaps, i, SwapKey, ValidSwap, nextId);
      swaps := RemoveAt(swaps, i);
    }

    method InsertReview(r: Review)
      requires Valid() && r.id == nextId && ValidReview(r)
      modifies this
      ensures Valid()
      ensures reviews == old(reviews) + [r] && nextId == old(nextId) + 1
      ensures users == old(users) && swaps == old(swaps) && notifications == old(notifications)
    {
      TableGrow(users, UserKey, ValidUser, nextId);
      TableGrow(swaps, SwapKey, ValidSwap, nextId);
      TableAppend(reviews, r, ReviewKey, ValidReview, nextId);
      TableGrow(notifications, NotificationKey, ValidNotification, nextId);
      reviews := reviews + [r];
      nextId := nextId + 1;
    }

    method InsertNotification(n: Notification)
      requires Valid() && n.id == nextId && ValidNotification(n)
      modifies this
      ensures Valid()
      ensures notifications == old(notifications) + [n] && nextId == old(nextId) + 1
      ensures users == old(users) && swaps == old(swaps) && reviews == old(reviews)
    {
      TableGrow(users, UserKey, ValidUser, nextId);
      TableGrow(swaps, SwapKey, ValidSwap, nextId);
      TableGrow(reviews, ReviewKey, ValidReview, nextId);
      TableAppend(notifications, n, NotificationKey, ValidNotification, nextId);
      notifications := notifications + [n];
      nextId := nextId + 1;
    }

    method ReplaceNotification(i: nat, n: Notification)
      requires Valid() && i < |notifications| && n.id == notifications[i].id && ValidNotification(n)
      modifies this
      ensures Valid()
      ensures notifications == old(notifications)[i := n] && nextId == old(nextId)
      ensures users == old(users) && swaps == old(swaps) && reviews == old(reviews)
    {
      TableReplace(notifications, i, n, NotificationKey, ValidNotification, nextId);
      notifications := notifications[i := n];
    }

    /** A bulk update of the notification collection that keeps its ids and schema. */
    method SetNotifications(ns: seq<Notification>)
      requires Valid() && Table(ns, NotificationKey, ValidNotification, nextId)
      modifies this
      ensures Valid()
      ensures notifications == ns && nextId == old(nextId)
      ensures users == old(users) && swaps == old(swaps) && reviews == old(reviews)
    {
      notifications := ns;
    }

    method RemoveNotification(i: nat)
      requires Valid() && i < |notifications|
      modifies this
      ensures Valid()
      ensures notifications == RemoveAt(old(notifications), i) && nextId == old(nextId)
      ensures users == old(users) && swaps == old(swaps) && reviews == old(reviews)
    {
      TableRemove(notifications, i, NotificationKey, ValidNotification, nextId);
      notifications := RemoveAt(notifications, i);
    }
  }
}
