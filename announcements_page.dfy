/** The admin's announcement page: it sends a notice to every user in the
    chosen audience and keeps a history of what was sent. */
module AnnouncementsPage {
  import opened Collections
  import opened Text
  import opened Schemas
  import NotificationRoutes
  import UserRoutes

  /** A user as the page sees them. */
  datatype Recipient = Recipient(id: Id, isAdmin: bool, isPublic: bool)

  /** The audience drop-down: `all`, `active` (public) or `inactive`. */
  datatype SendTo = Everyone | ActiveOnly | InactiveOnly

  /** A history entry. Its id and time are both the clock reading `now`. */
  datatype Announcement = Announcement(id: nat, title: string, message: string, createdAt: Timestamp, sentTo: SendTo, sentCount: nat)

  /** A `createNotification` call. */
  datatype Notice = Notice(userId: Id, ntype: NotificationType, title: string, message: string, isRead: bool)

  predicate InAudience(u: Recipient, to: SendTo) {
    !u.isAdmin &&
    match to
    case Everyone => true
    case ActiveOnly => u.isPublic
    case InactiveOnly => !u.isPublic
  }

  /** The users an announcement goes to, in list order. */
  function Targets(users: seq<Recipient>, to: SendTo): (r: seq<Recipient>)
    ensures forall u :: u in r <==> u in users && InAudience(u, to)
  {
    var nonAdmins := Filter(users, (u: Recipient) => !u.isAdmin);
    var r := match to
      case Everyone => nonAdmins
      case ActiveOnly => Filter(nonAdmins, (u: Recipient) => u.isPublic)
      case InactiveOnly => Filter(nonAdmins, (u: Recipient) => !u.isPublic);
    assert forall u :: u in nonAdmins <==> u in users && !u.isAdmin by {
      forall u | u in users && !u.isAdmin ensures u in nonAdmins {
        var i :| 0 <= i < |users| && users[i] == u;
      }
    }
    assert forall u :: u in r <==> u in users && InAudience(u, to) by {
      forall u | u in nonAdmins && InAudience(u, to) ensures u in r {
        var i :| 0 <= i < |nonAdmins| && nonAdmins[i] == u;
      }
    }
    r
  }

  /** One unread announcement notice per target, in target order. */
  function Announce(targets: seq<Recipient>, title: string, message: string): (ns: seq<Notice>)
    ensures |ns| == |targets|
    ensures forall i :: 0 <= i < |ns| ==> ns[i] == Notice(targets[i].id, NoteAdminAnnouncement, title, message, false)
  {
    if targets == [] then []
    else [Notice(targets[0].id, NoteAdminAnnouncement, title, message, false)] + Announce(targets[1..], title, message)
  }

  /** One more target, one more notice at the end. */
  lemma AnnounceNext(targets: seq<Recipient>, i: nat, title: string, message: string)
    requires i < |targets|
    ensures Announce(targets[..i + 1], title, message) ==
      Announce(targets[..i], title, message) + [Notice(targets[i].id, NoteAdminAnnouncement, title, message, false)]
  {
    var a := Announce(targets[..i + 1], title, message);
    var b := Announce(targets[..i], title, message) + [Notice(targets[i].id, NoteAdminAnnouncement, title, message, false)];
    assert |a| == |b|;
    forall k | 0 <= k < |a| ensures a[k] == b[k] {
      if k < i {
        assert targets[..i + 1][k] == targets[..i][k];
      }
    }
  }

  datatype Counts = Counts(all: nat, active: nat, inactive: nat)

  /** `getUserCounts`: the non-admin users, and how many of them are public
      and private. */
  function UserCounts(users: seq<Recipient>): (c: Counts)
    ensures c.all == c.active + c.inactive
    ensures c.all == |Targets(users, Everyone)| && c.active == |Targets(users, ActiveOnly)|
    ensures c.inactive == |Targets(users, InactiveOnly)|
  {
    var nonAdmins := Filter(users, (u: Recipient) => !u.isAdmin);
    FilterPartition(nonAdmins, (u: Recipient) => u.isPublic, (u: Recipient) => !u.isPublic);
    Counts(|nonAdmins|, |Filter(nonAdmins, (u: Recipient) => u.isPublic)|, |Filter(nonAdmins, (u: Recipient) => !u.isPublic)|)
  }

  /** The page's state: the users, the history, the form and the notices
      issued so far. */
  class AnnouncementsPanel {
    const users: seq<Recipient>
    var announcements: seq<Announcement>
    var title: string
    var message: string
    var sendTo: SendTo
    var showCreateForm: bool
    var sent: seq<Notice>

    constructor(users: seq<Recipient>, stored: seq<Announcement>)
      ensures this.users == users && announcements == stored && sent == []
      ensures title == "" && message == "" && sendTo == Everyone && !showCreateForm
    {
      this.users := users;
      announcements := stored;
      title := "";
      message := "";
      sendTo := Everyone;
      showCreateForm := false;
      sent := [];
    }

    /** `handleSendAnnouncement`. A blank title or message does nothing.
        Otherwise every target gets the untrimmed title and message, the
        record is put first in the history and the form is reset. */
    method HandleSendAnnouncement(now: Timestamp)
      modifies this
      ensures IsBlank(old(title)) || IsBlank(old(message)) ==>
        sent == old(sent) && announcements == old(announcements) &&
        title == old(title) && message == old(message) && sendTo == old(sendTo) && showCreateForm == old(showCreateForm)
      ensures !IsBlank(old(title)) && !IsBlank(old(message)) ==>
        var targets := Targets(users, old(sendTo));
        sent == old(sent) + Announce(targets, old(title), old(message)) &&
        announcements == [Announcement(now, old(title), old(message), now, old(sendTo), |targets|)] + old(announcements) &&
        title == "" && message == "" && sendTo == Everyone && !showCreateForm
    {
      if IsBlank(title) || IsBlank(message) {
        return;
      }
      var targets := Targets(users, sendTo);
      Issue(targets, title, message);
      Record(now, |targets|);
    }

    /** The history entry goes first and the form is reset. */
    method Record(now: Timestamp, sentCount: nat)
      modifies this
      ensures announcements == [Announcement(now, old(title), old(message), now, old(sendTo), sentCount)] + old(announcements)
      ensures title == "" && message == "" && sendTo == Everyone && !showCreateForm && sent == old(sent)
    {
      announcements := [Announcement(now, title, message, now, sendTo, sentCount)] + announcements;
      title := "";
      message := "";
      sendTo := Everyone;
      showCreateForm := false;
    }

    /** The `forEach` over the targets: one `createNotification` each. */
    method Issue(targets: seq<Recipient>, title: string, message: string)
      modifies this
      ensures sent == old(sent) + Announce(targets, title, message)
      ensures announcements == old(announcements) && this.title == old(this.title) && this.message == old(this.message)
      ensures sendTo == old(sendTo) && showCreateForm == old(showCreateForm)
    {
      var i := 0;
      while i < |targets|
        invariant 0 <= i <= |targets|
        invariant sent == old(sent) + Announce(targets[..i], title, message)
        invariant announcements == old(announcements) && this.title == old(this.title) && this.message == old(this.message)
        invariant sendTo == old(sendTo) && showCreateForm == old(showCreateForm)
      {
        AnnounceNext(targets, i, title, message);
        sent := sent + [Notice(targets[i].id, NoteAdminAnnouncement, title, message, false)];
        i := i + 1;
      }
      assert targets[..i] == targets;
    }

    /** `handleDeleteAnnouncement`: once confirmed, every entry with this id
        goes and the rest keep their order. */
    method HandleDeleteAnnouncement(id: nat, confirmed: bool)
      modifies this
      ensures confirmed ==> announcements == Filter(old(announcements), (a: Announcement) => a.id != id)
      ensures !confirmed ==> announcements == old(announcements)
      ensures sent == old(sent) && title == old(title) && message == old(message)
      ensures sendTo == old(sendTo) && showCreateForm == old(showCreateForm)
    {
      if confirmed {
        announcements := Filter(announcements, (a: Announcement) => a.id != id);
      }
    }
  }

  /** After a delete no entry has the id, every other entry is still there,
      and the others keep their relative order. */
  lemma DeleteRemovesOnlyThatId(history: seq<Announcement>, id: nat, extra: seq<Announcement>)
    ensures forall a :: a in Filter(history, (a: Announcement) => a.id != id) <==> a in history && a.id != id
    ensures Filter(history + extra, (a: Announcement) => a.id != id) ==
      Filter(history, (a: Announcement) => a.id != id) + Filter(extra, (a: Announcement) => a.id != id)
  {
    var p := (a: Announcement) => a.id != id;
    forall a | a in history && a.id != id ensures a in Filter(history, p) {
      var i :| 0 <= i < |history| && history[i] == a;
    }
    FilterAppend(history, extra, p);
  }

  /** Each target gets exactly one notice and nobody else gets any, so the
      recorded count is the number of recipients. */
  lemma OneNoticePerTarget(users: seq<Recipient>, to: SendTo, title: string, message: string)
    ensures var ns := Announce(Targets(users, to), title, message);
      |ns| == |Targets(users, to)| &&
      (forall i :: 0 <= i < |ns| ==> ns[i].ntype == NoteAdminAnnouncement && !ns[i].isRead) &&
      (forall i :: 0 <= i < |ns| ==> exists u :: u in users && InAudience(u, to) && u.id == ns[i].userId)
  {
    var ts := Targets(users, to);
    var ns := Announce(ts, title, message);
    forall i | 0 <= i < |ns| ensures exists u :: u in users && InAudience(u, to) && u.id == ns[i].userId {
      assert ts[i] in ts;
    }
  }

  /** The drop-down value the server's broadcast receives. */
  function SendToName(to: SendTo): string {
    match to
    case Everyone => "all"
    case ActiveOnly => "active"
    case InactiveOnly => "inactive"
  }

  function ToRecipient(u: User): Recipient {
    Recipient(u.id, u.isAdmin, u.isPublic)
  }

  /** The page loads its users with GET `/users`, which lists public
      non-admins only. Over such a list `inactive` reaches nobody and
      `active` reaches the same users as `all`. */
  lemma PublicListAudiences(users: seq<Recipient>)
    requires forall i :: 0 <= i < |users| ==> users[i].isPublic && !users[i].isAdmin
    ensures Targets(users, InactiveOnly) == []
    ensures Targets(users, ActiveOnly) == users && Targets(users, Everyone) == users
    ensures UserCounts(users) == Counts(|users|, |users|, 0)
  {
    FilterAll(users, (u: Recipient) => !u.isAdmin);
    FilterAll(users, (u: Recipient) => u.isPublic);
    FilterPartition(users, (u: Recipient) => u.isPublic, (u: Recipient) => !u.isPublic);
  }

  /** A user of the list the page loads. */
  function ViewRecipient(v: UserRoutes.UserView): Recipient {
    Recipient(v.id, v.isAdmin, v.isPublic)
  }

  /** `useUsers` loads one page of GET `/users` with no search and no
      location: whatever the stored users, `inactive` then reaches nobody on
      this page and `active` reaches everyone `all` does. */
  lemma LoadedListHasNoInactive(users: seq<User>, page: int, limit: int)
    requires UserRoutes.ListUsers(users, "", "", page, limit).Ok?
    ensures var rs := Map(UserRoutes.ListUsers(users, "", "", page, limit).value.items, ViewRecipient);
      Targets(rs, InactiveOnly) == [] && Targets(rs, ActiveOnly) == rs && Targets(rs, Everyone) == rs
  {
    var items := UserRoutes.ListUsers(users, "", "", page, limit).value.items;
    var rs := Map(items, ViewRecipient);
    forall i | 0 <= i < |rs| ensures rs[i].isPublic && !rs[i].isAdmin {
      assert UserRoutes.Shows(users, items[i], UserRoutes.PublicSelector("", ""), false);
    }
    PublicListAudiences(rs);
  }

  /** Given the same list of users, the page picks the same users, in the
      same order, as the server's announcement broadcast does for the same
      audience. The page's own list is narrower than the server's table:
      see PublicListAudiences. */
  lemma SameAudienceAsServer(users: seq<User>, to: SendTo)
    ensures Targets(Map(users, ToRecipient), to) == Map(NotificationRoutes.Audience(users, SendToName(to)), ToRecipient)
  {
    var rs := Map(users, ToRecipient);
    var nonAdmin := (r: Recipient) => !r.isAdmin;
    var audience := (r: Recipient) => InAudience(r, to);
    match to {
      case Everyone =>
      case ActiveOnly =>
        FilterTwice(rs, nonAdmin, (r: Recipient) => r.isPublic, audience);
      case InactiveOnly =>
        FilterTwice(rs, nonAdmin, (r: Recipient) => !r.isPublic, audience);
    }
    FilterSame(rs, if to == Everyone then nonAdmin else audience, audience);
    FilterMap(users, ToRecipient, audience, NotificationRoutes.AudienceSelector(SendToName(to)));
  }
}
