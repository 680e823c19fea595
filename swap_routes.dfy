/** The swap-request routes: the caller's listing, create, update (status
    and schedule, with the counterparty's notification), delete, and the
    admin listing. */
module SwapRoutes {
  import opened Collections
  import opened Text
  import opened Schemas
  import opened Database

  // ------------------------------------------------------------- listings

  /** The party condition the `type` parameter selects: `sent`, `received`,
      or either side for any other value. */
  predicate PartyMatch(w: SwapRequest, caller: Id, listType: string) {
    if listType == "sent" then w.fromUserId == caller
    else if listType == "received" then w.toUserId == caller
    else w.fromUserId == caller || w.toUserId == caller
  }

  /** The status condition: none for `all`, otherwise the stored status name. */
  predicate StatusMatch(w: SwapRequest, status: string) {
    status == "all" || StatusName(w.status) == status
  }

  function SwapSelector(caller: Id, listType: string, status: string): SwapRequest -> bool {
    w => PartyMatch(w, caller, listType) && StatusMatch(w, status)
  }

  /** GET `/`: the caller's swaps of the requested kind and status, most
      recently updated first, one page of them. */
  function ListSwaps(users: seq<User>, swaps: seq<SwapRequest>, caller: Id, listType: string, status: string, page: int, limit: int): (r: Outcome<Listing<SwapRequest>>)
    ensures r.Fail? <==> FindUser(users, caller).None? || SkipRefused(page, limit)
    ensures r.Fail? ==> r.code == (if FindUser(users, caller).None? then 401 else 500)
    ensures r.Ok? ==> forall i :: 0 <= i < |r.value.items| ==>
      r.value.items[i] in swaps && PartyMatch(r.value.items[i], caller, listType) && StatusMatch(r.value.items[i], status)
    ensures r.Ok? ==> SortedDesc(r.value.items, SwapUpdated)
    ensures r.Ok? ==> r.value.total == |Filter(swaps, SwapSelector(caller, listType, status))|
    ensures r.Ok? ==> r.value.pages == PageCount(r.value.total, limit)
    ensures r.Ok? && limit != 0 ==> |r.value.items| <= Abs(limit)
    ensures r.Ok? ==>
      && Skip(page, limit) >= 0
      && IsPage(r.value.items, Filter(swaps, SwapSelector(caller, listType, status)), SwapUpdated, Skip(page, limit), Abs(limit))
  {
    if FindUser(users, caller).None? then
      Fail(401)
    else
      match Query(swaps, SwapSelector(caller, listType, status), SwapUpdated, page, limit)
      case None => Fail(500)
      case Some(l) => Ok(l)
  }

  /** Without a limit, the listing holds every swap that matches. */
  lemma UnlimitedListHoldsEveryMatch(users: seq<User>, swaps: seq<SwapRequest>, caller: Id, listType: string, status: string, page: int, w: SwapRequest)
    requires ListSwaps(users, swaps, caller, listType, status, page, 0).Ok?
    requires w in swaps && PartyMatch(w, caller, listType) && StatusMatch(w, status)
    ensures w in ListSwaps(users, swaps, caller, listType, status, page, 0).value.items
  {
    var sel := SwapSelector(caller, listType, status);
    var i :| 0 <= i < |swaps| && swaps[i] == w;
    assert w in Filter(swaps, sel);
    assert w in multiset(Filter(swaps, sel));
  }

  /** The default listing is exactly the union of the sent and received ones. */
  lemma AllIsSentOrReceived(swaps: seq<SwapRequest>, caller: Id, status: string, w: SwapRequest)
    ensures w in Filter(swaps, SwapSelector(caller, "all", status)) <==>
      w in Filter(swaps, SwapSelector(caller, "sent", status)) || w in Filter(swaps, SwapSelector(caller, "received", status))
  {
    var all := SwapSelector(caller, "all", status);
    var sent := SwapSelector(caller, "sent", status);
    var received := SwapSelector(caller, "received", status);
    if w in Filter(swaps, all) {
      InFilter(swaps, all, w);
      var i :| 0 <= i < |swaps| && swaps[i] == w;
      if w.fromUserId == caller {
        assert sent(swaps[i]);
      } else {
        assert received(swaps[i]);
      }
    }
    if w in Filter(swaps, sent) {
      InFilter(swaps, sent, w);
      var i :| 0 <= i < |swaps| && swaps[i] == w;
      assert all(swaps[i]);
    }
    if w in Filter(swaps, received) {
      InFilter(swaps, received, w);
      var i :| 0 <= i < |swaps| && swaps[i] == w;
      assert all(swaps[i]);
    }
  }

  /** The admin filter: none when `status` is missing or `all`. */
  predicate AdminStatusMatch(w: SwapRequest, status: string) {
    status == "" || status == "all" || StatusName(w.status) == status
  }

  function AdminSwapSelector(status: string): SwapRequest -> bool {
    w => AdminStatusMatch(w, status)
  }

  /** GET `/admin/all`: every swap of the given status, most recently
      updated first; the `search` parameter is read but never applied. */
  function AdminListSwaps(users: seq<User>, swaps: seq<SwapRequest>, caller: Id, status: string, page: int, limit: int): (r: Outcome<Listing<SwapRequest>>)
    ensures AdminGate(users, caller) != 200 ==> r == Fail(AdminGate(users, caller))
    ensures AdminGate(users, caller) == 200 ==> (r.Fail? <==> SkipRefused(page, limit))
    ensures r.Ok? ==> forall i :: 0 <= i < |r.value.items| ==>
      r.value.items[i] in swaps && AdminStatusMatch(r.value.items[i], status)
    ensures r.Ok? ==> SortedDesc(r.value.items, SwapUpdated)
    ensures r.Ok? ==> r.value.total == |Filter(swaps, AdminSwapSelector(status))|
    ensures r.Ok? && limit == 0 ==> multiset(r.value.items) == multiset(Filter(swaps, AdminSwapSelector(status)))
    ensures r.Ok? ==> r.value.pages == PageCount(r.value.total, limit)
    ensures r.Ok? && limit != 0 ==> |r.value.items| <= Abs(limit)
    ensures r.Ok? ==>
      && Skip(page, limit) >= 0
      && IsPage(r.value.items, Filter(swaps, AdminSwapSelector(status)), SwapUpdated, Skip(page, limit), Abs(limit))
  {
    var gate := AdminGate(users, caller);
    if gate != 200 then
      Fail(gate)
    else
      match Query(swaps, AdminSwapSelector(status), SwapUpdated, page, limit)
      case None => Fail(500)
      case Some(l) => Ok(l)
  }

  // --------------------------------------------------------------- create

  /** The request body of POST `/`. An empty `meetingType` stands for a
      missing one; a `duration` of None or 0 is falsy. */
  datatype SwapDraft = SwapDraft(
    toUserId: Id,
    skillOffered: string,
    skillWanted: string,
    message: string,
    duration: Option<int>,
    meetingType: string,
    location: string)

  /** `meetingType || 'video'` followed by the enum cast. */
  function MeetingChoice(t: string): (r: Option<MeetingType>)
    ensures t == "" ==> r == Some(Video)
    ensures t != "" ==> r == ParseMeetingType(t)
    ensures r.None? <==> t != "" && ParseMeetingType(t).None?
  {
    if t == "" then Some(DefaultMeetingType) else ParseMeetingType(t)
  }

  /** `duration || 60`. */
  function DurationChoice(d: Option<int>): (r: int)
    ensures (d.None? || d.value == 0) ==> r == 60
    ensures r != 0
    ensures d.Some? && d.value != 0 ==> r == d.value
  {
    if d.None? || d.value == 0 then DefaultDuration else d.value
  }

  /** Whether the new document passes validation: a known meeting type and
      two skill strings that are not blank once trimmed. */
  predicate DraftAccepted(d: SwapDraft) {
    MeetingChoice(d.meetingType).Some? && !IsBlank(d.skillOffered) && !IsBlank(d.skillWanted)
  }

  /** POST `/`. The target must exist; the server does not stop a caller
      from sending a request to themself. */
  method CreateSwap(s: Store, caller: Id, d: SwapDraft, now: Timestamp) returns (code: int, created: Option<SwapRequest>)
    requires s.Valid()
    modifies s
    ensures s.Valid()
    ensures s.users == old(s.users) && s.reviews == old(s.reviews)
    ensures code == 401 <==> FindUser(old(s.users), caller).None?
    ensures code == 404 <==> FindUser(old(s.users), caller).Some? && FindUser(old(s.users), d.toUserId).None?
    ensures code == 500 <==> FindUser(old(s.users), caller).Some? && FindUser(old(s.users), d.toUserId).Some? && !DraftAccepted(d)
    ensures code == 201 <==> FindUser(old(s.users), caller).Some? && FindUser(old(s.users), d.toUserId).Some? && DraftAccepted(d)
    ensures code != 201 ==> created.None? && s.swaps == old(s.swaps) && s.notifications == old(s.notifications)
    ensures code == 201 ==> created.Some? && s.swaps == old(s.swaps) + [created.value]
    ensures code == 201 ==>
      var w := created.value;
      w.id == old(s.nextId) && w.fromUserId == caller && w.toUserId == d.toUserId &&
      w.skillOffered == Trim(d.skillOffered) && w.skillWanted == Trim(d.skillWanted) &&
      w.message == d.message && w.location == d.location &&
      w.status == Pending && w.scheduledAt.None? &&
      w.duration == DurationChoice(d.duration) && w.meetingType == MeetingChoice(d.meetingType).value &&
      w.createdAt == now && w.updatedAt == now
    ensures code == 201 ==> (AppendedOne(old(s.notifications), s.notifications) &&
      Notifies(s.notifications[|old(s.notifications)|], d.toUserId, NoteSwapRequest, SwapData(created.value.id)))
    ensures code == 201 ==>
      && s.notifications[|old(s.notifications)|].title == "New Swap Request"
      && s.notifications[|old(s.notifications)|].message ==
           FindUser(old(s.users), caller).value.name + " wants to swap " + d.skillOffered + " for " + d.skillWanted
  {
    var me := FindUser(s.users, caller);
    if me.None? {
      return 401, None;
    }
    if FindUser(s.users, d.toUserId).None? {
      return 404, None;
    }
    if !DraftAccepted(d) {
      return 500, None;
    }
    var w := SwapRequest(s.nextId, caller, d.toUserId, Trim(d.skillOffered), Trim(d.skillWanted), d.message, DefaultStatus,
      None, DurationChoice(d.duration), MeetingChoice(d.meetingType).value, d.location, now, now);
    s.InsertSwap(w);
    var text := me.value.name + " wants to swap " + d.skillOffered + " for " + d.skillWanted;
    var n := Notification(s.nextId, d.toUserId, NoteSwapRequest, "New Swap Request", text, DefaultIsRead, SwapData(w.id), "", now, now);
    s.InsertNotification(n);
    assert s.notifications[|old(s.notifications)|] == n;
    return 201, Some(w);
  }

  /** The new swap shows up in its sender's `sent` listing. */
  lemma CreatedSwapIsSent(swaps: seq<SwapRequest>, w: SwapRequest)
    ensures w in Filter(swaps + [w], SwapSelector(w.fromUserId, "sent", "all"))
    ensures w in Filter(swaps + [w], SwapSelector(w.toUserId, "received", "all"))
  {
    var xs := swaps + [w];
    assert xs[|swaps|] == w;
  }

  // --------------------------------------------------------------- update

  /** The request body of PUT `/:id`; an empty `status` is falsy. */
  datatype SwapPatch = SwapPatch(status: string, scheduledAt: Option<Timestamp>)

  /** The notification target: the recipient when the caller sent the
      swap, the sender otherwise. */
  function Counterparty(w: SwapRequest, caller: Id): (r: Id)
    ensures IsParty(w, r)
    ensures IsParty(w, caller) && w.fromUserId != w.toUserId ==> r != caller
  {
    if w.fromUserId == caller then w.toUserId else w.fromUserId
  }

  /** The `switch` on the new status: a title and message for `accepted`,
      `rejected` and `completed`, nothing for the other values. */
  function NoticeText(status: string, actor: string): (r: Option<(string, string)>)
    ensures r.Some? <==> status in {"accepted", "rejected", "completed"}
    ensures r.Some? ==> r.value.0 != "" && r.value.1 != ""
  {
    if status == "accepted" then Some(("Swap Request Accepted", actor + " accepted your swap request"))
    else if status == "rejected" then Some(("Swap Request Declined", actor + " declined your swap request"))
    else if status == "completed" then Some(("Swap Completed", "Your swap with " + actor + " has been marked as completed"))
    else None
  }

  /** The saved document: the supplied fields overwritten, every other field
      kept, and `updatedAt` moved to `now` only when something changed. */
  function ApplyPatch(w: SwapRequest, st: Option<SwapStatus>, at: Option<Timestamp>, now: Timestamp): (r: SwapRequest)
    ensures r == w.(status := r.status, scheduledAt := r.scheduledAt, updatedAt := r.updatedAt)
    ensures st.Some? ==> r.status == st.value
    ensures st.None? ==> r.status == w.status
    ensures at.Some? ==> r.scheduledAt == at
    ensures at.None? ==> r.scheduledAt == w.scheduledAt
    ensures r.updatedAt == now || r == w
  {
    var status := if st.Some? then st.value else w.status;
    var scheduled := if at.Some? then at else w.scheduledAt;
    if status == w.status && scheduled == w.scheduledAt then w
    else w.(status := status, scheduledAt := scheduled, updatedAt := now)
  }

  /** The caller is a stored user and a party to the stored swap `id`. */
  predicate MayUpdate(users: seq<User>, swaps: seq<SwapRequest>, caller: Id, id: Id) {
    FindUser(users, caller).Some? && IndexOf(swaps, id, SwapKey).Some? &&
    IsParty(swaps[IndexOf(swaps, id, SwapKey).value], caller)
  }

  /** A supplied status that is not one of the enum's names. */
  predicate UnknownStatus(p: SwapPatch) {
    p.status != "" && ParseStatus(p.status).None?
  }

  /** The status the patch asks for, if any. */
  function PatchStatus(p: SwapPatch): Option<SwapStatus> {
    if p.status == "" then None else ParseStatus(p.status)
  }

  /** PUT `/:id`. Any known status is accepted from any other: the route
      checks no transition. The notification of a `completed` swap has the
      type `swap_completed`, which the Notification enum refuses, so that
      request answers 500 after the swap itself was already saved. */
  method UpdateSwap(s: Store, caller: Id, id: Id, p: SwapPatch, now: Timestamp) returns (code: int)
    requires s.Valid()
    modifies s
    ensures s.Valid()
    ensures s.users == old(s.users) && s.reviews == old(s.reviews)
    ensures code == 401 <==> FindUser(old(s.users), caller).None?
    ensures code == 404 <==> FindUser(old(s.users), caller).Some? && IndexOf(old(s.swaps), id, SwapKey).None?
    ensures code == 403 <==> (FindUser(old(s.users), caller).Some? && IndexOf(old(s.swaps), id, SwapKey).Some? &&
      !MayUpdate(old(s.users), old(s.swaps), caller, id))
    ensures code == 500 <==> MayUpdate(old(s.users), old(s.swaps), caller, id) && (UnknownStatus(p) || p.status == "completed")
    ensures code == 200 <==> MayUpdate(old(s.users), old(s.swaps), caller, id) && !UnknownStatus(p) && p.status != "completed"
    ensures !MayUpdate(old(s.users), old(s.swaps), caller, id) || UnknownStatus(p) ==>
      s.swaps == old(s.swaps) && s.notifications == old(s.notifications)
    ensures MayUpdate(old(s.users), old(s.swaps), caller, id) && UnknownStatus(p) ==> code == 500
    ensures MayUpdate(old(s.users), old(s.swaps), caller, id) && !UnknownStatus(p) ==>
      s.swaps == old(s.swaps)[IndexOf(old(s.swaps), id, SwapKey).value :=
        ApplyPatch(old(s.swaps)[IndexOf(old(s.swaps), id, SwapKey).value], PatchStatus(p), p.scheduledAt, now)]
    ensures MayUpdate(old(s.users), old(s.swaps), caller, id) && p.status == "completed" ==>
      code == 500 && s.notifications == old(s.notifications)
    ensures MayUpdate(old(s.users), old(s.swaps), caller, id) && (p.status == "accepted" || p.status == "rejected") ==>
      code == 200 && AppendedOne(old(s.notifications), s.notifications) &&
      Notifies(s.notifications[|old(s.notifications)|],
        Counterparty(old(s.swaps)[IndexOf(old(s.swaps), id, SwapKey).value], caller),
        if p.status == "accepted" then NoteSwapAccepted else NoteSwapRejected, SwapData(id))
    ensures MayUpdate(old(s.users), old(s.swaps), caller, id) && (p.status == "accepted" || p.status == "rejected") ==>
      && s.notifications[|old(s.notifications)|].title == NoticeText(p.status, FindUser(old(s.users), caller).value.name).value.0
      && s.notifications[|old(s.notifications)|].message == NoticeText(p.status, FindUser(old(s.users), caller).value.name).value.1
    ensures MayUpdate(old(s.users), old(s.swaps), caller, id) && !UnknownStatus(p) && NoticeText(p.status, "").None? ==>
      code == 200 && s.notifications == old(s.notifications)
  {
    var me := FindUser(s.users, caller);
    if me.None? {
      return 401;
    }
    var found := IndexOf(s.swaps, id, SwapKey);
    if found.None? {
      return 404;
    }
    var i := found.value;
    var w := s.swaps[i];
    if !IsParty(w, caller) {
      return 403;
    }
    if UnknownStatus(p) {
      return 500;
    }
    s.ReplaceSwap(i, ApplyPatch(w, PatchStatus(p), p.scheduledAt, now));
    code := NotifyCounterparty(s, w, caller, me.value.name, p.status, now);
  }

  /** After the save: the notification for a status change, when the
      `switch` has a title for it, saved under the type `swap_<status>`. */
  method NotifyCounterparty(s: Store, w: SwapRequest, caller: Id, actor: string, status: string, now: Timestamp) returns (code: int)
    requires s.Valid()
    modifies s
    ensures s.Valid()
    ensures s.users == old(s.users) && s.swaps == old(s.swaps) && s.reviews == old(s.reviews)
    ensures status == "completed" ==> code == 500 && s.notifications == old(s.notifications)
    ensures status == "accepted" || status == "rejected" ==>
      code == 200 && AppendedOne(old(s.notifications), s.notifications) &&
      Notifies(s.notifications[|old(s.notifications)|], Counterparty(w, caller),
        if status == "accepted" then NoteSwapAccepted else NoteSwapRejected, SwapData(w.id))
    ensures status == "accepted" || status == "rejected" ==>
      && s.notifications[|old(s.notifications)|].title == NoticeText(status, actor).value.0
      && s.notifications[|old(s.notifications)|].message == NoticeText(status, actor).value.1
    ensures NoticeText(status, "").None? ==> code == 200 && s.notifications == old(s.notifications)
  {
    var text := NoticeText(status, actor);
    if text.None? {
      return 200;
    }
    if status == "accepted" {
      assert "swap_" + status == "swap_accepted";
    } else if status == "rejected" {
      assert "swap_" + status == "swap_rejected";
    } else {
      assert "swap_" + status == "swap_completed";
    }
    SwapOutcomeTypesMissing();
    var kind := ParseNotificationType("swap_" + status);
    if kind.None? {
      return 500;
    }
    var n := Notification(s.nextId, Counterparty(w, caller), kind.value, text.value.0, text.value.1, DefaultIsRead, SwapData(w.id), "", now, now);
    s.InsertNotification(n);
    assert s.notifications[|old(s.notifications)|] == n;
    return 200;
  }

  /** Marking a swap completed through the route always ends in 500, yet
      the status change is kept. */
  lemma CompletedTypeRefused(status: string)
    requires status == "completed"
    ensures NoticeText(status, "").Some?
    ensures ParseNotificationType("swap_" + status).None?
    ensures ParseStatus(status) == Some(Completed)
  {
    assert "swap_" + status == "swap_completed";
    SwapOutcomeTypesMissing();
  }

  // --------------------------------------------------------------- delete

  /** DELETE `/:id`: only the sender may delete; the recipient gets 403. */
  method DeleteSwap(s: Store, caller: Id, id: Id) returns (code: int)
    requires s.Valid()
    modifies s
    ensures s.Valid()
    ensures s.users == old(s.users) && s.reviews == old(s.reviews) && s.notifications == old(s.notifications)
    ensures code == 401 <==> FindUser(old(s.users), caller).None?
    ensures code == 404 <==> FindUser(old(s.users), caller).Some? && IndexOf(old(s.swaps), id, SwapKey).None?
    ensures code == 403 <==> (FindUser(old(s.users), caller).Some? && IndexOf(old(s.swaps), id, SwapKey).Some? &&
      old(s.swaps)[IndexOf(old(s.swaps), id, SwapKey).value].fromUserId != caller)
    ensures code == 200 <==> (FindUser(old(s.users), caller).Some? && IndexOf(old(s.swaps), id, SwapKey).Some? &&
      old(s.swaps)[IndexOf(old(s.swaps), id, SwapKey).value].fromUserId == caller)
    ensures code != 200 ==> s.swaps == old(s.swaps)
    ensures code == 200 ==> s.swaps == RemoveAt(old(s.swaps), IndexOf(old(s.swaps), id, SwapKey).value)
    ensures code == 200 ==> IndexOf(s.swaps, id, SwapKey).None?
  {
    if FindUser(s.users, caller).None? {
      return 401;
    }
    var found := IndexOf(s.swaps, id, SwapKey);
    if found.None? {
      return 404;
    }
    if s.swaps[found.value].fromUserId != caller {
      return 403;
    }
    RemoveFound(s.swaps, id, SwapKey);
    s.RemoveSwap(found.value);
    return 200;
  }
}
