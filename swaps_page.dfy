/** The swap requests screen: the sent and received lists, the actions each
    request offers, and the calls its buttons make. The screen is the only
    place where the swap lifecycle is gated: the server accepts any status
    change from either party. */
module SwapsPage {
  import opened Collections
  import opened Schemas
  import opened ReviewRoutes

  datatype Tab = Sent | Received

  /** The status drop-down: every status, or one of them. */
  datatype StatusFilter = AllStatuses | Only(status: SwapStatus)

  /** The signed-in user as the screen knows them. */
  datatype Me = Me(id: Id, name: string)

  /** The tab's side of a request: sent by me, or addressed to me. */
  predicate OnTab(w: SwapRequest, me: Id, tab: Tab) {
    if tab == Sent then w.fromUserId == me else w.toUserId == me
  }

  predicate Passes(w: SwapRequest, f: StatusFilter) {
    f.AllStatuses? || w.status == f.status
  }

  function TabSelector(me: Id, tab: Tab): SwapRequest -> bool {
    (w: SwapRequest) => OnTab(w, me, tab)
  }

  function StatusSelector(f: StatusFilter): SwapRequest -> bool {
    (w: SwapRequest) => Passes(w, f)
  }

  function ShownSelector(me: Id, tab: Tab, f: StatusFilter): SwapRequest -> bool {
    (w: SwapRequest) => OnTab(w, me, tab) && Passes(w, f)
  }

  /** `userRequests`: nothing without a signed-in user; otherwise the tab's
      requests that pass the status filter, most recently updated first. */
  function UserRequests(requests: seq<SwapRequest>, me: Option<Id>, tab: Tab, f: StatusFilter): (r: seq<SwapRequest>)
    ensures me.None? ==> r == []
    ensures me.Some? ==> multiset(r) == multiset(Filter(requests, ShownSelector(me.value, tab, f)))
    ensures SortedDesc(r, SwapUpdated)
  {
    match me
    case None => []
    case Some(id) =>
      FilterTwice(requests, TabSelector(id, tab), StatusSelector(f), ShownSelector(id, tab, f));
      SortDesc(Filter(Filter(requests, TabSelector(id, tab)), StatusSelector(f)), SwapUpdated)
  }

  /** A request is listed exactly when it is on the tab's side and passes the filter. */
  lemma Listed(requests: seq<SwapRequest>, me: Id, tab: Tab, f: StatusFilter, w: SwapRequest)
    ensures w in UserRequests(requests, Some(me), tab, f) <==> (w in requests && OnTab(w, me, tab) && Passes(w, f))
  {
    var r := UserRequests(requests, Some(me), tab, f);
    var sel := ShownSelector(me, tab, f);
    assert w in r <==> w in multiset(r);
    assert w in Filter(requests, sel) <==> w in multiset(Filter(requests, sel));
    if w in Filter(requests, sel) {
      InFilter(requests, sel, w);
    }
    if w in requests && sel(w) {
      var i :| 0 <= i < |requests| && requests[i] == w;
    }
  }

  /** With no status filter, the two tabs together hold exactly the requests
      the user is a party to: the rows the server's list returns. */
  lemma TabsCoverParties(requests: seq<SwapRequest>, me: Id, w: SwapRequest)
    requires w in requests
    ensures (w in UserRequests(requests, Some(me), Sent, AllStatuses) ||
      w in UserRequests(requests, Some(me), Received, AllStatuses)) <==> IsParty(w, me)
  {
    Listed(requests, me, Sent, AllStatuses, w);
    Listed(requests, me, Received, AllStatuses, w);
  }

  // -------------------------------------------------------------- actions

  /** The value of a JSX child expression: a boolean, which renders
      nothing, or a button. */
  datatype Child = Flag(b: bool) | Button(caption: string)

  predicate Truthy(c: Child) {
    c.Button? || c.b
  }

  /** JavaScript's `a && c`. */
  function And(a: bool, c: Child): Child {
    if a then c else Flag(false)
  }

  /** JavaScript's `x || y`: `x` when it is truthy, else `y`. */
  function Or(x: Child, y: Child): Child {
    if Truthy(x) then x else y
  }

  predicate Renders(c: Child) {
    c.Button?
  }

  /** The four action slots of a request row. */
  datatype Controls = Controls(decide: Child, complete: Child, review: Child, delete: Child)

  /** The action expressions of a row, as written: the delete slot is
      `(pending && sent) || rejected && button`, and `&&` binds tighter. */
  function ControlsFor(tab: Tab, status: SwapStatus, reviewed: bool): (c: Controls)
    ensures Renders(c.decide) <==> tab == Received && status == Pending
    ensures Renders(c.complete) <==> status == Accepted
    ensures Renders(c.review) <==> status == Completed && !reviewed
    ensures Renders(c.delete) <==> status == Rejected
  {
    Controls(
      And(tab == Received && status == Pending, Button("Accept / Reject")),
      And(status == Accepted, Button("Mark Complete")),
      And(status == Completed && !reviewed, Button("Review")),
      Or(Flag(status == Pending && tab == Sent), And(status == Rejected, Button("Delete request"))))
  }

  /** The party a row shows: the addressee on the sent tab, the sender on
      the received tab. */
  function Counterparty(w: SwapRequest, tab: Tab): Id {
    if tab == Sent then w.toUserId else w.fromUserId
  }

  /** A row as a whole: `getUserById` looks the counterparty up among the
      loaded users, and a row whose counterparty is missing renders nothing,
      its actions included. */
  function RowControls(w: SwapRequest, tab: Tab, loaded: seq<Id>, reviewed: bool): (c: Option<Controls>)
    ensures c.None? <==> Counterparty(w, tab) !in loaded
    ensures c.Some? ==> c.value == ControlsFor(tab, w.status, reviewed)
  {
    if Counterparty(w, tab) in loaded then Some(ControlsFor(tab, w.status, reviewed)) else None
  }

  /** A received pending request can be accepted or declined on the screen
      only while its sender is among the loaded users. */
  lemma DecisionNeedsSender(w: SwapRequest, loaded: seq<Id>, reviewed: bool)
    requires w.status == Pending
    ensures (RowControls(w, Received, loaded, reviewed).Some? &&
      Renders(RowControls(w, Received, loaded, reviewed).value.decide)) <==> w.fromUserId in loaded
  {
  }

  /** A sender looking at their own pending request gets the value `true`
      in the delete slot, which renders nothing: they cannot withdraw it. */
  lemma PendingSentHasNoControl(reviewed: bool)
    ensures ControlsFor(Sent, Pending, reviewed).delete == Flag(true)
    ensures !Renders(ControlsFor(Sent, Pending, reviewed).decide)
    ensures !Renders(ControlsFor(Sent, Pending, reviewed).delete)
  {
  }

  /** Whatever the tab and status, a row shows at most one kind of action,
      and a cancelled request shows none. */
  lemma OneActionAtATime(tab: Tab, status: SwapStatus, reviewed: bool)
    ensures var c := ControlsFor(tab, status, reviewed);
      (if Renders(c.decide) then 1 else 0) + (if Renders(c.complete) then 1 else 0) +
      (if Renders(c.review) then 1 else 0) + (if Renders(c.delete) then 1 else 0) <= 1
    ensures var c := ControlsFor(tab, status, reviewed);
      status == Cancelled ==> !Renders(c.decide) && !Renders(c.complete) && !Renders(c.review) && !Renders(c.delete)
  {
  }

  /** `hasUserReviewed`: a review of this request by the signed-in user
      exists. Without a user the comparison is with `undefined` and fails. */
  function UserReviewed(reviews: seq<Review>, requestId: Id, me: Option<Id>): (r: bool)
    ensures r <==> me.Some? && exists i :: 0 <= i < |reviews| && reviews[i].swapRequestId == requestId && reviews[i].reviewerId == me.value
  {
    me.Some? && HasReviewed(reviews, requestId, me.value)
  }

  /** The Review button shows exactly for a completed request whose review
      the server would still accept from this user. */
  lemma ReviewShownUntilReviewed(reviews: seq<Review>, tab: Tab, w: SwapRequest, me: Id)
    ensures Renders(ControlsFor(tab, w.status, UserReviewed(reviews, w.id, Some(me))).review) <==>
      (w.status == Completed && !HasReviewed(reviews, w.id, me))
  {
  }

  // ------------------------------------------------------------- handlers

  /** A call the screen makes: to the swap or review API, or to the
      notification hook. */
  datatype Call =
    | UpdateStatus(requestId: Id, status: SwapStatus)
    | DeleteRequest(requestId: Id)
    | PostReview(swapRequestId: Id, reviewerId: Id, revieweeId: Id, rating: int, comment: string)
    | Notify(userId: Id, ntype: NotificationType, title: string, message: string, isRead: bool)

  /** `${currentUser?.name}`: the name, or `undefined` with nobody signed in. */
  function NameOf(me: Option<Me>): string {
    if me.Some? then me.value.name else "undefined"
  }

  /** What accepting or declining the request with this id asks for: nothing
      when no request has the id, else the status change and a notice to
      the request's sender. */
  function Response(requests: seq<SwapRequest>, requestId: Id, me: Option<Me>, accept: bool): (r: seq<Call>)
    ensures IndexOf(requests, requestId, SwapKey).None? <==> r == []
  {
    match IndexOf(requests, requestId, SwapKey)
    case None => []
    case Some(k) =>
      if accept then
        [UpdateStatus(requestId, Accepted),
         Notify(requests[k].fromUserId, NoteSwapAccepted, "Request Accepted!", NameOf(me) + " accepted your swap request", false)]
      else
        [UpdateStatus(requestId, Rejected),
         Notify(requests[k].fromUserId, NoteSwapRejected, "Request Declined", NameOf(me) + " declined your swap request", false)]
  }

  /** The answer to a request found on the received tab sets the chosen
      status and notifies the other party, the one who sent it. */
  lemma ResponseReachesSender(requests: seq<SwapRequest>, me: Me, k: nat, accept: bool)
    requires k < |requests|
    requires forall j :: 0 <= j < |requests| && j != k ==> requests[j].id != requests[k].id
    ensures var r := Response(requests, requests[k].id, Some(me), accept);
      |r| == 2 && r[0] == UpdateStatus(requests[k].id, if accept then Accepted else Rejected) &&
      r[1].Notify? && r[1].userId == requests[k].fromUserId && IsParty(requests[k], r[1].userId) &&
      (requests[k].fromUserId != me.id ==> r[1].userId != me.id) && !r[1].isRead &&
      r[1].ntype == (if accept then NoteSwapAccepted else NoteSwapRejected) &&
      r[1].title == (if accept then "Request Accepted!" else "Request Declined") &&
      r[1].message == (if accept then me.name + " accepted your swap request"
                       else me.name + " declined your swap request")
  {
    var found := IndexOf(requests, requests[k].id, SwapKey);
    assert found == Some(k);
  }

  /** Whom a review from this tab is about: the receiver of a sent request,
      the sender of a received one. */
  function Reviewee(w: SwapRequest, tab: Tab): Id {
    if tab == Sent then w.toUserId else w.fromUserId
  }

  /** The reviewee of a listed request is a party to it and, unless the
      request was sent to oneself, not the reviewer. */
  lemma {:induction false} RevieweeIsCounterparty(requests: seq<SwapRequest>, me: Id, tab: Tab, f: StatusFilter, w: SwapRequest)
    requires w in UserRequests(requests, Some(me), tab, f)
    ensures IsParty(w, Reviewee(w, tab))
    ensures w.fromUserId != w.toUserId ==> Reviewee(w, tab) != me
  {
    Listed(requests, me, tab, f, w);
  }

  /** The client state of the screen: the lists the hooks hold, the tab and
      filter, the open review dialog and the calls made so far. */
  class SwapsScreen {
    const me: Option<Me>
    var requests: seq<SwapRequest>
    var reviews: seq<Review>
    var activeTab: Tab
    var statusFilter: StatusFilter
    var reviewModal: Option<Id>
    var calls: seq<Call>

    constructor(me: Option<Me>, requests: seq<SwapRequest>, reviews: seq<Review>)
      ensures this.me == me && this.requests == requests && this.reviews == reviews
      ensures activeTab == Received && statusFilter == AllStatuses && reviewModal.None? && calls == []
    {
      this.me := me;
      this.requests := requests;
      this.reviews := reviews;
      activeTab := Received;
      statusFilter := AllStatuses;
      reviewModal := None;
      calls := [];
    }

    /** `handleAccept`. */
    method HandleAccept(requestId: Id)
      modifies this
      ensures calls == old(calls) + Response(requests, requestId, me, true)
      ensures requests == old(requests) && reviews == old(reviews) && reviewModal == old(reviewModal)
      ensures activeTab == old(activeTab) && statusFilter == old(statusFilter)
    {
      var found := IndexOf(requests, requestId, SwapKey);
      if found.None? {
        return;
      }
      var sender := requests[found.value].fromUserId;
      calls := calls + [UpdateStatus(requestId, Accepted)];
      calls := calls + [Notify(sender, NoteSwapAccepted, "Request Accepted!", NameOf(me) + " accepted your swap request", false)];
    }

    /** `handleReject`. */
    method HandleReject(requestId: Id)
      modifies this
      ensures calls == old(calls) + Response(requests, requestId, me, false)
      ensures requests == old(requests) && reviews == old(reviews) && reviewModal == old(reviewModal)
      ensures activeTab == old(activeTab) && statusFilter == old(statusFilter)
    {
      var found := IndexOf(requests, requestId, SwapKey);
      if found.None? {
        return;
      }
      var sender := requests[found.value].fromUserId;
      calls := calls + [UpdateStatus(requestId, Rejected)];
      calls := calls + [Notify(sender, NoteSwapRejected, "Request Declined", NameOf(me) + " declined your swap request", false)];
    }

    /** `handleComplete`: no lookup; the review dialog opens for the request. */
    method HandleComplete(requestId: Id)
      modifies this
      ensures calls == old(calls) + [UpdateStatus(requestId, Completed)] && reviewModal == Some(requestId)
      ensures requests == old(requests) && reviews == old(reviews)
      ensures activeTab == old(activeTab) && statusFilter == old(statusFilter)
    {
      calls := calls + [UpdateStatus(requestId, Completed)];
      reviewModal := Some(requestId);
    }

    /** `handleDelete`: only when the confirmation dialog is accepted. */
    method HandleDelete(requestId: Id, confirmed: bool)
      modifies this
      ensures calls == old(calls) + (if confirmed then [DeleteRequest(requestId)] else [])
      ensures requests == old(requests) && reviews == old(reviews) && reviewModal == old(reviewModal)
      ensures activeTab == old(activeTab) && statusFilter == old(statusFilter)
    {
      if confirmed {
        calls := calls + [DeleteRequest(requestId)];
      }
    }

    /** `handleSubmitReview`: nothing without the request or a signed-in
        user; else the review of the tab's counterparty, a notice to them,
        and the dialog closes. */
    method HandleSubmitReview(requestId: Id, rating: int, comment: string)
      modifies this
      ensures var found := IndexOf(requests, requestId, SwapKey);
        if found.None? || me.None? then
          calls == old(calls) && reviewModal == old(reviewModal)
        else
          var reviewee := Reviewee(requests[found.value], activeTab);
          calls == old(calls) + [
            PostReview(requestId, me.value.id, reviewee, rating, comment),
            Notify(reviewee, NoteReview, "New Review", me.value.name + " left you a review", false)] &&
          reviewModal.None?
      ensures requests == old(requests) && reviews == old(reviews)
      ensures activeTab == old(activeTab) && statusFilter == old(statusFilter)
    {
      var found := IndexOf(requests, requestId, SwapKey);
      if found.None? || me.None? {
        return;
      }
      var reviewee := Reviewee(requests[found.value], activeTab);
      calls := calls + [PostReview(requestId, me.value.id, reviewee, rating, comment)];
      calls := calls + [Notify(reviewee, NoteReview, "New Review", me.value.name + " left you a review", false)];
      reviewModal := None;
    }
  }
}
