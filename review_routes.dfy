/** The review routes: the reviews a user received (public) and gave, and
    creating a review, which recomputes the reviewee's rating as the mean
    of every review they received. */
module ReviewRoutes {
  import opened Collections
  import opened Text
  import opened Schemas
  import opened Database

  // --------------------------------------------------------- rating mean

  /** `reviews.reduce((sum, r) => sum + r.rating, 0)`. */
  function SumRatings(rs: seq<Review>): int {
    if rs == [] then 0 else rs[0].rating + SumRatings(rs[1..])
  }

  predicate AllStarred(rs: seq<Review>) {
    forall i :: 0 <= i < |rs| ==> InStarRange(rs[i].rating)
  }

  /** With every rating in 1..5, the sum lies between the count and five times the count. */
  lemma {:induction false} SumBounds(rs: seq<Review>)
    requires AllStarred(rs)
    ensures |rs| <= SumRatings(rs) <= 5 * |rs|
  {
    if rs != [] {
      assert AllStarred(rs[1..]) by {
        forall i | 0 <= i < |rs| - 1 ensures InStarRange(rs[1..][i].rating) {
          assert rs[1..][i] == rs[i + 1];
        }
      }
      SumBounds(rs[1..]);
      assert InStarRange(rs[0].rating);
    }
  }

  lemma MeanBetween(sum: real, n: real)
    requires n > 0.0 && n <= sum <= 5.0 * n
    ensures 1.0 <= sum / n <= 5.0
  {
  }

  /** The average rating written back to the reviewee, as an exact real. */
  function MeanRating(rs: seq<Review>): (r: real)
    requires |rs| > 0
    ensures AllStarred(rs) ==> 1.0 <= r <= 5.0
  {
    var r := SumRatings(rs) as real / |rs| as real;
    assert AllStarred(rs) ==> 1.0 <= r <= 5.0 by {
      if AllStarred(rs) {
        SumBounds(rs);
        MeanBetween(SumRatings(rs) as real, |rs| as real);
      }
    }
    r
  }

  // ------------------------------------------------------------ listings

  function ReceivedSelector(userId: Id): Review -> bool {
    (r: Review) => r.revieweeId == userId
  }

  function GivenSelector(userId: Id): Review -> bool {
    (r: Review) => r.reviewerId == userId
  }

  /** GET `/user/:userId`, open to anyone: the reviews about the user, newest first. */
  function ListReceived(reviews: seq<Review>, userId: Id, page: int, limit: int): (r: Option<Listing<Review>>)
    ensures r.None? <==> SkipRefused(page, limit)
    ensures r.Some? ==> forall i :: 0 <= i < |r.value.items| ==>
      r.value.items[i] in reviews && r.value.items[i].revieweeId == userId
    ensures r.Some? ==> SortedDesc(r.value.items, ReviewCreated)
    ensures r.Some? ==> r.value.total == |Filter(reviews, ReceivedSelector(userId))|
    ensures r.Some? ==> r.value.pages == PageCount(r.value.total, limit)
    ensures r.Some? && limit != 0 ==> |r.value.items| <= Abs(limit)
    ensures r.Some? ==>
      && Skip(page, limit) >= 0
      && IsPage(r.value.items, Filter(reviews, ReceivedSelector(userId)), ReviewCreated, Skip(page, limit), Abs(limit))
  {
    Query(reviews, ReceivedSelector(userId), ReviewCreated, page, limit)
  }

  /** GET `/given`: the caller's own reviews, newest first. */
  function ListGiven(users: seq<User>, reviews: seq<Review>, caller: Id, page: int, limit: int): (r: Outcome<Listing<Review>>)
    ensures r.Fail? <==> FindUser(users, caller).None? || SkipRefused(page, limit)
    ensures r.Fail? ==> r.code == (if FindUser(users, caller).None? then 401 else 500)
    ensures r.Ok? ==> forall i :: 0 <= i < |r.value.items| ==>
      r.value.items[i] in reviews && r.value.items[i].reviewerId == caller
    ensures r.Ok? ==> SortedDesc(r.value.items, ReviewCreated)
    ensures r.Ok? ==> r.value.total == |Filter(reviews, GivenSelector(caller))|
    ensures r.Ok? ==> r.value.pages == PageCount(r.value.total, limit)
    ensures r.Ok? && limit != 0 ==> |r.value.items| <= Abs(limit)
    ensures r.Ok? ==>
      && Skip(page, limit) >= 0
      && IsPage(r.value.items, Filter(reviews, GivenSelector(caller)), ReviewCreated, Skip(page, limit), Abs(limit))
  {
    if FindUser(users, caller).None? then
      Fail(401)
    else
      match Query(reviews, GivenSelector(caller), ReviewCreated, page, limit)
      case None => Fail(500)
      case Some(l) => Ok(l)
  }

  // -------------------------------------------------------------- create

  /** The request body of POST `/`. */
  datatype ReviewDraft = ReviewDraft(
    swapRequestId: Id,
    revieweeId: Id,
    rating: int,
    comment: string,
    skillRating: Option<int>,
    communicationRating: Option<int>,
    punctualityRating: Option<int>,
    helpfulnessRating: Option<int>,
    tags: seq<string>,
    wouldSwapAgain: Option<bool>)

  /** The `findOne({ swapRequestId, reviewerId })` of the duplicate check. */
  function HasReviewed(reviews: seq<Review>, swapId: Id, reviewer: Id): (r: bool)
    ensures r <==> exists i :: 0 <= i < |reviews| && reviews[i].swapRequestId == swapId && reviews[i].reviewerId == reviewer
  {
    if reviews == [] then
      false
    else if reviews[0].swapRequestId == swapId && reviews[0].reviewerId == reviewer then
      true
    else
      var r := HasReviewed(reviews[1..], swapId, reviewer);
      assert forall i :: 1 <= i < |reviews| ==> reviews[i] == reviews[1..][i - 1];
      r
  }

  /** No reviewer has two reviews of the same swap. */
  ghost predicate OnePerReviewer(reviews: seq<Review>) {
    forall i, j :: 0 <= i < j < |reviews| ==>
      !(reviews[i].swapRequestId == reviews[j].swapRequestId && reviews[i].reviewerId == reviews[j].reviewerId)
  }

  /** The guards before the new review is built: a stored caller who is a
      party to a stored swap and has not reviewed it yet. */
  predicate MayReview(users: seq<User>, swaps: seq<SwapRequest>, reviews: seq<Review>, caller: Id, swapId: Id) {
    FindUser(users, caller).Some? && IndexOf(swaps, swapId, SwapKey).Some? &&
    IsParty(swaps[IndexOf(swaps, swapId, SwapKey).value], caller) &&
    !HasReviewed(reviews, swapId, caller)
  }

  /** Whether the review built from the draft passes the schema's bounds. */
  predicate DraftValid(d: ReviewDraft) {
    InStarRange(d.rating) &&
    OptionalStars(d.skillRating) && OptionalStars(d.communicationRating) &&
    OptionalStars(d.punctualityRating) && OptionalStars(d.helpfulnessRating)
  }

  /** The stored review: the draft's fields as given, the caller as
      reviewer, `wouldSwapAgain` defaulting to true. */
  predicate Recorded(r: Review, d: ReviewDraft, caller: Id, id: Id, now: Timestamp) {
    r.id == id && r.swapRequestId == d.swapRequestId && r.reviewerId == caller &&
    r.revieweeId == d.revieweeId && r.rating == d.rating && r.comment == d.comment &&
    r.skillRating == d.skillRating && r.communicationRating == d.communicationRating &&
    r.punctualityRating == d.punctualityRating && r.helpfulnessRating == d.helpfulnessRating &&
    r.tags == d.tags &&
    r.wouldSwapAgain == (if d.wouldSwapAgain.Some? then d.wouldSwapAgain.value else true) &&
    r.createdAt == now
  }

  /** `review.save()`: the new review is appended, and the caller's
      not having reviewed this swap before keeps one review per reviewer. */
  method StoreReview(s: Store, caller: Id, d: ReviewDraft, now: Timestamp) returns (r: Review)
    requires s.Valid() && OnePerReviewer(s.reviews)
    requires !HasReviewed(s.reviews, d.swapRequestId, caller) && DraftValid(d)
    modifies s
    ensures s.Valid() && OnePerReviewer(s.reviews)
    ensures s.users == old(s.users) && s.swaps == old(s.swaps) && s.notifications == old(s.notifications)
    ensures s.reviews == old(s.reviews) + [r] && s.nextId == old(s.nextId) + 1
    ensures Recorded(r, d, caller, old(s.nextId), now)
    ensures HasReviewed(s.reviews, d.swapRequestId, caller)
  {
    var again := if d.wouldSwapAgain.Some? then d.wouldSwapAgain.value else DefaultWouldSwapAgain;
    r := Review(s.nextId, d.swapRequestId, caller, d.revieweeId, d.rating, d.comment,
      d.skillRating, d.communicationRating, d.punctualityRating, d.helpfulnessRating, d.tags, again, now);
    ghost var before := s.reviews;
    s.InsertReview(r);
    assert s.reviews[|before|] == r;
  }

  /** The reviewee's `rating` and `totalReviews` after a review: the mean and
      the number of all reviews they received, the mean within the star
      range; every other user, and a missing reviewee, left as they were. */
  ghost predicate Rerated(before: seq<User>, after: seq<User>, reviews: seq<Review>, reviewee: Id) {
    (FindUser(before, reviewee).None? ==> after == before) &&
    (FindUser(before, reviewee).Some? ==>
      var k := IndexOf(before, reviewee, UserKey).value;
      var received := Filter(reviews, ReceivedSelector(reviewee));
      |received| > 0 &&
      after == before[k := before[k].(rating := MeanRating(received), totalReviews := |received|)] &&
      1.0 <= after[k].rating <= 5.0)
  }

  /** The notification text, e.g. `Ada left you a 5-star review`. */
  function ReviewMessage(reviewerName: string, rating: int): (m: string)
    requires InStarRange(rating)
    ensures |m| == |reviewerName| + 25 && m[..|reviewerName|] == reviewerName
    ensures m[|reviewerName| + 12] as int - '0' as int == rating
  {
    reviewerName + " left you a " + DigitString(rating) + "-star review"
  }

  /** The `review` notification sent to the reviewee. */
  predicate ReviewNotice(n: Notification, reviewerName: string, reviewee: Id, reviewId: Id, rating: int)
    requires InStarRange(rating)
  {
    Notifies(n, reviewee, NoteReview, ReviewData(reviewId, rating)) &&
    n.title == "New Review" && n.message == ReviewMessage(reviewerName, rating)
  }

  method NotifyReviewee(s: Store, reviewerName: string, reviewee: Id, reviewId: Id, rating: int, now: Timestamp)
    requires s.Valid() && InStarRange(rating)
    modifies s
    ensures s.Valid()
    ensures s.users == old(s.users) && s.swaps == old(s.swaps) && s.reviews == old(s.reviews)
    ensures AppendedOne(old(s.notifications), s.notifications)
    ensures ReviewNotice(s.notifications[|old(s.notifications)|], reviewerName, reviewee, reviewId, rating)
  {
    var n := Notification(s.nextId, reviewee, NoteReview, "New Review", ReviewMessage(reviewerName, rating),
      DefaultIsRead, ReviewData(reviewId, rating), "", now, now);
    s.InsertNotification(n);
    assert s.notifications[|old(s.notifications)|] == n;
  }

  /** The checks of POST `/` in order: 401 for an unknown caller, 404 for
      an unknown swap, 403 for a caller who is neither party, 400 for a
      second review of the same swap, 500 for a rating the schema
      refuses, and 201 when the review can be stored. */
  function ReviewGate(users: seq<User>, swaps: seq<SwapRequest>, reviews: seq<Review>, caller: Id, d: ReviewDraft): (code: int)
    ensures code == 401 <==> FindUser(users, caller).None?
    ensures code == 404 <==> FindUser(users, caller).Some? && IndexOf(swaps, d.swapRequestId, SwapKey).None?
    ensures code == 403 <==> (FindUser(users, caller).Some? && IndexOf(swaps, d.swapRequestId, SwapKey).Some? &&
      !IsParty(swaps[IndexOf(swaps, d.swapRequestId, SwapKey).value], caller))
    ensures code == 400 <==> (FindUser(users, caller).Some? && IndexOf(swaps, d.swapRequestId, SwapKey).Some? &&
      IsParty(swaps[IndexOf(swaps, d.swapRequestId, SwapKey).value], caller) &&
      HasReviewed(reviews, d.swapRequestId, caller))
    ensures code == 500 <==> MayReview(users, swaps, reviews, caller, d.swapRequestId) && !DraftValid(d)
    ensures code == 201 <==> MayReview(users, swaps, reviews, caller, d.swapRequestId) && DraftValid(d)
  {
    if FindUser(users, caller).None? then 401
    else if IndexOf(swaps, d.swapRequestId, SwapKey).None? then 404
    else if !IsParty(swaps[IndexOf(swaps, d.swapRequestId, SwapKey).value], caller) then 403
    else if HasReviewed(reviews, d.swapRequestId, caller) then 400
    else if !DraftValid(d) then 500
    else 201
  }

  /** POST `/`. The reviewee is taken from the body as given: the route
      neither checks that they are the other party nor that the swap is
      completed. */
  method CreateReview(s: Store, caller: Id, d: ReviewDraft, now: Timestamp) returns (code: int)
    requires s.Valid() && OnePerReviewer(s.reviews)
    modifies s
    ensures s.Valid() && OnePerReviewer(s.reviews)
    ensures s.swaps == old(s.swaps)
    ensures code == ReviewGate(old(s.users), old(s.swaps), old(s.reviews), caller, d)
    ensures code != 201 ==> s.users == old(s.users) && s.reviews == old(s.reviews) && s.notifications == old(s.notifications)
    ensures code == 201 ==> |s.reviews| == |old(s.reviews)| + 1 && s.reviews[..|old(s.reviews)|] == old(s.reviews)
    ensures code == 201 ==> Recorded(s.reviews[|old(s.reviews)|], d, caller, old(s.nextId), now)
    ensures code == 201 ==> HasReviewed(s.reviews, d.swapRequestId, caller)
    ensures code == 201 ==> Rerated(old(s.users), s.users, s.reviews, d.revieweeId)
    ensures code == 201 ==> AppendedOne(old(s.notifications), s.notifications)
    ensures code == 201 ==>
      ReviewNotice(s.notifications[|old(s.notifications)|], FindUser(old(s.users), caller).value.name,
        d.revieweeId, s.reviews[|old(s.reviews)|].id, d.rating)
  {
    code := ReviewGate(s.users, s.swaps, s.reviews, caller, d);
    if code != 201 {
      return;
    }
    var me := FindUser(s.users, caller);
    var r := StoreReview(s, caller, d, now);
    RecomputeRating(s, d.revieweeId);
    NotifyReviewee(s, me.value.name, d.revieweeId, r.id, d.rating, now);
  }

  /** `User.findByIdAndUpdate(revieweeId, { rating, totalReviews })` with the
      mean and count of every review the user received; a missing user is
      left alone. */
  method RecomputeRating(s: Store, reviewee: Id)
    requires s.Valid() && exists i :: 0 <= i < |s.reviews| && s.reviews[i].revieweeId == reviewee
    modifies s
    ensures s.Valid()
    ensures s.swaps == old(s.swaps) && s.reviews == old(s.reviews) && s.notifications == old(s.notifications)
    ensures s.nextId == old(s.nextId)
    ensures Rerated(old(s.users), s.users, s.reviews, reviewee)
  {
    var received := Filter(s.reviews, ReceivedSelector(reviewee));
    var i :| 0 <= i < |s.reviews| && s.reviews[i].revieweeId == reviewee;
    assert s.reviews[i] in received;
    var found := IndexOf(s.users, reviewee, UserKey);
    if found.Some? {
      assert AllStarred(received) by {
        forall j | 0 <= j < |received| ensures InStarRange(received[j].rating) {
          InFilter(s.reviews, ReceivedSelector(reviewee), received[j]);
        }
      }
      var k := found.value;
      var u := s.users[k].(rating := MeanRating(received), totalReviews := |received|);
      s.ReplaceUser(k, u);
    }
  }
}
