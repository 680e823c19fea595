/** The browse page: the members a signed-in user may look through,
    narrowed by the search results and a location, then sorted. */
module BrowsePage {
  import opened Collections
  import opened Text
  import opened Schemas

  /** A user as the browse page receives them; skills are the names the
      server's view shows. */
  datatype Member = Member(
    id: Id,
    isPublic: bool,
    isAdmin: bool,
    location: Option<string>,
    rating: real,
    joinedDate: Timestamp,
    skillsOffered: seq<string>,
    skillsWanted: seq<string>)

  datatype SortBy = Relevance | ByRating | Newest

  /** Someone else, public and not an admin. */
  predicate Browsable(u: Member, me: Option<Id>) {
    (me.None? || u.id != me.value) && u.isPublic && !u.isAdmin
  }

  /** `user.location?.toLowerCase().includes(filter.toLowerCase())`: the
      filter is used untrimmed, and a user without a location never matches. */
  predicate Near(u: Member, location: string) {
    u.location.Some? && ContainsIgnoringCase(u.location.value, location)
  }

  /** Whether a user passes every filter that is switched on: the search
      filter only for a non-blank query, the location filter only for a
      non-blank location. */
  predicate Eligible(u: Member, me: Option<Id>, query: string, results: seq<Id>, location: string): (r: bool)
    ensures r ==> Browsable(u, me)
    ensures r && !IsBlank(query) ==> u.id in results
    ensures r && !IsBlank(location) ==> u.location.Some?
    ensures IsBlank(query) && IsBlank(location) ==> (r <==> Browsable(u, me))
  {
    Browsable(u, me) && (IsBlank(query) || u.id in results) && (IsBlank(location) || Near(u, location))
  }

  /** How many offered and wanted skills contain the query, ignoring case. */
  function MatchCount(u: Member, query: string): (n: nat)
    ensures n <= |u.skillsOffered| + |u.skillsWanted|
  {
    |Filter(u.skillsOffered + u.skillsWanted, (s: string) => ContainsIgnoringCase(s, query))|
  }

  function RatingKey(u: Member): real { u.rating }
  function JoinedKey(u: Member): real { u.joinedDate as real }
  function MatchKey(query: string): Member -> real {
    (u: Member) => MatchCount(u, query) as real
  }

  function BrowsableSelector(me: Option<Id>): Member -> bool {
    (u: Member) => Browsable(u, me)
  }

  function SearchSelector(me: Option<Id>, query: string, results: seq<Id>): Member -> bool {
    (u: Member) => Browsable(u, me) && (IsBlank(query) || u.id in results)
  }

  function EligibleSelector(me: Option<Id>, query: string, results: seq<Id>, location: string): Member -> bool {
    (u: Member) => Eligible(u, me, query, results, location)
  }

  /** `filteredUsers`. The result holds each eligible user as often as the
      input does and nobody else; it is ordered by rating or join date when
      asked, by match count for relevance with a query, and otherwise keeps
      the input order. */
  method FilterUsers(users: seq<Member>, me: Option<Id>, query: string, results: seq<Id>, location: string, sortBy: SortBy)
    returns (filtered: seq<Member>)
    ensures multiset(filtered) == multiset(Filter(users, EligibleSelector(me, query, results, location)))
    ensures sortBy == ByRating ==> SortedDesc(filtered, RatingKey)
    ensures sortBy == Newest ==> SortedDesc(filtered, JoinedKey)
    ensures sortBy == Relevance && !IsBlank(query) ==> SortedDesc(filtered, MatchKey(query))
    ensures sortBy == Relevance && IsBlank(query) ==> filtered == Filter(users, EligibleSelector(me, query, results, location))
  {
    filtered := Filter(users, BrowsableSelector(me));
    if !IsBlank(query) {
      FilterTwice(users, BrowsableSelector(me), (u: Member) => u.id in results, SearchSelector(me, query, results));
      filtered := Filter(filtered, (u: Member) => u.id in results);
    } else {
      FilterSame(users, BrowsableSelector(me), SearchSelector(me, query, results));
    }
    assert filtered == Filter(users, SearchSelector(me, query, results));
    if !IsBlank(location) {
      FilterTwice(users, SearchSelector(me, query, results), (u: Member) => Near(u, location),
        EligibleSelector(me, query, results, location));
      filtered := Filter(filtered, (u: Member) => Near(u, location));
    } else {
      FilterSame(users, SearchSelector(me, query, results), EligibleSelector(me, query, results, location));
    }
    assert filtered == Filter(users, EligibleSelector(me, query, results, location));
    match sortBy {
      case ByRating =>
        filtered := SortDesc(filtered, RatingKey);
      case Newest =>
        filtered := SortDesc(filtered, JoinedKey);
      case Relevance =>
        if !IsBlank(query) {
          filtered := SortDesc(filtered, MatchKey(query));
        }
    }
  }

  /** What the page shows: only eligible users from the input, never the
      viewer, a private user or an admin, and every eligible user. */
  lemma ShowsEligible(users: seq<Member>, me: Option<Id>, query: string, results: seq<Id>, location: string, filtered: seq<Member>)
    requires multiset(filtered) == multiset(Filter(users, EligibleSelector(me, query, results, location)))
    ensures forall u :: u in filtered <==> u in users && Eligible(u, me, query, results, location)
    ensures forall u :: u in filtered ==> u.isPublic && !u.isAdmin && (me.None? || u.id != me.value)
    ensures multiset(filtered) <= multiset(users)
  {
    var sel := EligibleSelector(me, query, results, location);
    FilterMultiset(users, sel);
    forall u ensures u in filtered <==> u in users && Eligible(u, me, query, results, location) {
      assert u in filtered <==> u in multiset(filtered);
      assert u in Filter(users, sel) <==> u in multiset(Filter(users, sel));
      if u in Filter(users, sel) {
        InFilter(users, sel, u);
      }
      if u in users && sel(u) {
        var i :| 0 <= i < |users| && users[i] == u;
      }
    }
  }
}
