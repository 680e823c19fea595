/** The user routes: the public directory and profile pages, the caller's
    own profile update, and the admin listing, update and deletion of
    users. Also the client view of a user (`transformUser`) and the
    normalisation of skill and availability strings shared with
    registration. */
module UserRoutes {
  import opened Collections
  import opened Text
  import opened Schemas
  import opened Database

  // ------------------------------------------------ string list entries

  /** The entries kept from a list of strings the client sends: the
      non-blank ones, trimmed, in their original order. */
  function Entries(xs: seq<string>): (r: seq<string>)
    ensures |r| <= |xs|
  {
    if xs == [] then
      []
    else
      var rest := Entries(xs[1..]);
      if IsBlank(xs[0]) then rest else [Trim(xs[0])] + rest
  }

  /** A kept entry is non-empty and has nothing left to trim. */
  predicate Clean(e: string) {
    e != "" && Trim(e) == e
  }

  lemma {:induction false} EntriesNonEmpty(xs: seq<string>)
    ensures forall i :: 0 <= i < |Entries(xs)| ==> Entries(xs)[i] != ""
  {
    if xs != [] {
      EntriesNonEmpty(xs[1..]);
      var rest := Entries(xs[1..]);
      if !IsBlank(xs[0]) {
        var r := [Trim(xs[0])] + rest;
        assert Entries(xs) == r;
        forall i | 0 <= i < |r| ensures r[i] != "" {
          if i > 0 {
            assert r[i] == rest[i - 1];
          }
        }
      }
    }
  }

  lemma {:induction false} EntriesClean(xs: seq<string>)
    ensures forall i :: 0 <= i < |Entries(xs)| ==> Clean(Entries(xs)[i])
  {
    if xs != [] {
      EntriesClean(xs[1..]);
      var rest := Entries(xs[1..]);
      if !IsBlank(xs[0]) {
        TrimIdempotent(xs[0]);
        var r := [Trim(xs[0])] + rest;
        assert Entries(xs) == r;
        forall i | 0 <= i < |r| ensures Clean(r[i]) {
          if i > 0 {
            assert r[i] == rest[i - 1];
          }
        }
      }
    }
  }

  /** Every non-blank input survives, trimmed. */
  lemma {:induction false} EntriesComplete(xs: seq<string>)
    ensures forall i :: 0 <= i < |xs| && !IsBlank(xs[i]) ==> Trim(xs[i]) in Entries(xs)
  {
    if xs != [] {
      EntriesComplete(xs[1..]);
      var rest := Entries(xs[1..]);
      assert forall e :: e in rest ==> e in Entries(xs);
      forall i | 0 <= i < |xs| && !IsBlank(xs[i]) ensures Trim(xs[i]) in Entries(xs) {
        if i > 0 {
          assert xs[i] == xs[1..][i - 1];
          assert Trim(xs[i]) in rest;
        } else {
          assert Entries(xs)[0] == Trim(xs[0]);
        }
      }
    }
  }

  /** Every kept entry is the trim of a non-blank input. */
  lemma {:induction false} EntriesSound(xs: seq<string>)
    ensures forall e :: e in Entries(xs) ==> exists i :: 0 <= i < |xs| && !IsBlank(xs[i]) && e == Trim(xs[i])
  {
    if xs != [] {
      EntriesSound(xs[1..]);
      var rest := Entries(xs[1..]);
      forall e | e in Entries(xs) ensures exists i :: 0 <= i < |xs| && !IsBlank(xs[i]) && e == Trim(xs[i]) {
        if !IsBlank(xs[0]) && e == Trim(xs[0]) {
          assert 0 < |xs| && !IsBlank(xs[0]) && e == Trim(xs[0]);
        } else {
          assert e in rest;
          var i :| 0 <= i < |xs[1..]| && !IsBlank(xs[1..][i]) && e == Trim(xs[1..][i]);
          assert xs[i + 1] == xs[1..][i];
          assert 0 <= i + 1 < |xs| && !IsBlank(xs[i + 1]) && e == Trim(xs[i + 1]);
        }
      }
    }
  }

  /** A list of already trimmed, non-blank strings is kept as it is. */
  lemma {:induction false} EntriesOfClean(ys: seq<string>)
    requires forall i :: 0 <= i < |ys| ==> Clean(ys[i])
    ensures Entries(ys) == ys
  {
    if ys != [] {
      var tail := ys[1..];
      forall i | 0 <= i < |tail| ensures Clean(tail[i]) {
        assert tail[i] == ys[i + 1];
      }
      EntriesOfClean(tail);
      assert Trim(ys[0]) == ys[0] && !IsBlank(ys[0]);
      assert Entries(ys) == [ys[0]] + tail;
      assert ys == [ys[0]] + tail;
    }
  }

  /** Normalising twice is normalising once: saving a profile read back
      from the server changes nothing. */
  lemma EntriesIdempotent(xs: seq<string>)
    ensures Entries(Entries(xs)) == Entries(xs)
  {
    EntriesClean(xs);
    EntriesOfClean(Entries(xs));
  }

  // ------------------------------------------------ skill and slot lists

  /** A skill built from a string: the category `General`, the level given, no tags, no description. */
  function SkillFrom(name: string, level: SkillLevel): Skill {
    Skill(name, "General", level, [], "")
  }

  /** The `skillsOffered` strings of a request become intermediate-level skills. */
  function OfferedSkills(xs: seq<string>): (r: seq<Skill>)
    ensures |r| == |Entries(xs)|
    ensures forall i :: 0 <= i < |r| ==> ValidSkill(r[i]) && r[i].level == Intermediate
  {
    var es := Entries(xs);
    EntriesNonEmpty(xs);
    seq(|es|, i requires 0 <= i < |es| => SkillFrom(es[i], Intermediate))
  }

  /** The `skillsWanted` strings of a request become beginner-level skills. */
  function WantedSkills(xs: seq<string>): (r: seq<Skill>)
    ensures |r| == |Entries(xs)|
    ensures forall i :: 0 <= i < |r| ==> ValidSkill(r[i]) && r[i].level == Beginner
  {
    var es := Entries(xs);
    EntriesNonEmpty(xs);
    seq(|es|, i requires 0 <= i < |es| => SkillFrom(es[i], Beginner))
  }

  /** The `availability` strings of a request become default slots described by them. */
  function SlotsFrom(xs: seq<string>): (r: seq<Slot>)
    ensures |r| == |Entries(xs)|
    ensures forall i :: 0 <= i < |r| ==> ValidSlot(r[i]) && r[i].description != ""
  {
    var es := Entries(xs);
    EntriesNonEmpty(xs);
    seq(|es|, i requires 0 <= i < |es| => DefaultSlot(es[i]))
  }

  // ---------------------------------------------------------- user view

  /** `skill.name || skill`: the name, or the whole skill when it has none. */
  datatype SkillView = SkillName(name: string) | RawSkill(skill: Skill)

  /** `slot.description || slot`: the description, or the whole slot when it has none. */
  datatype SlotView = Described(text: string) | RawSlot(slot: Slot)

  function ShowSkill(k: Skill): SkillView {
    if k.name != "" then SkillName(k.name) else RawSkill(k)
  }

  function ShowSlot(sl: Slot): SlotView {
    if sl.description != "" then Described(sl.description) else RawSlot(sl)
  }

  function ShowSkills(ks: seq<Skill>): seq<SkillView> {
    seq(|ks|, i requires 0 <= i < |ks| => ShowSkill(ks[i]))
  }

  function ShowSlots(sls: seq<Slot>): seq<SlotView> {
    seq(|sls|, i requires 0 <= i < |sls| => ShowSlot(sls[i]))
  }

  /** The user object the client receives. It has no password field; the
      email is present only where the route selects it. */
  datatype UserView = UserView(
    id: Id,
    name: string,
    email: Option<string>,
    location: string,
    profilePhoto: string,
    skillsOffered: seq<SkillView>,
    skillsWanted: seq<SkillView>,
    availability: seq<SlotView>,
    isPublic: bool,
    rating: real,
    totalReviews: int,
    isAdmin: bool,
    points: int,
    streak: int,
    level: int,
    lastActive: Timestamp,
    isOnline: bool,
    joinedDate: Timestamp,
    stats: Option<Stats>,
    preferences: Option<Preferences>)

  /** `transformUser`. */
  function Transform(u: User, withEmail: bool): (r: UserView)
    ensures r.id == u.id && r.name == u.name && r.isAdmin == u.isAdmin && r.rating == u.rating
    ensures r.isPublic == u.isPublic
    ensures r.email.Some? <==> withEmail
    ensures withEmail ==> r.email == Some(u.email)
    ensures |r.skillsOffered| == |u.skillsOffered| && |r.skillsWanted| == |u.skillsWanted|
    ensures |r.availability| == |u.availability|
  {
    UserView(u.id, u.name, if withEmail then Some(u.email) else None, u.location, u.profilePhoto,
      ShowSkills(u.skillsOffered), ShowSkills(u.skillsWanted), ShowSlots(u.availability),
      u.isPublic, u.rating, u.totalReviews, u.isAdmin, u.points, u.streak, u.level,
      u.lastActive, u.isOnline, u.createdAt, u.stats, u.preferences)
  }

  function Names(es: seq<string>): seq<SkillView> {
    seq(|es|, i requires 0 <= i < |es| => SkillName(es[i]))
  }

  function Descriptions(es: seq<string>): seq<SlotView> {
    seq(|es|, i requires 0 <= i < |es| => Described(es[i]))
  }

  lemma OfferedShown(xs: seq<string>)
    ensures ShowSkills(OfferedSkills(xs)) == Names(Entries(xs))
  {
    EntriesNonEmpty(xs);
  }

  lemma WantedShown(xs: seq<string>)
    ensures ShowSkills(WantedSkills(xs)) == Names(Entries(xs))
  {
    EntriesNonEmpty(xs);
  }

  lemma SlotsShown(xs: seq<string>)
    ensures ShowSlots(SlotsFrom(xs)) == Descriptions(Entries(xs))
  {
    EntriesNonEmpty(xs);
  }

  /** The strings a client stores as skills and availability are the
      strings it reads back in the view, trimmed and without the blank ones. */
  lemma ViewRoundTrip(u: User, offered: seq<string>, wanted: seq<string>, slots: seq<string>, withEmail: bool)
    requires u.skillsOffered == OfferedSkills(offered)
    requires u.skillsWanted == WantedSkills(wanted)
    requires u.availability == SlotsFrom(slots)
    ensures Transform(u, withEmail).skillsOffered == Names(Entries(offered))
    ensures Transform(u, withEmail).skillsWanted == Names(Entries(wanted))
    ensures Transform(u, withEmail).availability == Descriptions(Entries(slots))
  {
    OfferedShown(offered);
    WantedShown(wanted);
    SlotsShown(slots);
  }

  function Joined(v: UserView): real { v.joinedDate as real }

  function Views(us: seq<User>, withEmail: bool): (r: seq<UserView>)
    ensures |r| == |us|
    ensures forall i :: 0 <= i < |r| ==> r[i] == Transform(us[i], withEmail)
  {
    seq(|us|, i requires 0 <= i < |us| => Transform(us[i], withEmail))
  }

  /** The views of a list sorted by creation date are sorted by joining date. */
  lemma ViewsSorted(us: seq<User>, withEmail: bool)
    requires SortedDesc(us, UserCreated)
    ensures SortedDesc(Views(us, withEmail), Joined)
  {
    var vs := Views(us, withEmail);
    forall i, j | 0 <= i < j < |vs| ensures Joined(vs[i]) >= Joined(vs[j]) {
      assert Joined(vs[i]) == UserCreated(us[i]) && Joined(vs[j]) == UserCreated(us[j]);
    }
  }

  /** `v` is the view of a stored user that `sel` accepts. */
  ghost predicate Shows(users: seq<User>, v: UserView, sel: User -> bool, withEmail: bool) {
    exists u :: u in users && sel(u) && v == Transform(u, withEmail)
  }

  /** A listing of views of the users a query selected. */
  function ViewListing(l: Listing<User>, withEmail: bool): (r: Listing<UserView>)
    ensures |r.items| == |l.items| && r.total == l.total && r.pages == l.pages
    ensures r.page == l.page && r.limit == l.limit
  {
    Listing(Views(l.items, withEmail), l.page, l.limit, l.total, l.pages)
  }

  /** What every user listing promises of its page. */
  lemma ViewListingShows(users: seq<User>, l: Listing<User>, sel: User -> bool, withEmail: bool)
    requires forall i :: 0 <= i < |l.items| ==> l.items[i] in users && sel(l.items[i])
    requires SortedDesc(l.items, UserCreated)
    ensures forall i :: 0 <= i < |ViewListing(l, withEmail).items| ==> Shows(users, ViewListing(l, withEmail).items[i], sel, withEmail)
    ensures SortedDesc(ViewListing(l, withEmail).items, Joined)
  {
    ViewsSorted(l.items, withEmail);
    var vs := ViewListing(l, withEmail).items;
    forall i | 0 <= i < |vs| ensures Shows(users, vs[i], sel, withEmail) {
      var u := l.items[i];
      assert u in users && sel(u) && vs[i] == Transform(u, withEmail);
    }
  }

  /** `items` are the views of a page of `matches`, in the sense of `IsPage`. */
  ghost predicate IsViewPage(items: seq<UserView>, matches: seq<User>, skip: nat, limit: nat, withEmail: bool) {
    exists s :: multiset(s) == multiset(matches) && SortedDesc(s, UserCreated) &&
      items == Views(Window(s, skip, limit), withEmail)
  }

  /** Transforming a page of users gives the views of that page. */
  lemma ViewListingPage(l: Listing<User>, matches: seq<User>, skip: nat, limit: nat, withEmail: bool)
    requires IsPage(l.items, matches, UserCreated, skip, limit)
    ensures IsViewPage(ViewListing(l, withEmail).items, matches, skip, limit, withEmail)
  {
    var s :| multiset(s) == multiset(matches) && SortedDesc(s, UserCreated) && l.items == Window(s, skip, limit);
    assert ViewListing(l, withEmail).items == Views(Window(s, skip, limit), withEmail);
  }

  // ------------------------------------------------------ public routes

  /** A skill name contains the search text, ignoring case. */
  predicate SkillMatches(ks: seq<Skill>, search: string) {
    exists i :: 0 <= i < |ks| && ContainsIgnoringCase(ks[i].name, search)
  }

  /** The query of GET `/`: public non-admin users; a non-empty `search`
      must occur in the name, the location or a skill name; a non-empty
      `location` must occur in the location. Both ignore case. */
  predicate PublicMatch(u: User, search: string, location: string) {
    u.isPublic && !u.isAdmin &&
    (search != "" ==>
      ContainsIgnoringCase(u.name, search) || ContainsIgnoringCase(u.location, search) ||
      SkillMatches(u.skillsOffered, search) || SkillMatches(u.skillsWanted, search)) &&
    (location != "" ==> ContainsIgnoringCase(u.location, location))
  }

  function PublicSelector(search: string, location: string): User -> bool {
    (u: User) => PublicMatch(u, search, location)
  }

  /** GET `/`: newest first, without emails. */
  function ListUsers(users: seq<User>, search: string, location: string, page: int, limit: int): (r: Outcome<Listing<UserView>>)
    ensures r.Fail? <==> SkipRefused(page, limit)
    ensures r.Fail? ==> r.code == 500
    ensures r.Ok? ==> forall i :: 0 <= i < |r.value.items| ==>
      Shows(users, r.value.items[i], PublicSelector(search, location), false) && r.value.items[i].email.None?
    ensures r.Ok? ==> SortedDesc(r.value.items, Joined)
    ensures r.Ok? ==> r.value.total == |Filter(users, PublicSelector(search, location))|
    ensures r.Ok? && limit != 0 ==> |r.value.items| <= Abs(limit)
    ensures r.Ok? ==> r.value.pages == PageCount(r.value.total, limit)
    ensures r.Ok? ==>
      && Skip(page, limit) >= 0
      && IsViewPage(r.value.items, Filter(users, PublicSelector(search, location)), Skip(page, limit), Abs(limit), false)
  {
    var sel := PublicSelector(search, location);
    match Query(users, sel, UserCreated, page, limit)
    case None => Fail(500)
    case Some(l) =>
      ViewListingShows(users, l, sel, false);
      ViewListingPage(l, Filter(users, sel), Skip(page, limit), Abs(limit), false);
      Ok(ViewListing(l, false))
  }

  /** GET `/:id`: a private profile is hidden unless it belongs to an admin. */
  function GetUser(users: seq<User>, id: Id): (r: Outcome<UserView>)
    ensures r.Fail? <==> FindUser(users, id).None? || (!FindUser(users, id).value.isPublic && !FindUser(users, id).value.isAdmin)
    ensures r.Fail? ==> r.code == 404
    ensures r.Ok? ==> r.value == Transform(FindUser(users, id).value, false)
    ensures r.Ok? ==> r.value.id == id && r.value.email.None?
  {
    match FindUser(users, id)
    case None => Fail(404)
    case Some(u) => if !u.isPublic && !u.isAdmin then Fail(404) else Ok(Transform(u, false))
  }

  /** Every user the directory lists can be opened, and shows the same view. */
  lemma ListedUserOpens(users: seq<User>, search: string, location: string, page: int, limit: int, i: nat)
    requires UniqueKeys(users, UserKey)
    requires ListUsers(users, search, location, page, limit).Ok?
    requires i < |ListUsers(users, search, location, page, limit).value.items|
    ensures GetUser(users, ListUsers(users, search, location, page, limit).value.items[i].id) ==
            Ok(ListUsers(users, search, location, page, limit).value.items[i])
  {
    ShownOpens(users, ListUsers(users, search, location, page, limit).value.items[i], search, location);
  }

  /** A view of a stored public non-admin opens to itself. */
  lemma ShownOpens(users: seq<User>, v: UserView, search: string, location: string)
    requires UniqueKeys(users, UserKey)
    requires Shows(users, v, PublicSelector(search, location), false)
    ensures GetUser(users, v.id) == Ok(v)
  {
    var u :| u in users && PublicSelector(search, location)(u) && v == Transform(u, false);
    FoundIsOnly(users, u.id, UserKey);
  }

  // ----------------------------------------------------- profile update

  /** The fields a request body may carry. Absent fields are None; a
      string list is present whenever it is sent, even empty. */
  datatype UserUpdate = UserUpdate(
    name: Option<string>,
    email: Option<string>,
    password: Option<string>,
    location: Option<string>,
    profilePhoto: Option<string>,
    skillsOffered: Option<seq<string>>,
    skillsWanted: Option<seq<string>>,
    availability: Option<seq<string>>,
    isPublic: Option<bool>,
    rating: Option<real>,
    isAdmin: Option<bool>,
    totalReviews: Option<int>,
    points: Option<int>,
    streak: Option<int>,
    level: Option<int>,
    lastActive: Option<Timestamp>,
    isOnline: Option<bool>,
    stats: Option<Stats>,
    preferences: Option<Preferences>)

  /** The string fields with their `trim` setters applied; the rest as it was. */
  function ApplyTexts(u: User, p: UserUpdate): (r: User)
    ensures r == u.(name := r.name, location := r.location, profilePhoto := r.profilePhoto,
                    isPublic := r.isPublic, rating := r.rating)
    ensures p.name.Some? ==> r.name == Trim(p.name.value)
    ensures p.name.None? ==> r.name == u.name
    ensures p.rating.Some? ==> r.rating == p.rating.value
    ensures p.rating.None? ==> r.rating == u.rating
    ensures p.location.Some? ==> r.location == Trim(p.location.value)
    ensures p.location.None? ==> r.location == u.location
    ensures p.profilePhoto.Some? ==> r.profilePhoto == Trim(p.profilePhoto.value)
    ensures p.profilePhoto.None? ==> r.profilePhoto == u.profilePhoto
    ensures p.isPublic.Some? ==> r.isPublic == p.isPublic.value
    ensures p.isPublic.None? ==> r.isPublic == u.isPublic
  {
    var name := if p.name.Some? then Trim(p.name.value) else u.name;
    var location := if p.location.Some? then Trim(p.location.value) else u.location;
    var photo := if p.profilePhoto.Some? then Trim(p.profilePhoto.value) else u.profilePhoto;
    var isPublic := if p.isPublic.Some? then p.isPublic.value else u.isPublic;
    var rating := if p.rating.Some? then p.rating.value else u.rating;
    u.(name := name, location := location, profilePhoto := photo, isPublic := isPublic, rating := rating)
  }

  /** The skill lists rebuilt from the strings sent; the rest as it was. */
  function ApplySkills(u: User, p: UserUpdate): (r: User)
    ensures r == u.(skillsOffered := r.skillsOffered, skillsWanted := r.skillsWanted)
    ensures p.skillsOffered.Some? ==> r.skillsOffered == OfferedSkills(p.skillsOffered.value)
    ensures p.skillsOffered.None? ==> r.skillsOffered == u.skillsOffered
    ensures p.skillsWanted.Some? ==> r.skillsWanted == WantedSkills(p.skillsWanted.value)
    ensures p.skillsWanted.None? ==> r.skillsWanted == u.skillsWanted
  {
    var offered := if p.skillsOffered.Some? then OfferedSkills(p.skillsOffered.value) else u.skillsOffered;
    var wanted := if p.skillsWanted.Some? then WantedSkills(p.skillsWanted.value) else u.skillsWanted;
    u.(skillsOffered := offered, skillsWanted := wanted)
  }

  /** The counters, presence and preference fields, which neither update
      route removes from the body: each one sent is stored as sent. */
  function ApplyActivity(u: User, p: UserUpdate): (r: User)
    ensures r == u.(totalReviews := r.totalReviews, points := r.points, streak := r.streak, level := r.level,
                    lastActive := r.lastActive, isOnline := r.isOnline, stats := r.stats, preferences := r.preferences)
    ensures r.totalReviews == (if p.totalReviews.Some? then p.totalReviews.value else u.totalReviews)
    ensures r.points == (if p.points.Some? then p.points.value else u.points)
    ensures r.streak == (if p.streak.Some? then p.streak.value else u.streak)
    ensures r.level == (if p.level.Some? then p.level.value else u.level)
    ensures r.lastActive == (if p.lastActive.Some? then p.lastActive.value else u.lastActive)
    ensures r.isOnline == (if p.isOnline.Some? then p.isOnline.value else u.isOnline)
    ensures p.stats.Some? ==> r.stats == p.stats
    ensures p.stats.None? ==> r.stats == u.stats
    ensures p.preferences.Some? ==> r.preferences == p.preferences
    ensures p.preferences.None? ==> r.preferences == u.preferences
  {
    u.(totalReviews := if p.totalReviews.Some? then p.totalReviews.value else u.totalReviews,
       points := if p.points.Some? then p.points.value else u.points,
       streak := if p.streak.Some? then p.streak.value else u.streak,
       level := if p.level.Some? then p.level.value else u.level,
       lastActive := if p.lastActive.Some? then p.lastActive.value else u.lastActive,
       isOnline := if p.isOnline.Some? then p.isOnline.value else u.isOnline,
       stats := if p.stats.Some? then p.stats else u.stats,
       preferences := if p.preferences.Some? then p.preferences else u.preferences)
  }

  /** The changes both update routes make the same way. */
  function ApplyCommon(u: User, p: UserUpdate): (r: User)
    ensures r.id == u.id && r.email == u.email && r.password == u.password && r.isAdmin == u.isAdmin
    ensures r.availability == u.availability
    ensures p.skillsOffered.Some? ==> r.skillsOffered == OfferedSkills(p.skillsOffered.value)
    ensures p.skillsWanted.Some? ==> r.skillsWanted == WantedSkills(p.skillsWanted.value)
    ensures p.name.Some? ==> r.name == Trim(p.name.value)
    ensures p.rating.Some? ==> r.rating == p.rating.value
  {
    ApplySkills(ApplyTexts(ApplyActivity(u, p), p), p)
  }

  /** What `runValidators` refuses in either update: a name that trims to
      nothing, or a rating outside 0..5. */
  predicate CommonRejected(p: UserUpdate): (r: bool)
    ensures r ==> forall u :: !ValidUser(ApplyCommon(u, p))
  {
    (p.name.Some? && Trim(p.name.value) == "") ||
    (p.rating.Some? && !(0.0 <= p.rating.value <= 5.0))
  }

  /** A valid user stays valid under the common changes the validators let through. */
  lemma CommonKeepsValid(u: User, p: UserUpdate)
    requires ValidUser(u) && !CommonRejected(p)
    ensures ValidUser(ApplyCommon(u, p))
  {
    var a := ApplyActivity(u, p);
    assert ValidUser(a);
    var t := ApplyTexts(a, p);
    assert ValidUser(t);
  }

  /** The caller's own update: `password`, `email` and `isAdmin` are
      dropped from the body, and availability strings become slots. */
  function ApplyProfile(u: User, p: UserUpdate): (r: User)
    ensures r.id == u.id && r.email == u.email && r.password == u.password && r.isAdmin == u.isAdmin
    ensures p.availability.Some? ==> r.availability == SlotsFrom(p.availability.value)
    ensures p.availability.None? ==> r.availability == u.availability
    ensures p.totalReviews.Some? ==> r.totalReviews == p.totalReviews.value
    ensures p.totalReviews.None? ==> r.totalReviews == u.totalReviews
    ensures r == ApplyCommon(u, p).(availability :=
      if p.availability.Some? then SlotsFrom(p.availability.value) else u.availability)
    ensures ValidUser(u) && !CommonRejected(p) ==> ValidUser(r)
  {
    var c := ApplyCommon(u, p);
    var r := c.(availability := if p.availability.Some? then SlotsFrom(p.availability.value) else c.availability);
    assert ValidUser(u) && !CommonRejected(p) ==> ValidUser(r) by {
      if ValidUser(u) && !CommonRejected(p) {
        CommonKeepsValid(u, p);
      }
    }
    r
  }

  /** The body of a profile update has no way to change the credentials or the admin flag. */
  lemma ProfileKeepsCredentials(u: User, p: UserUpdate, q: UserUpdate)
    requires p == q.(email := p.email, password := p.password, isAdmin := p.isAdmin)
    ensures ApplyProfile(u, p) == ApplyProfile(u, q)
  {
  }

  /** A body that carries only counters, presence or preferences is stored
      field for field by the profile route, the review count included. */
  lemma ActivityOnlyUpdate(u: User, p: UserUpdate)
    requires p.name.None? && p.location.None? && p.profilePhoto.None? && p.isPublic.None? && p.rating.None?
    requires p.skillsOffered.None? && p.skillsWanted.None? && p.availability.None?
    ensures ApplyProfile(u, p) == ApplyActivity(u, p)
  {
  }

  /** PUT `/profile`. */
  method UpdateProfile(s: Store, caller: Id, p: UserUpdate) returns (code: int, view: Option<UserView>)
    requires s.Valid()
    modifies s
    ensures s.Valid()
    ensures s.swaps == old(s.swaps) && s.reviews == old(s.reviews) && s.notifications == old(s.notifications)
    ensures code == 401 <==> FindUser(old(s.users), caller).None?
    ensures code == 500 <==> FindUser(old(s.users), caller).Some? && CommonRejected(p)
    ensures code == 200 <==> FindUser(old(s.users), caller).Some? && !CommonRejected(p)
    ensures code != 200 ==> s.users == old(s.users) && view.None?
    ensures code == 200 ==>
      var k := IndexOf(old(s.users), caller, UserKey).value;
      s.users == old(s.users)[k := ApplyProfile(old(s.users)[k], p)] &&
      view == Some(Transform(s.users[k], true))
  {
    var found := IndexOf(s.users, caller, UserKey);
    if found.None? {
      return 401, None;
    }
    if CommonRejected(p) {
      return 500, None;
    }
    var k := found.value;
    var u := ApplyProfile(s.users[k], p);
    OwnEmailFree(s.users, k);
    s.ReplaceUser(k, u);
    return 200, Some(Transform(u, true));
  }

  // ------------------------------------------------------- admin routes

  /** The admin list query: non-admin users; a non-empty `search` must occur
      in the name or the email; `status` narrows to public or private users. */
  predicate AdminMatch(u: User, search: string, status: string) {
    !u.isAdmin &&
    (search != "" ==> ContainsIgnoringCase(u.name, search) || ContainsIgnoringCase(u.email, search)) &&
    (status == "active" ==> u.isPublic) &&
    (status == "inactive" ==> !u.isPublic)
  }

  function AdminSelector(search: string, status: string): User -> bool {
    (u: User) => AdminMatch(u, search, status)
  }

  /** GET `/admin/all`: newest first, with emails. */
  function AdminListUsers(users: seq<User>, caller: Id, search: string, status: string, page: int, limit: int): (r: Outcome<Listing<UserView>>)
    ensures AdminGate(users, caller) != 200 ==> r == Fail(AdminGate(users, caller))
    ensures AdminGate(users, caller) == 200 ==> (r.Fail? <==> SkipRefused(page, limit))
    ensures AdminGate(users, caller) == 200 && r.Fail? ==> r.code == 500
    ensures r.Ok? ==> forall i :: 0 <= i < |r.value.items| ==>
      Shows(users, r.value.items[i], AdminSelector(search, status), true) && r.value.items[i].email.Some?
    ensures r.Ok? ==> SortedDesc(r.value.items, Joined)
    ensures r.Ok? ==> r.value.total == |Filter(users, AdminSelector(search, status))|
    ensures r.Ok? ==> r.value.pages == PageCount(r.value.total, limit)
    ensures r.Ok? && limit != 0 ==> |r.value.items| <= Abs(limit)
    ensures r.Ok? ==>
      && Skip(page, limit) >= 0
      && IsViewPage(r.value.items, Filter(users, AdminSelector(search, status)), Skip(page, limit), Abs(limit), true)
  {
    var gate := AdminGate(users, caller);
    if gate != 200 then
      Fail(gate)
    else
      var sel := AdminSelector(search, status);
      match Query(users, sel, UserCreated, page, limit)
      case None => Fail(500)
      case Some(l) =>
        ViewListingShows(users, l, sel, true);
        ViewListingPage(l, Filter(users, sel), Skip(page, limit), Abs(limit), true);
        Ok(ViewListing(l, true))
  }

  /** The public and the private users an admin can filter for make up
      all non-admin users. */
  lemma AdminStatusSplit(users: seq<User>, search: string)
    ensures |Filter(users, AdminSelector(search, "active"))| + |Filter(users, AdminSelector(search, "inactive"))| ==
            |Filter(users, AdminSelector(search, ""))|
  {
    var all := AdminSelector(search, "");
    var pub := (u: User) => u.isPublic;
    var priv := (u: User) => !u.isPublic;
    FilterTwice(users, all, pub, AdminSelector(search, "active"));
    FilterTwice(users, all, priv, AdminSelector(search, "inactive"));
    FilterPartition(Filter(users, all), pub, priv);
  }

  /** The admin update: only `password` is dropped, so `email` (through its
      setters) and `isAdmin` change too. Availability is not rebuilt from
      strings, so only an empty list can be cast. */
  function ApplyAdmin(u: User, p: UserUpdate): (r: User)
    ensures r.id == u.id && r.password == u.password
    ensures p.email.Some? ==> r.email == NormalizeEmail(p.email.value)
    ensures p.email.None? ==> r.email == u.email
    ensures p.isAdmin.Some? ==> r.isAdmin == p.isAdmin.value
    ensures p.isAdmin.None? ==> r.isAdmin == u.isAdmin
    ensures p.availability.Some? ==> r.availability == []
    ensures r == ApplyCommon(u, p).(
      email := if p.email.Some? then NormalizeEmail(p.email.value) else u.email,
      isAdmin := if p.isAdmin.Some? then p.isAdmin.value else u.isAdmin,
      availability := if p.availability.Some? then [] else u.availability)
  {
    var c := ApplyCommon(u, p);
    var email := if p.email.Some? then NormalizeEmail(p.email.value) else c.email;
    var isAdmin := if p.isAdmin.Some? then p.isAdmin.value else c.isAdmin;
    var slots := if p.availability.Some? then [] else c.availability;
    c.(email := email, isAdmin := isAdmin, availability := slots)
  }

  /** A valid user stays valid under an admin update the validators let through. */
  lemma AdminKeepsValid(u: User, p: UserUpdate)
    requires ValidUser(u) && !AdminRejected(p)
    ensures ValidUser(ApplyAdmin(u, p))
  {
    CommonKeepsValid(u, p);
    var c := ApplyCommon(u, p);
    assert ApplyAdmin(u, p) == c.(email := ApplyAdmin(u, p).email, isAdmin := ApplyAdmin(u, p).isAdmin,
                                  availability := ApplyAdmin(u, p).availability);
  }

  /** What the admin update refuses before it looks the user up: the common
      validation failures, an email that normalises to nothing, and
      availability strings that cannot be cast to slots. */
  predicate AdminRejected(p: UserUpdate): (r: bool)
    ensures CommonRejected(p) ==> r
    ensures r && (p.availability.None? || p.availability.value == []) ==> forall u :: !ValidUser(ApplyAdmin(u, p))
  {
    var r := CommonRejected(p) ||
      (p.email.Some? && NormalizeEmail(p.email.value) == "") ||
      (p.availability.Some? && p.availability.value != []);
    assert r && (p.availability.None? || p.availability.value == []) ==> forall u :: !ValidUser(ApplyAdmin(u, p)) by {
      if r && (p.availability.None? || p.availability.value == []) {
        forall u ensures !ValidUser(ApplyAdmin(u, p)) {
          AdminResultInvalid(u, p);
        }
      }
    }
    r
  }

  /** An admin update whose name, rating or email fails the validators
      would store a user the schema refuses. */
  lemma AdminResultInvalid(u: User, p: UserUpdate)
    requires CommonRejected(p) || (p.email.Some? && NormalizeEmail(p.email.value) == "")
    ensures !ValidUser(ApplyAdmin(u, p))
  {
    var r := ApplyAdmin(u, p);
    if p.name.Some? && Trim(p.name.value) == "" {
      assert r.name == "";
    } else if p.rating.Some? && !(0.0 <= p.rating.value <= 5.0) {
      assert r.rating == p.rating.value;
    } else {
      assert r.email == "";
    }
  }

  /** PUT `/admin/:id`. */
  method AdminUpdateUser(s: Store, caller: Id, id: Id, p: UserUpdate) returns (code: int, view: Option<UserView>)
    requires s.Valid()
    modifies s
    ensures s.Valid()
    ensures s.swaps == old(s.swaps) && s.reviews == old(s.reviews) && s.notifications == old(s.notifications)
    ensures AdminGate(old(s.users), caller) != 200 ==> code == AdminGate(old(s.users), caller)
    ensures code == 404 <==> (AdminGate(old(s.users), caller) == 200 && !AdminRejected(p) &&
      IndexOf(old(s.users), id, UserKey).None?)
    ensures code == 500 <==> (AdminGate(old(s.users), caller) == 200 &&
      (AdminRejected(p) ||
       (IndexOf(old(s.users), id, UserKey).Some? &&
        !EmailFree(old(s.users), ApplyAdmin(old(s.users)[IndexOf(old(s.users), id, UserKey).value], p).email,
          IndexOf(old(s.users), id, UserKey).value))))
    ensures code == 200 <==> (AdminGate(old(s.users), caller) == 200 && !AdminRejected(p) &&
      IndexOf(old(s.users), id, UserKey).Some? &&
      EmailFree(old(s.users), ApplyAdmin(old(s.users)[IndexOf(old(s.users), id, UserKey).value], p).email,
        IndexOf(old(s.users), id, UserKey).value))
    ensures code != 200 ==> s.users == old(s.users) && view.None?
    ensures code == 200 ==>
      var k := IndexOf(old(s.users), id, UserKey).value;
      s.users == old(s.users)[k := ApplyAdmin(old(s.users)[k], p)] &&
      view == Some(Transform(s.users[k], true))
  {
    var gate := AdminGate(s.users, caller);
    if gate != 200 {
      return gate, None;
    }
    if AdminRejected(p) {
      return 500, None;
    }
    var found := IndexOf(s.users, id, UserKey);
    if found.None? {
      return 404, None;
    }
    var k := found.value;
    var u := ApplyAdmin(s.users[k], p);
    AdminKeepsValid(s.users[k], p);
    if !EmailFree(s.users, u.email, k) {
      return 500, None;
    }
    s.ReplaceUser(k, u);
    return 200, Some(Transform(u, true));
  }

  /** DELETE `/admin/:id`. The user's swaps, reviews and notifications stay. */
  method AdminDeleteUser(s: Store, caller: Id, id: Id) returns (code: int)
    requires s.Valid()
    modifies s
    ensures s.Valid()
    ensures s.swaps == old(s.swaps) && s.reviews == old(s.reviews) && s.notifications == old(s.notifications)
    ensures AdminGate(old(s.users), caller) != 200 ==> code == AdminGate(old(s.users), caller)
    ensures code == 404 <==> AdminGate(old(s.users), caller) == 200 && IndexOf(old(s.users), id, UserKey).None?
    ensures code == 200 <==> AdminGate(old(s.users), caller) == 200 && IndexOf(old(s.users), id, UserKey).Some?
    ensures code != 200 ==> s.users == old(s.users)
    ensures code == 200 ==>
      s.users == RemoveAt(old(s.users), IndexOf(old(s.users), id, UserKey).value) &&
      FindUser(s.users, id).None?
  {
    var gate := AdminGate(s.users, caller);
    if gate != 200 {
      return gate;
    }
    var found := IndexOf(s.users, id, UserKey);
    if found.None? {
      return 404;
    }
    RemoveFound(s.users, id, UserKey);
    s.RemoveUser(found.value);
    return 200;
  }
}
