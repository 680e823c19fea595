/** The authentication routes: registration, login, the current user and
    logout. Password hashing is the store's `hasher`; token signing is not
    modelled, a successful login or registration is what would yield one. */
module AuthRoutes {
  import opened Collections
  import opened Text
  import opened Schemas
  import opened Database
  import opened UserRoutes

  /** `User.findOne({ email })`: the first user stored with this email. */
  function FindByEmail(users: seq<User>, email: string): (r: Option<nat>)
    ensures r.Some? ==> r.value < |users| && users[r.value].email == email
    ensures r.Some? ==> forall j :: 0 <= j < r.value ==> users[j].email != email
    ensures r.None? <==> forall j :: 0 <= j < |users| ==> users[j].email != email
  {
    if users == [] then
      None
    else if users[0].email == email then
      Some(0)
    else
      match FindByEmail(users[1..], email)
      case None => None
      case Some(k) => Some(k + 1)
  }

  /** The login check on an already normalised email: the user stored with
      it, provided the password hashes to the stored hash. */
  function Check(users: seq<User>, hasher: string -> string, email: string, password: string): (r: Option<nat>)
    ensures r.Some? ==> r.value < |users| && users[r.value].email == email && users[r.value].password == hasher(password)
    ensures UniqueEmails(users) ==> (r.None? <==>
      forall j :: 0 <= j < |users| && users[j].email == email ==> users[j].password != hasher(password))
  {
    match FindByEmail(users, email)
    case None => None
    case Some(k) =>
      assert UniqueEmails(users) ==> forall j :: 0 <= j < |users| && users[j].email == email ==> j == k;
      if hasher(password) == users[k].password then Some(k) else None
  }

  /** POST `/login`'s check: the email as the setters normalise it. An
      unknown email and a wrong password are the same failure. */
  function Authenticate(users: seq<User>, hasher: string -> string, email: string, password: string): (r: Option<nat>)
    ensures r.Some? ==>
      && r.value < |users|
      && users[r.value].email == NormalizeEmail(email)
      && users[r.value].password == hasher(password)
    ensures UniqueEmails(users) ==> (r.None? <==>
      forall j :: 0 <= j < |users| && users[j].email == NormalizeEmail(email) ==> users[j].password != hasher(password))
  {
    Check(users, hasher, NormalizeEmail(email), password)
  }

  // ----------------------------------------------------------- register

  /** The body of POST `/register`. A skill or availability list that is
      not an array is None. */
  datatype Registration = Registration(
    name: string,
    email: string,
    password: string,
    location: string,
    skillsOffered: Option<seq<string>>,
    skillsWanted: Option<seq<string>>,
    availability: Option<seq<string>>)

  const AdminEmail := "admin@swapr.com"

  /** A list sent as an array is normalised; anything else is empty. */
  function OrEmpty<T>(xs: Option<seq<string>>, f: seq<string> -> seq<T>): seq<T> {
    if xs.Some? then f(xs.value) else []
  }

  /** The user document registration builds. The admin flag compares the
      lower-cased email before it is trimmed. */
  function NewUser(reg: Registration, hashed: string, id: Id, now: Timestamp): (r: User)
    ensures r.id == id && r.name == Trim(reg.name) && r.email == NormalizeEmail(reg.email)
    ensures r.password == hashed && r.location == Trim(reg.location)
    ensures r.isAdmin <==> ToLower(reg.email) == AdminEmail
    ensures r.isPublic && r.rating == DefaultRating && r.totalReviews == 0
    ensures r.points == 0 && r.streak == 0 && r.level == 1 && !r.isOnline
    ensures r.createdAt == now && r.lastActive == now
    ensures PreSave(r) == r
  {
    User(id, Trim(reg.name), NormalizeEmail(reg.email), hashed, Trim(reg.location), "",
      OrEmpty(reg.skillsOffered, OfferedSkills), OrEmpty(reg.skillsWanted, WantedSkills),
      OrEmpty(reg.availability, SlotsFrom),
      DefaultIsPublic, DefaultRating, 0, ToLower(reg.email) == AdminEmail, 0, 0, 1, now, false, now,
      Some(DefaultStats), Some(DefaultPreferences))
  }

  /** What `save` refuses: a name or an email that trims to nothing, or an
      empty hash. */
  predicate RegistrationRejected(reg: Registration, hashed: string): (r: bool)
    ensures r ==> forall id, now :: !ValidUser(NewUser(reg, hashed, id, now))
  {
    Trim(reg.name) == "" || NormalizeEmail(reg.email) == "" || hashed == ""
  }

  /** A registration `save` accepts builds a valid user. */
  lemma NewUserValid(reg: Registration, hashed: string, id: Id, now: Timestamp)
    requires !RegistrationRejected(reg, hashed)
    ensures ValidUser(NewUser(reg, hashed, id, now))
  {
    var r := NewUser(reg, hashed, id, now);
    ListsValid(reg);
    assert r.name != "" && r.email != "" && r.password != "";
    assert NormalEmail(r.email) && 0.0 <= r.rating <= 5.0;
  }

  /** The normalised lists of a registration hold valid skills and slots. */
  lemma ListsValid(reg: Registration)
    ensures forall i :: 0 <= i < |OrEmpty(reg.skillsOffered, OfferedSkills)| ==>
      ValidSkill(OrEmpty(reg.skillsOffered, OfferedSkills)[i])
    ensures forall i :: 0 <= i < |OrEmpty(reg.skillsWanted, WantedSkills)| ==>
      ValidSkill(OrEmpty(reg.skillsWanted, WantedSkills)[i])
    ensures forall i :: 0 <= i < |OrEmpty(reg.availability, SlotsFrom)| ==>
      ValidSlot(OrEmpty(reg.availability, SlotsFrom)[i])
  {
  }

  /** What a new account shows its owner: the skills and availability it
      registered with, trimmed and without the blank ones. */
  lemma RegisteredView(reg: Registration, hashed: string, id: Id, now: Timestamp, offered: seq<string>, wanted: seq<string>, slots: seq<string>)
    requires reg.skillsOffered == Some(offered) && reg.skillsWanted == Some(wanted) && reg.availability == Some(slots)
    ensures Transform(NewUser(reg, hashed, id, now), true).skillsOffered == Names(Entries(offered))
    ensures Transform(NewUser(reg, hashed, id, now), true).skillsWanted == Names(Entries(wanted))
    ensures Transform(NewUser(reg, hashed, id, now), true).availability == Descriptions(Entries(slots))
  {
    ViewRoundTrip(NewUser(reg, hashed, id, now), offered, wanted, slots, true);
  }

  /** An email with surrounding white space is stored trimmed, yet the
      admin flag is computed before trimming: ` admin@swapr.com` registers
      an ordinary user under the admin's address. */
  lemma PaddedAdminEmail(reg: Registration, hashed: string, id: Id, now: Timestamp)
    requires reg.email == " " + AdminEmail
    ensures NewUser(reg, hashed, id, now).email == AdminEmail
    ensures !NewUser(reg, hashed, id, now).isAdmin
  {
    var low := ToLower(reg.email);
    assert low == " " + AdminEmail;
    assert |low| != |AdminEmail|;
    TrimEndNoTrailing(low);
    assert TrimStart(low) == AdminEmail by {
      assert low[0] == ' ' && IsSpace(low[0]);
      TrimStartNoLeading(AdminEmail);
      assert low[1..] == AdminEmail;
    }
  }

  /** POST `/register`. */
  method Register(s: Store, reg: Registration, now: Timestamp) returns (code: int, view: Option<UserView>)
    requires s.Valid()
    modifies s
    ensures s.Valid()
    ensures s.swaps == old(s.swaps) && s.reviews == old(s.reviews) && s.notifications == old(s.notifications)
    ensures code == 400 <==> FindByEmail(old(s.users), NormalizeEmail(reg.email)).Some?
    ensures code == 500 <==> (FindByEmail(old(s.users), NormalizeEmail(reg.email)).None? &&
      RegistrationRejected(reg, s.hasher(reg.password)))
    ensures code == 201 <==> (FindByEmail(old(s.users), NormalizeEmail(reg.email)).None? &&
      !RegistrationRejected(reg, s.hasher(reg.password)))
    ensures code != 201 ==> s.users == old(s.users) && view.None?
    ensures code == 201 ==>
      s.users == old(s.users) + [NewUser(reg, s.hasher(reg.password), old(s.nextId), now)] &&
      view == Some(Transform(NewUser(reg, s.hasher(reg.password), old(s.nextId), now), true))
  {
    var email := NormalizeEmail(reg.email);
    if FindByEmail(s.users, email).Some? {
      return 400, None;
    }
    var hashed := s.hasher(reg.password);
    if RegistrationRejected(reg, hashed) {
      return 500, None;
    }
    var u := NewUser(reg, hashed, s.nextId, now);
    NewUserValid(reg, hashed, s.nextId, now);
    s.InsertUser(u);
    return 201, Some(Transform(u, true));
  }

  /** Whoever registers can log in with the same email and password,
      however the email was capitalised or padded. */
  lemma RegisteredCanLogIn(users: seq<User>, hasher: string -> string, reg: Registration, id: Id, now: Timestamp)
    requires FindByEmail(users, NormalizeEmail(reg.email)).None?
    ensures Authenticate(users + [NewUser(reg, hasher(reg.password), id, now)], hasher, reg.email, reg.password) == Some(|users|)
  {
    var e := NormalizeEmail(reg.email);
    var u := NewUser(reg, hasher(reg.password), id, now);
    assert u.email == e && u.password == hasher(reg.password);
    FoundLast(users, u, e);
  }

  /** A new last element with an email nobody else has is the one found. */
  lemma FoundLast(users: seq<User>, u: User, e: string)
    requires FindByEmail(users, e).None? && u.email == e
    ensures FindByEmail(users + [u], e) == Some(|users|)
  {
    var all := users + [u];
    assert all[|users|].email == e;
    assert forall j :: 0 <= j < |users| ==> all[j].email != e;
  }

  // -------------------------------------------------------------- login

  /** POST `/login`. */
  method Login(s: Store, email: string, password: string, now: Timestamp) returns (code: int, view: Option<UserView>)
    requires s.Valid()
    modifies s
    ensures s.Valid()
    ensures s.swaps == old(s.swaps) && s.reviews == old(s.reviews) && s.notifications == old(s.notifications)
    ensures code == 400 <==> Authenticate(old(s.users), s.hasher, email, password).None?
    ensures code != 400 ==> code == 200
    ensures code == 400 ==> s.users == old(s.users) && view.None?
    ensures code == 200 ==>
      var k := Authenticate(old(s.users), s.hasher, email, password).value;
      s.users == old(s.users)[k := PreSave(old(s.users)[k].(lastActive := now, isOnline := true))] &&
      view == Some(Transform(s.users[k], true))
  {
    var found := Authenticate(s.users, s.hasher, email, password);
    if found.None? {
      return 400, None;
    }
    var k := found.value;
    var u := PreSave(s.users[k].(lastActive := now, isOnline := true));
    PreSaveIdempotent(s.users[k].(lastActive := now, isOnline := true));
    OwnEmailFree(s.users, k);
    s.ReplaceUser(k, u);
    return 200, Some(Transform(u, true));
  }

  // --------------------------------------------------------- me, logout

  /** GET `/me`: the caller's own view, with the email. */
  function Me(users: seq<User>, caller: Id): (r: Outcome<UserView>)
    ensures r.Fail? <==> FindUser(users, caller).None?
    ensures r.Fail? ==> r.code == 401
    ensures r.Ok? ==> r.value.id == caller && r.value.email == Some(FindUser(users, caller).value.email)
    ensures r.Ok? ==> r.value == Transform(FindUser(users, caller).value, true)
  {
    match FindUser(users, caller)
    case None => Fail(401)
    case Some(u) => Ok(Transform(u, true))
  }

  /** POST `/logout`: the caller is marked offline. */
  method Logout(s: Store, caller: Id) returns (code: int)
    requires s.Valid()
    modifies s
    ensures s.Valid()
    ensures s.swaps == old(s.swaps) && s.reviews == old(s.reviews) && s.notifications == old(s.notifications)
    ensures code == 401 <==> FindUser(old(s.users), caller).None?
    ensures code != 401 ==> code == 200
    ensures code == 401 ==> s.users == old(s.users)
    ensures code == 200 ==>
      var k := IndexOf(old(s.users), caller, UserKey).value;
      s.users == old(s.users)[k := PreSave(old(s.users)[k].(isOnline := false))] && !s.users[k].isOnline
  {
    var found := IndexOf(s.users, caller, UserKey);
    if found.None? {
      return 401;
    }
    var k := found.value;
    var u := PreSave(s.users[k].(isOnline := false));
    PreSaveIdempotent(s.users[k].(isOnline := false));
    OwnEmailFree(s.users, k);
    s.ReplaceUser(k, u);
    return 200;
  }
}
