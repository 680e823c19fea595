/** The four MongoDB collections of the marketplace as values: their enums,
    defaults and the validation Mongoose runs before every save. A record
    that fails its `Valid…` predicate is never written; the route that tried
    answers 500. */
module Schemas {
  import opened Collections
  import opened Text

  /** ObjectIds are modelled as naturals handed out by the store. */
  type Id = nat
  /** Dates are modelled as a clock reading supplied by the caller. */
  type Timestamp = nat

  // ---------------------------------------------------------------- swaps

  datatype SwapStatus = Pending | Accepted | Rejected | Cancelled | Completed

  function StatusName(st: SwapStatus): string {
    match st
    case Pending => "pending"
    case Accepted => "accepted"
    case Rejected => "rejected"
    case Cancelled => "cancelled"
    case Completed => "completed"
  }

  /** The enum cast of the status path: a known name gives its value, any
      other string fails validation. */
  function ParseStatus(t: string): (r: Option<SwapStatus>)
    ensures r.Some? ==> StatusName(r.value) == t
    ensures r.None? <==> forall st :: StatusName(st) != t
  {
    if t == "pending" then Some(Pending)
    else if t == "accepted" then Some(Accepted)
    else if t == "rejected" then Some(Rejected)
    else if t == "cancelled" then Some(Cancelled)
    else if t == "completed" then Some(Completed)
    else None
  }

  /** Every status survives being written out and read back. */
  lemma StatusRoundTrip(st: SwapStatus)
    ensures ParseStatus(StatusName(st)) == Some(st)
  {
  }

  datatype MeetingType = InPerson | Video | Chat

  function MeetingTypeName(m: MeetingType): string {
    match m
    case InPerson => "in-person"
    case Video => "video"
    case Chat => "chat"
  }

  function ParseMeetingType(t: string): (r: Option<MeetingType>)
    ensures r.Some? ==> MeetingTypeName(r.value) == t
    ensures r.None? <==> forall m :: MeetingTypeName(m) != t
  {
    if t == "in-person" then Some(InPerson)
    else if t == "video" then Some(Video)
    else if t == "chat" then Some(Chat)
    else None
  }

  /** A swap request document. Optional strings that were never supplied
      are the empty string. */
  datatype SwapRequest = SwapRequest(
    id: Id,
    fromUserId: Id,
    toUserId: Id,
    skillOffered: string,
    skillWanted: string,
    message: string,
    status: SwapStatus,
    scheduledAt: Option<Timestamp>,
    duration: int,
    meetingType: MeetingType,
    location: string,
    createdAt: Timestamp,
    updatedAt: Timestamp)

  /** The two skill strings are required, and a required string rejects "". */
  predicate ValidSwap(w: SwapRequest) {
    w.skillOffered != "" && w.skillWanted != ""
  }

  /** The user is the sender or the recipient of the request. */
  predicate IsParty(w: SwapRequest, id: Id) {
    w.fromUserId == id || w.toUserId == id
  }

  const DefaultStatus := Pending
  const DefaultDuration := 60
  const DefaultMeetingType := Video

  // -------------------------------------------------------------- reviews

  datatype Review = Review(
    id: Id,
    swapRequestId: Id,
    reviewerId: Id,
    revieweeId: Id,
    rating: int,
    comment: string,
    skillRating: Option<int>,
    communicationRating: Option<int>,
    punctualityRating: Option<int>,
    helpfulnessRating: Option<int>,
    tags: seq<string>,
    wouldSwapAgain: bool,
    createdAt: Timestamp)

  predicate InStarRange(n: int) {
    1 <= n <= 5
  }

  /** An optional sub-rating is either absent or within 1..5. */
  predicate OptionalStars(n: Option<int>) {
    n.None? || InStarRange(n.value)
  }

  predicate ValidReview(r: Review) {
    InStarRange(r.rating) &&
    OptionalStars(r.skillRating) && OptionalStars(r.communicationRating) &&
    OptionalStars(r.punctualityRating) && OptionalStars(r.helpfulnessRating)
  }

  const DefaultWouldSwapAgain := true

  // -------------------------------------------------------- notifications

  datatype NotificationType =
    | NoteSwapRequest | NoteSwapAccepted | NoteSwapRejected | NoteReview
    | NoteAdminAnnouncement | NoteMessage | NoteReminder | NoteBadgeEarned
    | NoteLevelUp | NoteEventInvitation

  function TypeName(t: NotificationType): string {
    match t
    case NoteSwapRequest => "swap_request"
    case NoteSwapAccepted => "swap_accepted"
    case NoteSwapRejected => "swap_rejected"
    case NoteReview => "review"
    case NoteAdminAnnouncement => "admin_announcement"
    case NoteMessage => "message"
    case NoteReminder => "reminder"
    case NoteBadgeEarned => "badge_earned"
    case NoteLevelUp => "level_up"
    case NoteEventInvitation => "event_invitation"
  }

  /** The enum cast of the notification type: exactly the ten listed names. */
  function ParseNotificationType(t: string): (r: Option<NotificationType>)
    ensures r.Some? ==> TypeName(r.value) == t
    ensures r.None? <==> forall n :: TypeName(n) != t
  {
    if t == "swap_request" then Some(NoteSwapRequest)
    else if t == "swap_accepted" then Some(NoteSwapAccepted)
    else if t == "swap_rejected" then Some(NoteSwapRejected)
    else if t == "review" then Some(NoteReview)
    else if t == "admin_announcement" then Some(NoteAdminAnnouncement)
    else if t == "message" then Some(NoteMessage)
    else if t == "reminder" then Some(NoteReminder)
    else if t == "badge_earned" then Some(NoteBadgeEarned)
    else if t == "level_up" then Some(NoteLevelUp)
    else if t == "event_invitation" then Some(NoteEventInvitation)
    else None
  }

  /** The type names a swap status change would produce for `completed` and
      `cancelled` are not in the enum. */
  lemma SwapOutcomeTypesMissing()
    ensures ParseNotificationType("swap_completed").None?
    ensures ParseNotificationType("swap_cancelled").None?
    ensures ParseNotificationType("swap_accepted") == Some(NoteSwapAccepted)
    ensures ParseNotificationType("swap_rejected") == Some(NoteSwapRejected)
  {
  }

  /** The free-form `data` payloads the routes attach. */
  datatype NoticeData = NoData | SwapData(swapRequestId: Id) | ReviewData(reviewId: Id, rating: int)

  datatype Notification = Notification(
    id: Id,
    userId: Id,
    ntype: NotificationType,
    title: string,
    message: string,
    isRead: bool,
    data: NoticeData,
    actionUrl: string,
    createdAt: Timestamp,
    updatedAt: Timestamp)

  predicate ValidNotification(n: Notification) {
    n.title != "" && n.message != ""
  }

  const DefaultIsRead := false

  // ---------------------------------------------------------------- users

  datatype SkillLevel = Beginner | Intermediate | AdvancedLevel | Expert

  datatype Skill = Skill(name: string, category: string, level: SkillLevel, tags: seq<string>, description: string)

  /** A skill's name is required. */
  predicate ValidSkill(k: Skill) {
    k.name != ""
  }

  /** An availability slot; `description` carries free text such as "Weekends". */
  datatype Slot = Slot(dayOfWeek: int, startTime: string, endTime: string, timezone: string, recurring: bool, description: string)

  predicate ValidSlot(sl: Slot) {
    0 <= sl.dayOfWeek <= 6
  }

  /** A slot with every default of the schema and the given description. */
  function DefaultSlot(description: string): (r: Slot)
    ensures ValidSlot(r) && r.description == description
    ensures r.dayOfWeek == 0 && r.startTime == "09:00" && r.endTime == "17:00"
    ensures r.timezone == "UTC" && r.recurring
  {
    Slot(0, "09:00", "17:00", "UTC", true, description)
  }

  datatype Stats = Stats(totalSwaps: int, completedSwaps: int, hoursLearned: int, hoursTaught: int, favoriteSkills: seq<string>)

  datatype Theme = Light | Dark | SystemTheme
  datatype MeetingPreference = PreferInPerson | PreferVideo | PreferBoth
  datatype LevelPreference = AnyLevel | SimilarLevel | HigherLevel
  datatype Flexibility = Strict | Flexible

  datatype NotificationPrefs = NotificationPrefs(email: bool, push: bool, inApp: bool, swapRequests: bool, messages: bool, reminders: bool, marketing: bool)
  datatype PrivacyPrefs = PrivacyPrefs(showLocation: bool, showOnlineStatus: bool, allowDirectMessages: bool, showInSearch: bool)
  datatype MatchingPrefs = MatchingPrefs(maxDistance: int, preferredMeetingType: MeetingPreference, skillLevelPreference: LevelPreference, availabilityFlexibility: Flexibility)
  datatype Preferences = Preferences(theme: Theme, notifications: NotificationPrefs, privacy: PrivacyPrefs, matching: MatchingPrefs)

  const DefaultStats := Stats(0, 0, 0, 0, [])
  const DefaultPreferences := Preferences(
    Light,
    NotificationPrefs(true, true, true, true, true, true, false),
    PrivacyPrefs(true, true, true, true),
    MatchingPrefs(50, PreferBoth, AnyLevel, Flexible))

  /** A user document. `password` holds the hash, never the clear text. */
  datatype User = User(
    id: Id,
    name: string,
    email: string,
    password: string,
    location: string,
    profilePhoto: string,
    skillsOffered: seq<Skill>,
    skillsWanted: seq<Skill>,
    availability: seq<Slot>,
    isPublic: bool,
    rating: real,
    totalReviews: int,
    isAdmin: bool,
    points: int,
    streak: int,
    level: int,
    lastActive: Timestamp,
    isOnline: bool,
    createdAt: Timestamp,
    stats: Option<Stats>,
    preferences: Option<Preferences>)

  /** The form the `lowercase` and `trim` setters give an email. */
  function NormalizeEmail(e: string): (r: string)
    ensures |r| <= |e|
    ensures NormalEmail(r)
  {
    var low := ToLower(e);
    var r := Trim(low);
    ToLowerIdempotent(e);
    TrimIdempotent(low);
    LowerInfix(low, r);
    r
  }

  /** An email as the schema stores it: lower-case and without surrounding white space. */
  predicate NormalEmail(e: string) {
    ToLower(e) == e && Trim(e) == e
  }

  /** A piece of a lower-cased string is lower-cased. */
  lemma LowerInfix(s: string, sub: string)
    requires ToLower(s) == s
    requires exists k :: OccursAt(s, sub, k)
    ensures ToLower(sub) == sub
  {
    var k :| OccursAt(s, sub, k);
    forall i | 0 <= i < |sub| ensures LowerChar(sub[i]) == sub[i] {
      assert sub[i] == s[k + i];
      assert LowerChar(s[k + i]) == ToLower(s)[k + i];
    }
  }

  /** A normalised email is its own normal form. */
  lemma NormalizeFixesNormal(e: string)
    requires NormalEmail(e)
    ensures NormalizeEmail(e) == e
  {
  }

  /** What Mongoose validates on a user: the required strings, the rating
      bound 0..5, and the skill and slot sub-documents; the email is also
      kept in its normal form by the setters. */
  predicate ValidUser(u: User) {
    u.name != "" && u.email != "" && u.password != "" &&
    NormalEmail(u.email) &&
    0.0 <= u.rating <= 5.0 &&
    (forall i :: 0 <= i < |u.skillsOffered| ==> ValidSkill(u.skillsOffered[i])) &&
    (forall i :: 0 <= i < |u.skillsWanted| ==> ValidSkill(u.skillsWanted[i])) &&
    (forall i :: 0 <= i < |u.availability| ==> ValidSlot(u.availability[i]))
  }

  const DefaultRating := 5.0
  const DefaultIsPublic := true
  const DefaultIsAdmin := false

  /** The pre-save hook: a missing stats or preferences object gets its
      default; everything else is left as it is. */
  function PreSave(u: User): (r: User)
    ensures r.stats.Some? && r.preferences.Some?
    ensures u.stats.Some? ==> r.stats == u.stats
    ensures u.preferences.Some? ==> r.preferences == u.preferences
    ensures u.stats.None? ==> r.stats == Some(DefaultStats)
    ensures u.preferences.None? ==> r.preferences == Some(DefaultPreferences)
    ensures r == u.(stats := r.stats, preferences := r.preferences)
  {
    var withStats := if u.stats.None? then u.(stats := Some(DefaultStats)) else u;
    if withStats.preferences.None? then withStats.(preferences := Some(DefaultPreferences)) else withStats
  }

  /** Running the hook twice is running it once, and it keeps a user valid. */
  lemma PreSaveIdempotent(u: User)
    ensures PreSave(PreSave(u)) == PreSave(u)
    ensures ValidUser(u) ==> ValidUser(PreSave(u))
  {
  }

  // ------------------------------------------------------- keys and orders

  function UserKey(u: User): nat { u.id }
  function SwapKey(w: SwapRequest): nat { w.id }
  function ReviewKey(r: Review): nat { r.id }
  function NotificationKey(n: Notification): nat { n.id }

  function UserCreated(u: User): real { u.createdAt as real }
  function SwapUpdated(w: SwapRequest): real { w.updatedAt as real }
  function ReviewCreated(r: Review): real { r.createdAt as real }
  function NotificationCreated(n: Notification): real { n.createdAt as real }
}
