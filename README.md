# Swapr core, modelled in Dafny

Swapr is a skill-swap marketplace. Members list the skills they offer and want
and when they are available. They browse each other's public profiles and send
swap requests. A request's recipient accepts or declines it, either party marks
it completed, and each party then reviews the other once. Notifications tell
users about each of these steps and about the administrator's announcements.

This project models the marketplace's core:

- **The Express routes.** The users, auth, swaps, reviews and notifications
  routes are modelled over a `Store`. The store is a class whose sequences
  stand for the User, SwapRequest, Review and Notification collections. Its
  invariant `Valid` holds the schemas' validation rules, unique ids and the
  unique email index, and every route is proved to keep it. Each route's
  contract gives its exact status code as an if-and-only-if over the stored
  state, together with the new state of every collection.
- **The Mongoose models.** The enumerations, defaults, the `lowercase`/`trim`
  setters of the email and the user's pre-save hook are datatypes and
  functions in `Schemas`.
- **The client components.** SwapsPage, ProfilePage, BrowsePage,
  AdminAnnouncementsPage, RegisterForm and UserProfileModal are classes whose
  fields are the components' React state. Their handlers are methods, and
  their derived values (`useMemo`, render conditions) are functions with
  lemmas. Calls the components make into hooks and services are recorded as
  values in a `calls` field, not carried out.

Queries become `Filter`, then `SortDesc` (a stable insertion sort on a real
key, newest or highest first), then `Window` (`skip`/`limit`). `Query` proves
the pagination arithmetic `Math.ceil(total / limit)` and that a page is the
window starting at `(page - 1) * limit` of the matches in key order. A `limit`
of 0 means "no limit" and gives `pages` = null. A negative limit lets through
its absolute value, as MongoDB reads it, and gives a page count of zero or
below. A negative skip is a server error.

A user is returned as a `UserView`, which has no password field. No route's
answer can therefore carry the hash. The email field is present only where the
route keeps it. Swaps, reviews and notifications get `createdAt` when they are
created. A swap's `updatedAt` moves on a save only when its status or
scheduled time actually changes, which is how Mongoose's timestamps treat an
unmodified document.

Some behaviours of the code are modelled as written and stated as lemmas:

- **Swap to oneself.** The swap-creation route does not refuse a request to
  oneself. Only the profile modal hides the button, so `UserProfileModal`
  proves that every request it sends has distinct parties.
- **`swap_completed`.** Setting a swap's status to `completed` saves the swap
  but then fails with 500, because `swap_completed` is not a notification type
  (`SwapRoutes.CompletedTypeRefused`).
- **Padded admin email.** An email with leading white space is stored trimmed,
  but the admin flag is computed before trimming
  (`AuthRoutes.PaddedAdminEmail`).
- **The delete button's `&&`/`||` precedence.** For a pending sent request the
  button's slot renders the value `true`, which React draws as nothing, so no
  delete control shows (`SwapsPage.PendingSentHasNoControl`).

Modules: `Text`, `Collections`, `Schemas`, `Database`, `UserRoutes`,
`AuthRoutes`, `SwapRoutes`, `ReviewRoutes`, `NotificationRoutes`,
`SwapsPage`, `ProfilePage`, `BrowsePage`, `AnnouncementsPage`,
`RegisterForm`, `UserProfileModal`.

## Model

| member | source | states |
|---|---|---|
| Text.Trim | server/routes/auth.js:59-62 | `trim()`: the result neither starts nor ends with white space and occurs inside the input |
| Text.TrimOnlyOuter | server/routes/auth.js:59-62 | `trim()` removes only the white space at the two ends: everything before and after the result is white space |
| Text.TrimIdempotent | server/routes/users.js:94-97 | a trimmed string trims to itself |
| Text.BlankIffAllSpace | src/components/Browse/BrowsePage.tsx:57 | `s.trim()` is falsy exactly when every character of `s` is white space |
| Text.ToLower | server/routes/auth.js:60 | `toLowerCase()` keeps the length and lowers each character |
| Text.ToLowerIdempotent | server/routes/auth.js:66 | lowering twice is lowering once |
| Text.Contains | server/routes/users.js:30-33 | a case-sensitive match holds exactly when the pattern occurs at some position |
| Collections.SortDesc | server/routes/swaps.js:36 | `sort({ field: -1 })`: a permutation of the input, ordered by descending key |
| Collections.Window | server/routes/swaps.js:34-35 | `skip`/`limit`: a contiguous slice starting at `skip`, at most `limit` long; a limit of 0 means no limit |
| Collections.PageCount | server/routes/swaps.js:46 | `Math.ceil(total / limit)`: for a positive limit the smallest page count that covers `total`, for a negative one the ceiling of the negative quotient; null when the limit is 0 |
| Collections.Query | server/routes/swaps.js:31-47 | a page is the window from `(page - 1) * limit`, at most the absolute value of `limit` long, of a newest-first ordering of exactly the matches, with the matching total and page count; it fails exactly when the skip is negative |
| Collections.FirstPageHoldsAll | server/routes/swaps.js:34-38 | page 1 with a limit no smaller than the total holds every match |
| Collections.NegativeLimitFirstPage | server/routes/swaps.js:34-35 | on page 1 a negative limit lists what its absolute value lists, and its page count is at most 0 |
| Collections.IndexOf | server/routes/swaps.js:115 | `findById`: the first document with the id, or None exactly when none has it |
| Collections.RemoveAt | src/components/Profile/ProfilePage.tsx:71-90 | `filter((_, i) => i !== index)`: drops that one position; an index out of range changes nothing |
| Schemas.ParseStatus | server/models/SwapRequest.js:26-30 | the status enum accepts exactly the five status names |
| Schemas.StatusRoundTrip | server/models/SwapRequest.js:26-30 | every status name parses back to its status |
| Schemas.ParseMeetingType | server/models/SwapRequest.js:35-39 | the meeting-type enum accepts exactly `in-person`, `video` and `chat` |
| Schemas.ParseNotificationType | server/models/Notification.js:9-17 | the type enum accepts exactly the ten listed names |
| Schemas.SwapOutcomeTypesMissing | server/models/Notification.js:11-15 | `swap_completed` and `swap_cancelled` are not types; `swap_accepted` and `swap_rejected` are |
| Schemas.DefaultSlot | server/models/User.js:17-24 | a slot built from a description has the schema defaults: Sunday, 09:00 to 17:00, UTC, recurring |
| Schemas.NormalizeEmail | server/models/User.js:70 | the `lowercase` and `trim` setters give a normal email, no longer than the input |
| Schemas.NormalizeFixesNormal | server/models/User.js:70 | a normal email is stored unchanged |
| Schemas.PreSave | server/models/User.js:142-184 | the pre-save hook fills missing stats and preferences with the defaults and changes nothing else |
| Schemas.PreSaveIdempotent | server/models/User.js:142-184 | saving twice equals saving once, and validity is kept |
| Database.FindUser | server/middleware/auth.js:13-17 | the caller's user, or None exactly when no stored user has the id |
| Database.AdminGate | server/middleware/auth.js:26-37 | 401 for an unknown caller, 403 for a non-admin, 200 for an admin |
| Database.RemoveKeepsEmails | server/routes/users.js:268 | deleting a user keeps the stored emails unique |
| Database.Store.constructor | server/models/User.js:68-135 | an empty store satisfies every schema and index invariant |
| Database.Store.InsertUser | server/models/User.js:68-84 | saving a valid user with a free email appends it and keeps the invariant; the other collections are unchanged |
| Database.Store.ReplaceUser | server/models/User.js:68-84 | updating a user in place keeps the ids, validity and unique emails |
| Database.Store.RemoveUser | server/routes/users.js:268 | deleting removes exactly that position |
| Database.Store.InsertSwap | server/models/SwapRequest.js:12-47 | saving a valid swap appends it under a fresh id |
| Database.Store.ReplaceSwap | server/models/SwapRequest.js:12-47 | updating a swap in place keeps its id and validity |
| Database.Store.RemoveSwap | server/routes/swaps.js:193 | deleting removes exactly that position |
| Database.Store.InsertReview | server/models/Review.js:3-36 | saving a review whose ratings are in 1..5 appends it |
| Database.Store.InsertNotification | server/models/Notification.js:3-25 | saving a notification with a known type and a non-empty title and message appends it |
| Database.Store.ReplaceNotification | server/models/Notification.js:3-25 | updating a notification in place keeps its id and validity |
| Database.Store.SetNotifications | server/routes/notifications.js:69-72 | a bulk update replaces the collection with a valid table of the same ids |
| Database.Store.RemoveNotification | server/routes/notifications.js:118-121 | deleting removes exactly that position |
| UserRoutes.Entries | server/routes/users.js:94 | keeping the non-blank entries trimmed never lengthens the list |
| UserRoutes.EntriesNonEmpty | server/routes/users.js:94-97 | no kept entry is empty |
| UserRoutes.EntriesClean | server/routes/users.js:94-97 | every kept entry is trimmed and non-empty |
| UserRoutes.EntriesComplete | server/routes/users.js:94-97 | every non-blank input is kept, trimmed |
| UserRoutes.EntriesSound | server/routes/users.js:94-97 | every kept entry is the trim of a non-blank input |
| UserRoutes.EntriesOfClean | server/routes/users.js:94-97 | a list of clean entries is kept as it is |
| UserRoutes.EntriesIdempotent | server/routes/users.js:94-97 | normalising twice is normalising once |
| UserRoutes.OfferedSkills | server/routes/users.js:92-107 | one valid intermediate skill per kept entry |
| UserRoutes.WantedSkills | server/routes/users.js:109-124 | one valid beginner skill per kept entry |
| UserRoutes.SlotsFrom | server/routes/users.js:127-143 | one valid default slot per kept entry, with that entry as its description |
| UserRoutes.Transform | server/routes/users.js:8-18 | `transformUser`: the view keeps the id, name, admin flag and rating, one entry per stored skill and slot, and the email exactly where the route selects it; it has no password |
| UserRoutes.OfferedShown | server/routes/users.js:13 | the view of stored offered skills is the list of kept names |
| UserRoutes.WantedShown | server/routes/users.js:14 | the view of stored wanted skills is the list of kept names |
| UserRoutes.SlotsShown | server/routes/users.js:15 | the view of stored slots is the list of kept descriptions |
| UserRoutes.ViewRoundTrip | server/routes/users.js:8-18 | `transformUser` shows exactly the normalised strings the lists were saved from |
| UserRoutes.Views | server/routes/users.js:50 | `users.map(transformUser)`: one view per user, in order |
| UserRoutes.ViewsSorted | server/routes/users.js:45-50 | views of users sorted by creation are sorted by join date |
| UserRoutes.ViewListing | server/routes/users.js:50-60 | transforming a page keeps its length, total and pagination |
| UserRoutes.ViewListingShows | server/routes/users.js:41-60 | every view on a page shows a stored user that matches the query, in join-date order |
| UserRoutes.ViewListingPage | server/routes/users.js:41-60 | transforming a window of the ordered matches gives the views of that window |
| UserRoutes.ListUsers | server/routes/users.js:21-65 | GET `/`: the `(page - 1) * limit` window, newest first, of the public non-admins matching search and location (the query filter `PublicMatch`), as email-less views, with the matching total and page count; 500 exactly when the skip is negative |
| UserRoutes.GetUser | server/routes/users.js:68-81 | GET `/:id`: 404 exactly when the user is missing or is private and not an admin; otherwise the view without an email |
| UserRoutes.ListedUserOpens | server/routes/users.js:21-81 | every user on the public listing opens with GET `/:id` to the same view |
| UserRoutes.ApplyTexts | server/routes/users.js:145-148 | name, location and photo sent are stored trimmed, `isPublic` and rating as sent, and absent ones kept |
| UserRoutes.ApplyActivity | server/routes/users.js:86-89 | the review count, points, streak, level, presence, stats and preferences the body carries are stored as sent, since neither route removes them |
| UserRoutes.ApplySkills | server/routes/users.js:92-124 | supplied skill lists are normalised and replace the stored ones; absent lists are kept |
| UserRoutes.CommonKeepsValid | server/routes/users.js:145-149 | an update that passes the validators keeps the user valid |
| UserRoutes.ApplyCommon | server/routes/users.js:96-149 | the fields both updates share: names trimmed, skills normalised, the rating as sent; the id, credentials, admin flag and availability untouched |
| UserRoutes.CommonRejected | server/models/User.js:69-82 | what `runValidators` refuses in either update; a refused update would store a user the schema rejects, whatever user it is applied to |
| UserRoutes.ApplyProfile | server/routes/users.js:84-149 | PUT `/profile` is the common update (trimmed texts, normalised skills, counters as sent) with availability normalised into slots; it never changes the id, email, password or admin flag |
| UserRoutes.ProfileKeepsCredentials | server/routes/users.js:86-89 | whatever email, password or admin flag the body carries, the result is the same |
| UserRoutes.ActivityOnlyUpdate | server/routes/users.js:86-89 | a profile body with only counters, presence or preferences stores exactly those fields |
| UserRoutes.UpdateProfile | server/routes/users.js:84-156 | 401 for an unknown caller, 500 when validation fails, else the caller alone is replaced by ApplyProfile and viewed |
| UserRoutes.AdminListUsers | server/routes/users.js:159-205 | admin gate, then the `(page - 1) * limit` window, newest first, of the non-admins matching the search and status (the query filter `AdminMatch`), with emails, the total and the page count |
| UserRoutes.AdminStatusSplit | server/routes/users.js:172-176 | the active and inactive listings together count the whole listing |
| UserRoutes.ApplyAdmin | server/routes/users.js:208-252 | the admin update is the common update (trimmed texts, normalised skills, counters as sent) with the email normalised and the admin flag set as sent; it keeps the id and password; an availability list is stored only when empty, since raw strings fail the slot cast |
| UserRoutes.AdminKeepsValid | server/routes/users.js:248-252 | an admin update that passes validation keeps the user valid |
| UserRoutes.AdminRejected | server/routes/users.js:248-252 | the admin update's validators refuse everything the common ones do; apart from the availability cast, a refused update would store a user the schema rejects |
| UserRoutes.AdminResultInvalid | server/models/User.js:69-82 | an admin update with a blank name, an out-of-range rating or a blank email yields a user the schema rejects |
| UserRoutes.AdminUpdateUser | server/routes/users.js:208-263 | admin gate, 500 on a failed validation or a taken email, 404 for a missing user, and 200 exactly when every check passes, with that user alone replaced |
| UserRoutes.AdminDeleteUser | server/routes/users.js:266-279 | admin gate, 404 for a missing user, 200 exactly for an admin naming an existing user, with exactly that user removed |
| AuthRoutes.FindByEmail | server/routes/auth.js:15 | `findOne({ email })`: the first user with the email, None exactly when there is none |
| AuthRoutes.Check | server/routes/auth.js:148-157 | login succeeds only on a stored user whose hash matches; with unique emails it fails exactly when none matches |
| AuthRoutes.NewUser | server/routes/auth.js:58-109 | the registered user: trimmed name, normalised email, hashed password, defaults, admin flag from the lower-cased email |
| AuthRoutes.NewUserValid | server/routes/auth.js:58-109 | a registration that `save` accepts builds a valid user |
| AuthRoutes.RegistrationRejected | server/models/User.js:69-71 | what `save` refuses: a refused registration would build a user the schema rejects, whatever its id and time |
| AuthRoutes.ListsValid | server/routes/auth.js:25-55 | the processed skill and availability lists hold only valid skills and slots |
| AuthRoutes.RegisteredView | server/routes/auth.js:119-130 | the new account's view shows the registered lists, trimmed, without blanks |
| AuthRoutes.PaddedAdminEmail | server/routes/auth.js:60-66 | ` admin@swapr.com` is stored as the admin's email but is not an admin |
| AuthRoutes.Register | server/routes/auth.js:10-140 | 400 exactly when the normalised email is taken, 500 when `save` refuses, else 201 with the new user appended and viewed |
| AuthRoutes.Authenticate | server/routes/auth.js:148-158 | a match is a user with the lowercased, trimmed email and the password's hash; with unique emails there is no match exactly when no such user has that hash |
| AuthRoutes.RegisteredCanLogIn | server/routes/auth.js:10-162 | after registering, the same email and password log in to the new user |
| AuthRoutes.FoundLast | server/routes/auth.js:15 | a user appended with an email nobody has is the one found |
| AuthRoutes.Login | server/routes/auth.js:143-193 | 400 exactly when the credentials do not match, else that user alone is marked online and active now |
| AuthRoutes.Me | server/routes/auth.js:196-215 | the caller's own view with the email, exactly as `transformUser` builds it; 401 for an unknown caller |
| AuthRoutes.Logout | server/routes/auth.js:218-231 | 401 for an unknown caller, else that user alone is marked offline |
| SwapRoutes.ListSwaps | server/routes/swaps.js:10-53 | the `(page - 1) * limit` window, by last update, of the caller's sent, received or all swaps with the status (the query filters `PartyMatch` and `StatusMatch`), with total and page count; 401/500 exactly on an unknown caller or a negative skip |
| SwapRoutes.UnlimitedListHoldsEveryMatch | server/routes/swaps.js:31-36 | with no limit every matching swap is listed |
| SwapRoutes.AllIsSentOrReceived | server/routes/swaps.js:16-25 | type `all` lists exactly what `sent` or `received` lists |
| SwapRoutes.AdminListSwaps | server/routes/swaps.js:203-235 | admin gate, then the `(page - 1) * limit` window, by last update, of every swap with the status (`AdminStatusMatch`), with total and page count |
| SwapRoutes.MeetingChoice | server/routes/swaps.js:74 | `meetingType \|\| 'video'`: an empty type is video, and only a given type the enum does not know fails |
| SwapRoutes.DurationChoice | server/routes/swaps.js:73 | `duration \|\| 60`: absent or 0 gives 60, so a stored duration is never 0, and a non-zero duration is kept as sent |
| SwapRoutes.CreateSwap | server/routes/swaps.js:56-108 | 401, 404 for a missing recipient, 500 for a draft validation refuses, and 201 exactly when every check passes: one pending swap from the caller appended and one `swap_request` notice to the recipient, titled "New Swap Request", whose message names the caller and the skills as sent, untrimmed |
| SwapRoutes.CreatedSwapIsSent | server/routes/swaps.js:16-19 | a created swap is on its sender's sent list and its recipient's received list |
| SwapRoutes.Counterparty | server/routes/swaps.js:135-137 | the notice goes to a party of the swap, and not to the caller when the parties differ |
| SwapRoutes.NoticeText | server/routes/swaps.js:139-154 | a title and message exist exactly for accepted, rejected and completed |
| SwapRoutes.ApplyPatch | server/routes/swaps.js:128-131 | only status and scheduled time change, and `updatedAt` moves only when something changed |
| SwapRoutes.UpdateSwap | server/routes/swaps.js:111-177 | 401, 404, 403 for a non-party, 500 exactly for an unknown status or `completed`, 200 exactly otherwise; a known status updates the swap, and the counterparty is notified for accepted and rejected, with NoticeText's title and message for the caller's name |
| SwapRoutes.NotifyCounterparty | server/routes/swaps.js:134-166 | accepted and rejected append one notice with NoticeText's title and message; completed fails with 500; other statuses notify nobody |
| SwapRoutes.CompletedTypeRefused | server/routes/swaps.js:150-159 | `completed` has a notice text but `swap_completed` is not a notification type |
| SwapRoutes.DeleteSwap | server/routes/swaps.js:180-200 | 401, 404, 403 unless the caller sent it, and 200 exactly when the caller sent it: exactly that swap is removed and no swap keeps the id |
| ReviewRoutes.SumBounds | server/routes/reviews.js:92-93 | ratings in 1..5 sum to between n and 5n |
| ReviewRoutes.MeanRating | server/routes/reviews.js:92-98 | the reviewee's new rating is the mean and lies in 1..5 |
| ReviewRoutes.ListReceived | server/routes/reviews.js:11-37 | the `(page - 1) * limit` window, newest first, of the user's received reviews, with total and pages; fails exactly on a negative skip |
| ReviewRoutes.ListGiven | server/routes/reviews.js:121-147 | the `(page - 1) * limit` window, newest first, of the caller's given reviews, with total and pages; 401/500 exactly on an unknown caller or a negative skip |
| ReviewRoutes.HasReviewed | server/routes/reviews.js:67-74 | true exactly when a review of the swap by that reviewer exists |
| ReviewRoutes.StoreReview | server/routes/reviews.js:76-90 | the review is appended as sent, and the reviewer has now reviewed the swap |
| ReviewRoutes.ReviewMessage | server/routes/reviews.js:104 | `${name} left you a ${rating}-star review`, with the rating as its digit |
| ReviewRoutes.NotifyReviewee | server/routes/reviews.js:100-108 | one unread `review` notice to the reviewee is appended |
| ReviewRoutes.ReviewGate | server/routes/reviews.js:40-74 | 401, 404 for a missing swap, 403 for a non-party, 400 for a second review, 500 for invalid ratings, else 201 |
| ReviewRoutes.CreateReview | server/routes/reviews.js:40-118 | the gate's code; on 201 one review appended, the reviewee re-rated as the mean and one notice sent |
| ReviewRoutes.RecomputeRating | server/routes/reviews.js:92-98 | the reviewee's rating becomes the mean of their reviews and `totalReviews` their count |
| NotificationRoutes.ListNotifications | server/routes/notifications.js:9-44 | the `(page - 1) * limit` window, newest first, of the caller's notices (unread only on `'true'`), with total, pages and an unread count over all of them |
| NotificationRoutes.UnreadCountIndependent | server/routes/notifications.js:25-28 | the unread count does not depend on the filter or the page |
| NotificationRoutes.MarkRead | server/routes/notifications.js:47-64 | 401 for an unknown caller, 404 unless the caller owns it, 200 exactly when they do: only that notice becomes read, its `updatedAt` stamped |
| NotificationRoutes.ReadAllFor | server/routes/notifications.js:69-72 | the bulk update keeps the length |
| NotificationRoutes.ReadAllEffect | server/routes/notifications.js:69-72 | every notice of the caller is read, the others and the already-read ones are unchanged, only `isRead` and `updatedAt` change, and the caller has no unread notice |
| NotificationRoutes.ReadAllIdempotent | server/routes/notifications.js:67-79 | marking all read again, at any later time, changes nothing |
| NotificationRoutes.ReadAllKeepsTable | server/routes/notifications.js:69-72 | the bulk update keeps the ids and validity |
| NotificationRoutes.MarkAllRead | server/routes/notifications.js:67-79 | 401 for an unknown caller, else the collection is the bulk update |
| NotificationRoutes.Audience | server/routes/notifications.js:86-92 | exactly the non-admins in the audience (`active` public, `inactive` private) |
| NotificationRoutes.AudienceSplit | server/routes/notifications.js:86-92 | active and inactive audiences together are the whole audience |
| NotificationRoutes.SendAll | server/routes/notifications.js:95-103 | one unread announcement per target appended, in order |
| NotificationRoutes.Broadcast | server/routes/notifications.js:82-113 | admin gate; 500 exactly when a target exists and the title or message is empty; 200 exactly otherwise, with `sentCount` notices, one per audience member |
| NotificationRoutes.DeleteNotification | server/routes/notifications.js:116-132 | 401 for an unknown caller, 404 unless the caller owns it, 200 exactly when they do: exactly that notice is removed |
| SwapsPage.UserRequests | src/components/Swaps/SwapsPage.tsx:18-31 | nothing without a user; else exactly the tab's requests with the status filter, last updated first |
| SwapsPage.Listed | src/components/Swaps/SwapsPage.tsx:21-29 | a request is listed exactly when it is on the tab and passes the filter |
| SwapsPage.TabsCoverParties | src/components/Swaps/SwapsPage.tsx:21-26 | a request is on the sent or received tab exactly when the user is a party |
| SwapsPage.ControlsFor | src/components/Swaps/SwapsPage.tsx:238-282 | Accept/Reject show exactly for a received pending request, Complete for accepted, Review for completed and not yet reviewed, the delete button exactly for rejected |
| SwapsPage.RowControls | src/components/Swaps/SwapsPage.tsx:193-198 | a row renders nothing, its actions included, exactly when `getUserById` does not find the counterparty among the loaded users; else it carries ControlsFor's actions |
| SwapsPage.DecisionNeedsSender | src/components/Swaps/SwapsPage.tsx:193-198 | a received pending request offers Accept/Reject exactly while its sender is loaded |
| SwapsPage.PendingSentHasNoControl | src/components/Swaps/SwapsPage.tsx:274 | for a pending sent request the delete slot renders `true`, which draws nothing |
| SwapsPage.OneActionAtATime | src/components/Swaps/SwapsPage.tsx:238-282 | at most one kind of action shows, and a cancelled request shows none |
| SwapsPage.UserReviewed | src/components/Swaps/SwapsPage.tsx:101-103 | true exactly when a signed-in user has a review for the request |
| SwapsPage.ReviewShownUntilReviewed | src/components/Swaps/SwapsPage.tsx:264 | the Review button shows exactly for a completed request the user has not yet reviewed |
| SwapsPage.Response | src/components/Swaps/SwapsPage.tsx:33-61 | no calls for an unknown request; else a status update and a notice to the sender |
| SwapsPage.ResponseReachesSender | src/components/Swaps/SwapsPage.tsx:33-61 | accepting or declining a request whose id is unique updates it and sends its sender an unread notice of type swap_accepted or swap_rejected, with the matching title and message |
| SwapsPage.RevieweeIsCounterparty | src/components/Swaps/SwapsPage.tsx:78 | the reviewee of a listed request is a party of it, and not the user when the parties differ |
| SwapsPage.SwapsScreen.constructor | src/components/Swaps/SwapsPage.tsx:9-11 | the page opens on the received tab with every status and no review modal |
| SwapsPage.SwapsScreen.HandleAccept | src/components/Swaps/SwapsPage.tsx:33-46 | records the accept response and changes nothing else |
| SwapsPage.SwapsScreen.HandleReject | src/components/Swaps/SwapsPage.tsx:48-61 | records the decline response and changes nothing else |
| SwapsPage.SwapsScreen.HandleComplete | src/components/Swaps/SwapsPage.tsx:63-66 | records the completion and opens the review modal for the request |
| SwapsPage.SwapsScreen.HandleDelete | src/components/Swaps/SwapsPage.tsx:68-72 | records the deletion only when confirmed |
| SwapsPage.SwapsScreen.HandleSubmitReview | src/components/Swaps/SwapsPage.tsx:74-97 | for a known request and a signed-in user, records the review of the counterparty and its notice, then closes the modal |
| ProfilePage.FormOf | src/components/Profile/ProfilePage.tsx:8-16 | the form copies the user's name, lists and visibility, with a missing location or photo as empty text; without a user it is empty and public |
| ProfilePage.AddKeepsDistinct | src/components/Profile/ProfilePage.tsx:41-69 | adding never lists an entry twice |
| ProfilePage.AddTwiceOnce | src/components/Profile/ProfilePage.tsx:41-69 | adding the same text again changes nothing |
| ProfilePage.AddAllKeepsDistinct | src/components/Profile/ProfilePage.tsx:41-69 | any run of adds keeps the list free of duplicates and only appends |
| ProfilePage.AddKeepsClean | src/components/Profile/ProfilePage.tsx:41-69 | added entries are trimmed and non-empty, so the server's normalisation keeps the list unchanged |
| ProfilePage.RemoveKeepsDistinct | src/components/Profile/ProfilePage.tsx:71-90 | removing keeps the list free of duplicates and adds nothing |
| ProfilePage.ProfileForm.constructor | src/components/Profile/ProfilePage.tsx:7-19 | the form is filled from the user, the inputs are empty, and editing is off |
| ProfilePage.ProfileForm.AddSkillOffered | src/components/Profile/ProfilePage.tsx:41-49 | the offered list and its input follow the add rule; nothing else changes |
| ProfilePage.ProfileForm.AddSkillWanted | src/components/Profile/ProfilePage.tsx:51-59 | the wanted list and its input follow the add rule; nothing else changes |
| ProfilePage.ProfileForm.AddAvailability | src/components/Profile/ProfilePage.tsx:61-69 | the availability list and its input follow the add rule; nothing else changes |
| ProfilePage.ProfileForm.RemoveSkillOffered | src/components/Profile/ProfilePage.tsx:71-76 | only that position of the offered list goes |
| ProfilePage.ProfileForm.RemoveSkillWanted | src/components/Profile/ProfilePage.tsx:78-83 | only that position of the wanted list goes |
| ProfilePage.ProfileForm.RemoveAvailability | src/components/Profile/ProfilePage.tsx:85-90 | only that position of the availability list goes |
| ProfilePage.ProfileForm.HandleCancel | src/components/Profile/ProfilePage.tsx:28-39 | the form is reset to the user's values and editing ends |
| BrowsePage.MatchCount | src/components/Browse/BrowsePage.tsx:83-88 | the number of matching skills is at most the number of skills |
| BrowsePage.FilterUsers | src/components/Browse/BrowsePage.tsx:50-96 | a permutation of the eligible users; by rating or join date when asked; by match count for relevance with a query; otherwise in list order |
| BrowsePage.ShowsEligible | src/components/Browse/BrowsePage.tsx:51-67 | a user is shown exactly when eligible, never the viewer, a private user or an admin |
| BrowsePage.Eligible | src/components/Browse/BrowsePage.tsx:51-67 | an eligible user is someone else, public and not an admin, among the search results for a non-blank query and with a location for a non-blank location filter; with both filters blank, eligibility is exactly that |
| AnnouncementsPage.Targets | src/components/Admin/AdminAnnouncementsPage.tsx:37-49 | exactly the non-admins in the chosen audience |
| AnnouncementsPage.Announce | src/components/Admin/AdminAnnouncementsPage.tsx:52-60 | one unread announcement per target, in target order |
| AnnouncementsPage.AnnounceNext | src/components/Admin/AdminAnnouncementsPage.tsx:52-60 | one more target gives one more notice at the end |
| AnnouncementsPage.UserCounts | src/components/Admin/AdminAnnouncementsPage.tsx:87-94 | `all` is `active` plus `inactive`, and each count is the size of the matching audience |
| AnnouncementsPage.AnnouncementsPanel.constructor | src/components/Admin/AdminAnnouncementsPage.tsx:34-79 | the panel opens with the stored history and an empty form |
| AnnouncementsPage.AnnouncementsPanel.HandleSendAnnouncement | src/components/Admin/AdminAnnouncementsPage.tsx:34-79 | a blank title or message changes nothing; else every target is notified, the record goes first and the form is reset |
| AnnouncementsPage.AnnouncementsPanel.Record | src/components/Admin/AdminAnnouncementsPage.tsx:63-76 | the record goes first in the history and the form is reset |
| AnnouncementsPage.AnnouncementsPanel.Issue | src/components/Admin/AdminAnnouncementsPage.tsx:52-60 | the loop appends one notice per target, in order |
| AnnouncementsPage.AnnouncementsPanel.HandleDeleteAnnouncement | src/components/Admin/AdminAnnouncementsPage.tsx:81-85 | once confirmed, the entries with that id go and the rest keep their order |
| AnnouncementsPage.DeleteRemovesOnlyThatId | src/components/Admin/AdminAnnouncementsPage.tsx:83 | after a delete an entry is kept exactly when its id differs, and deleting distributes over concatenation |
| AnnouncementsPage.OneNoticePerTarget | src/components/Admin/AdminAnnouncementsPage.tsx:52-69 | the recorded count is the number of notices, each unread and addressed to a member of the audience |
| AnnouncementsPage.SameAudienceAsServer | server/routes/notifications.js:86-92 | given the same list of users, the page picks the same users, in the same order, as the server's broadcast; the page's own list is narrower (LoadedListHasNoInactive) |
| AnnouncementsPage.PublicListAudiences | src/components/Admin/AdminAnnouncementsPage.tsx:37-49 | over a list of public non-admins, `inactive` targets nobody, `active` and `all` target the whole list, and the counts are the list size, the list size and 0 |
| AnnouncementsPage.LoadedListHasNoInactive | src/hooks/useData.ts:7-23 | the users the page loads are one page of GET `/users` with no filter, so `inactive` reaches none of them and `active` reaches the same users as `all` |
| RegisterForm.Validation | src/components/Auth/RegisterForm.tsx:26-34 | the form refuses exactly a mismatch or a password under 6 characters, with the mismatch reported first |
| RegisterForm.FormAccountIsBare | src/components/Auth/RegisterForm.tsx:39-47 | an account registered from the form has no skills or availability |
| RegisterForm.RegisterScreen.constructor | src/components/Auth/RegisterForm.tsx:10-19 | the form opens empty, without an error, not loading |
| RegisterForm.RegisterScreen.HandleSubmit | src/components/Auth/RegisterForm.tsx:22-57 | a refused form shows its error and submits nothing; else one registration is submitted and the result's error shown |
| UserProfileModal.SendCalls | src/components/UserProfile/UserProfileModal.tsx:23-42 | a pending swap from the viewer to the user, then an unread `swap_request` notice to the user |
| UserProfileModal.RequestModal.constructor | src/components/UserProfile/UserProfileModal.tsx:12-21 | the modal opens without the form and with an empty request |
| UserProfileModal.RequestModal.OpenRequestForm | src/components/UserProfile/UserProfileModal.tsx:155-158 | the form opens only for a signed-in viewer who is not the user |
| UserProfileModal.RequestModal.CancelRequestForm | src/components/UserProfile/UserProfileModal.tsx:219 | the form closes and the request is kept |
| UserProfileModal.RequestModal.ChooseOffered | src/components/UserProfile/UserProfileModal.tsx:176-185 | the offered skill is one of the viewer's offered skills |
| UserProfileModal.RequestModal.ChooseWanted | src/components/UserProfile/UserProfileModal.tsx:192-200 | the wanted skill is one of the user's offered skills |
| UserProfileModal.RequestModal.EditMessage | src/components/UserProfile/UserProfileModal.tsx:210 | only the message changes |
| UserProfileModal.RequestModal.HandleSendRequest | src/components/UserProfile/UserProfileModal.tsx:23-50 | an incomplete request sends nothing; else the two calls are recorded, each a proper request between distinct parties, then the form resets and the modal closes |

## Left out

- Token signing and verification (JWT) are left out. The middleware is modelled as "the caller's id must exist", and a successful login or registration is where a token would be issued.
- AnnouncementsPage: the fetch behind `useUsers` is not modelled. The page's user list is one page of GET `/users`: public non-admins only, 50 by default. LoadedListHasNoInactive states what that means for the audiences. The broadcast the page models therefore never reaches the private users the server's `inactive` audience would.
- bcrypt is left out. The hash is an uninterpreted function `hasher` held by the store. Because nothing constrains `hasher`, AuthRoutes.RegistrationRejected also refuses an empty hash; bcrypt never returns one, so that 500 path does not occur in the program.
- MongoDB ObjectIds and their casts are left out. Ids are natural numbers from one counter, and an id that fails to cast is treated like an unknown id.
- `$regex` with option `i` is modelled as a case-insensitive substring test. Regular-expression metacharacters in a search are not interpreted.
- Case folding covers ASCII letters only, because Unicode case mapping is outside the model.
- Ratings are real numbers, not IEEE doubles.
- Concurrency is left out: two requests racing on one document, and the unique index under concurrent inserts.
- `populate` and the `select` projections beyond dropping the password and email are left out.
- Skill entries sent as objects rather than strings are left out, as are `parseInt` of non-numeric query values.
- These User fields are left out: badges, verifications, coordinates, monthly activity and `updatedAt`. No route in the core reads them.
- UserRoutes.UserUpdate: a `stats` or `preferences` object in an update body replaces the stored one whole. Mongoose's casting of a partial nested object, with its defaults filled in, is not modelled. `createdAt` and `_id` in a body are not modelled either, as Mongoose keeps both.
- The `data` and `actionUrl` fields of notifications are left out. They are recorded only as the id they carry.
- The client's `createNotification`, `updateSwapRequest`, `deleteSwapRequest`, `createReview`, `register` and `createSwapRequest` are left out. Each call is recorded as a value and its effect is not modelled.
- `window.confirm` is a `confirmed` parameter. `alert`, toasts, `localStorage` and navigation are left out.
- `Date.now()` and `new Date()` are a `now` parameter.
- BrowsePage.FilterUsers: the in-place `Array.prototype.sort` is modelled on sequences. It is proved to return a sorted permutation; its exact order between equal keys is not stated.
- ProfilePage: `handleSave` and the plain field inputs are left out. They pass the form to `updateProfile`, which is UserRoutes.UpdateProfile.
- RegisterForm.Validation: the password length is counted in characters, not UTF-16 code units.
- BrowsePage: the search results come from the server and are a parameter.
