# PeerPath in Dafny

PeerPath is a campus peer-learning web application for the Academy of
Technology (AOT). This project models its core in Dafny and proves properties
of the model. The core has two parts.

- **The e-mail + OTP sign-in flow.** This is the server's authentication
  controller (`register`, `resendOtp`, `checkUser`, `verifyOtp`, `login`). It
  runs over a store of user records. The client's sign-in dialog drives it.
- **The list and state logic of the client components.**
  - The application shell: the notifications, the rooms a user waits for, the
    protected tabs, logout and the profile registry.
  - The navigation bar.
  - The study rooms and the peer directory.
  - The campus events page and the resource hub.
  - The syllabus tracker and the campus calendar.

Each source file becomes one module:

| module | models |
|---|---|
| `AuthController` (auth_controller.dfy) | server/controllers/authController.js |
| `AuthModal` (auth_modal.dfy) | components/AuthModal.tsx |
| `App` (app.dfy) | App.tsx |
| `Navbar` (navbar.dfy) | components/Navbar.tsx |
| `StudyGroups` (study_groups.dfy) | components/StudyGroups.tsx |
| `PeerFinder` (peer_finder.dfy) | components/PeerFinder.tsx |
| `CampusHub` (campus_hub.dfy) | components/CampusHub.tsx |
| `ResourceHub` (resource_hub.dfy) | components/ResourceHub.tsx |
| `SyllabusTracker` (syllabus_tracker.dfy) | components/SyllabusTracker.tsx |
| `AotCalendar` (aot_calendar.dfy) | components/AOTCalendar.tsx |
| `Types` (types.dfy) | types.ts |
| `Strings`, `Seqs` | the JavaScript string and array operations the code uses (`toLowerCase`, `includes`, `endsWith`, `String(n)`, `filter`, `sort`, `slice`) |

**Pure code and stateful code.**
- Code that only computes becomes functions and lemmas.
- Code that changes component state becomes a class whose fields are that
  state. Its methods say the whole new state in their `ensures`.

**How each controller handler is written.**
- It is specified by a pure `…Outcome` function, which gives the new store
  and the reply.
- The matching `UserStore` method is proved to produce exactly that outcome.

**External inputs become parameters.** These are:
- answers from the server and the network;
- the clock;
- the random OTPs, salts and ids;
- the user's answer to a confirmation prompt.

**Timers become steps.** A timer the code schedules is a separate method that
the environment calls when the timer fires. Examples are `RoomGoesLive`,
`ProgressTick`, `CompleteUpload` and `FinishUpload`.

Some behaviours of the code are easy to get wrong, and the model keeps them as
written:
- E-mail lookup on the server is exact. No case folding or trimming happens
  there; only the client lower-cases when it checks the domain.
- The server has no minimum password length. Only the dialog asks for six
  characters (`AuthController.RegisterAcceptsShortPassword`).
- A code is refused as expired only when its expiry is strictly before now.
  So it is still accepted at the exact millisecond of expiry
  (`AuthController.ExpiryBoundary`).
- The code is compared before the expiry is checked.
- `resendOtp` answers status 201 with the next step "verify the otp". It does
  not answer "Verify_OTP".
- A successful verification clears the code to "" and the expiry to 0.
- `login` issues a fresh code after every correct password, whether or not
  the account is verified. The check for unverified accounts is commented out
  in the code.

## Model

| member | source | states |
|---|---|---|
| AuthController.OtpString | server/controllers/authController.js:18 | a drawn value in 100000..999999 prints as six decimal digits with a non-zero first digit, and reads back as the same value |
| AuthController.IssueOtp | server/controllers/authController.js:57-59 | a re-issued code is a six-digit code for the drawn value that expires ten minutes after now; the name, e-mail, password and verified flag are unchanged |
| AuthController.RegisterOutcome | server/controllers/authController.js:6-45 | any missing field gives 400 and leaves the store unchanged; a known e-mail gives 409 and leaves the store unchanged; otherwise registration succeeds (201, next "Verify_OTP") with an unverified record holding the bcrypt digest and a fresh ten-minute code; no record is lost, no verified record becomes unverified, and the store invariant is kept |
| AuthController.ResendOtpOutcome | server/controllers/authController.js:47-76 | no e-mail gives 400; an unknown e-mail gives 404; otherwise the answer is 201 with a fresh code and expiry, and the rest of the record is kept |
| AuthController.CheckUserOutcome | server/controllers/authController.js:78-93 | the store is never changed; no e-mail gives 400; otherwise the answer is 200 and says the user exists exactly when the e-mail is in the store |
| AuthController.VerifyOtpOutcome | server/controllers/authController.js:95-128 | a failure leaves the store unchanged; missing fields give 400 and an unknown e-mail gives 404; "Invalid OTP" exactly when the codes differ; "OTP Expired" exactly when they match and the expiry is before now; otherwise success marks the record verified, clears the code and returns the name and e-mail |
| AuthController.LoginOutcome | server/controllers/authController.js:130-179 | missing fields give 400; an unknown e-mail gives 404; a wrong password gives 400 "Invalid credentials"; the answer is success (200, next "Verify_OTP") exactly when the password matches the digest, and then a fresh code is issued |
| AuthController.RegisterThenCheckUser | server/controllers/authController.js:12-86 | after a successful registration, checking that e-mail answers "User exists" |
| AuthController.RegisterThenLogin | server/controllers/authController.js:16-143 | after registering, login succeeds exactly with the password that was registered |
| AuthController.VerifyOtpNoReplay | server/controllers/authController.js:111-121 | a code that was accepted once is refused as "Invalid OTP" when presented again |
| AuthController.ExpiryBoundary | server/controllers/authController.js:59-117 | an issued code is accepted at exactly ten minutes after issue and refused as "OTP Expired" one millisecond later |
| AuthController.LoginInvalidatesEarlierCode | server/controllers/authController.js:111-153 | after a login, a code drawn from any other value is refused, even before it would have expired |
| AuthController.RegisterAcceptsShortPassword | server/controllers/authController.js:8-17 | the server registers a one-character password |
| AuthController.SignupScenario | server/controllers/authController.js:6-128 | registering a fresh address answers 201; "000000" is refused; the mailed code then verifies the account and returns the registered name |
| AuthController.UserStore.constructor | server/controllers/authController.js:2 | the store starts empty and satisfies its invariant |
| AuthController.UserStore.Register | server/controllers/authController.js:6-45 | the new store and the reply are exactly `RegisterOutcome` of the old store; the invariant is kept |
| AuthController.UserStore.ResendOtp | server/controllers/authController.js:47-76 | the new store and the reply are exactly `ResendOtpOutcome` of the old store |
| AuthController.UserStore.CheckUser | server/controllers/authController.js:78-93 | the reply is `CheckUserOutcome`'s; for a non-empty e-mail it reports existence exactly when the e-mail is stored |
| AuthController.UserStore.VerifyOtp | server/controllers/authController.js:95-128 | the new store and the reply are exactly `VerifyOtpOutcome` of the old store |
| AuthController.UserStore.Login | server/controllers/authController.js:130-179 | the new store and the reply are exactly `LoginOutcome` of the old store |
| AuthModal.ValidateEmailIgnoresCase | components/AuthModal.tsx:37-39 | the domain check gives the same answer for an address and its lower-cased form |
| AuthModal.ValidateEmailBySuffix | components/AuthModal.tsx:37-39 | an address passes exactly when it has at least seven characters and its last seven, lower-cased, are ".edu.in" |
| AuthModal.JoinFilledSlots | components/AuthModal.tsx:172 | six filled one-digit boxes join to a six-digit code whose i-th character is box i |
| AuthModal.JoinSlotsLength | components/AuthModal.tsx:152-331 | one-digit boxes join to a code no longer than the number of boxes, and as long exactly when every box is filled |
| AuthModal.Modal.constructor | components/AuthModal.tsx:13-22 | the dialog opens on the initial step with empty fields, six empty boxes and no error |
| AuthModal.Modal.Reset | components/AuthModal.tsx:25-35 | closing resets the step, the fields, the boxes, the error and the toast, and nothing else |
| AuthModal.Modal.TypeEmail | components/AuthModal.tsx:238 | typing sets the e-mail field and nothing else |
| AuthModal.Modal.TypeName | components/AuthModal.tsx:256 | typing sets the name field and nothing else |
| AuthModal.Modal.TypePassword | components/AuthModal.tsx:262 | typing sets the password field and nothing else |
| AuthModal.Modal.InitialSubmit | components/AuthModal.tsx:57-79 | an address outside the domain gives the error "Only .edu.in emails from AOT are permitted." and does not move on; otherwise a check that finds the address leads to the login step and any other answer to the signup step |
| AuthModal.Modal.HandleSignup | components/AuthModal.tsx:91-119 | a password shorter than six UTF-16 code units (the unit `length` counts) gives "Password must be at least 6 characters." and sends nothing; otherwise the request carries the name, e-mail and password; success goes to the OTP step with the toast shown; failure shows the server's message or "Registration failed" (a network error shows its own message) |
| AuthModal.PasswordLengthInCodeUnits | components/AuthModal.tsx:93 | three emoji outside the Basic Multilingual Plane are three characters but six code units, so they pass the six-character test; "abc" does not |
| AuthModal.Modal.HandleLogin | components/AuthModal.tsx:121-150 | success with next "Verify_OTP" goes to the OTP step and raises the toast; any other success closes the dialog signed in and leaves the toast flag as it was; failure shows the message or "Login failed"; the typed fields and code boxes never change |
| AuthModal.Modal.HandleOtpChange | components/AuthModal.tsx:152-159 | a single digit or an empty value replaces exactly that box; anything else leaves the boxes unchanged |
| AuthModal.Modal.CanVerify | components/AuthModal.tsx:331 | the verify button is enabled exactly when the joined code has six characters, and then it is all digits |
| AuthModal.Modal.HandleVerifyOtp | components/AuthModal.tsx:165-191 | it submits the six boxes joined; success goes to the success step and records the verified identity; a failure reply empties the boxes and shows the message or "Invalid OTP"; a network error keeps the boxes |
| AuthModal.Modal.SuccessTimerAsWritten | components/AuthModal.tsx:178-181 | as written, the success timer reports the dialog's own name and e-mail fields |
| AuthModal.Modal.SuccessTimer | components/AuthModal.tsx:178-181 | corrected, the success timer reports the identity the server returned on verification |
| AuthModal.Modal.SwitchStep | components/AuthModal.tsx:274-306 | "Go Back", "Register new account instead?" and "Use different email" move only to their target step |
| AuthModal.EnterCode | components/AuthModal.tsx:152-326 | typing six digits box by box leaves boxes that join to exactly that code |
| AuthModal.ReturningUserSignsIn | components/AuthModal.tsx:57-191 | a registered user who gives the right password and types the mailed code ends on the success step; the name field is empty and the verified identity carries the registered name |
| AuthModal.LoginPathReportsEmptyName | components/AuthModal.tsx:179 | as written, a returning user named "Alice" is reported to the shell with an empty name |
| AuthModal.LoginPathReportsRecordedName | components/AuthModal.tsx:179 | corrected, the same sign-in reports "Alice" |
| App.MarkRead | App.tsx:82-84 | length, order and ids are kept; an entry is read afterwards exactly when it was read before or has the given id; no other field changes |
| App.MarkReadIdempotent | App.tsx:82-84 | marking the same id read twice is the same as marking it once |
| App.FindByEmail | App.tsx:110-111 | finds the first registry index with that e-mail, and none exactly when no entry has it |
| App.UpdateRegistry | App.tsx:110-115 | only the first entry with the e-mail gets the new name; its e-mail and other fields and every other entry are unchanged; the length is kept |
| App.UpdateRegistryNoMatch | App.tsx:112 | with no entry for the e-mail the registry is unchanged |
| App.UpdateRegistryIdempotent | App.tsx:110-115 | updating twice with the same name equals updating once |
| App.Shell.constructor | App.tsx:20-48 | the shell starts on the home tab with the stored user, notifications, waited-for rooms and registry, and no timers |
| App.Shell.AddNotification | App.tsx:71-79 | exactly one unread notification with the given fields is put in front; the rest are unchanged |
| App.Shell.ClearNotifications | App.tsx:81 | the list becomes empty |
| App.Shell.ReadNotification | App.tsx:82-84 | the list becomes `MarkRead` of the old list |
| App.Shell.EnforceProtectedRoute | App.tsx:51-61 | afterwards a signed-out user is on the home tab; if a signed-out user was on another tab, the auth dialog opens and one "Authentication Required" alert is added; otherwise nothing changes |
| App.Shell.UpdateProfile | App.tsx:105-122 | the user becomes the updated user; the registry becomes `UpdateRegistry` of the old one; one "Profile Updated" notification is added |
| App.Shell.Logout | App.tsx:124-131 | no user, home tab, no peer chat, no room, settings closed |
| App.Shell.ClickMobileTab | App.tsx:254-260 | a signed-out tap on a tab other than home opens the auth dialog and keeps the tab; otherwise the tab becomes the tapped one |
| App.Shell.JoinGroup | App.tsx:148-160 | without a user the auth dialog opens and nothing else changes; otherwise the room becomes active and one "Room Entered" notification is added |
| App.Shell.NotifyRoom | App.tsx:162-176 | without a user the auth dialog opens and no list changes; a room already waited for changes nothing; otherwise its id is appended once, one "Notification Set" notification is added and a go-live timer starts; no room is waited for twice |
| App.Shell.AppendNotified | App.tsx:167 | a room not yet waited for is appended and its timer recorded; the invariant is kept |
| App.Shell.RoomGoesLive | App.tsx:178-188 | the timer's room leaves the waited-for list, is appended to the live rooms and its timer is removed; one "Room Now Live!" notification linking to "groups" is added; the invariant is kept |
| App.Shell.RemovePending | App.tsx:179 | the fired room's id is filtered out of the waited-for list and its timer removed; every other timer's room is still waited for |
| App.RemovedIdsDistinct | App.tsx:179 | removing one timer keeps the remaining room ids distinct |
| Navbar.UnreadCount | components/Navbar.tsx:30 | the count is at most the length, and zero exactly when every notification is read |
| Navbar.ShowBadge | components/Navbar.tsx:79 | the badge shows exactly when some notification is unread |
| Navbar.UnreadAfterAdd | components/Navbar.tsx:30 | a new unread notification in front adds exactly one to the count |
| Navbar.UnreadAfterRead | components/Navbar.tsx:30 | marking an id read never raises the count |
| Navbar.UnreadDropsOnRead | components/Navbar.tsx:30 | marking read the id of an unread notification lowers the count |
| Navbar.UnreadCountAppend | components/Navbar.tsx:30 | a notification added at the end raises the count by one exactly when it is unread |
| Navbar.TabClick | components/Navbar.tsx:53-59 | a signed-out click on a tab other than home asks to sign in, and exactly then; any other click switches to that tab |
| Navbar.TabClickKeepsGuard | components/Navbar.tsx:53-59 | a tab click never takes a signed-out user to a tab other than home |
| Navbar.NotificationClick | components/Navbar.tsx:109 | a click marks that notification's id as read and closes the dropdown |
| Navbar.ClickReadsEntry | components/Navbar.tsx:109 | after a click the clicked entry is read, and if it was unread the count drops |
| StudyGroups.FilteredGroups | components/StudyGroups.tsx:36-46 | a room is listed exactly when its lower-cased title or subject contains the lower-cased search and it passes the chip; the list keeps the original order |
| StudyGroups.FilterKinds | components/StudyGroups.tsx:39-44 | "All" passes everything; "Live Only" passes exactly the rooms live from the start or reported live since; any other chip passes exactly its subject |
| StudyGroups.EverythingListed | components/StudyGroups.tsx:36-46 | the "All" chip with an empty search lists every room in order |
| StudyGroups.GroupAction | components/StudyGroups.tsx:84-91 | the card's button joins exactly the rooms that are actually live, and otherwise asks to be notified |
| StudyGroups.Rooms.constructor | components/StudyGroups.tsx:13-22 | the page starts with the given rooms, the "All" chip, no search, the dialog closed and an empty form |
| StudyGroups.Rooms.CreateRoom | components/StudyGroups.tsx:48-72 | a title that `trim` empties (only ECMAScript white space and line terminators) changes nothing; otherwise one room with the form's title and subject, one member and the fixed description is put in front; it has a scheduled time only when it was scheduled with a time given; the dialog closes, the form resets and the room is joined if live or notified otherwise |
| StudyGroups.BlankTitles | components/StudyGroups.tsx:49 | a title of ideographic, no-break, em, Ogham and tab spaces only is blank, so no room is made; " a " and a zero-width space are not blank |
| StudyGroups.Rooms.ResetForm | components/StudyGroups.tsx:74-77 | the form returns to an empty title, subject "CSE", no time and the scheduler hidden |
| StudyGroups.Rooms.CloseModal | components/StudyGroups.tsx:79-82 | the dialog closes and the form resets |
| PeerFinder.FilteredPeers | components/PeerFinder.tsx:42-46 | a peer is listed exactly when the lower-cased search occurs in its name, its subject or one of its tags; the order is kept |
| PeerFinder.EmptySearchKeepsAll | components/PeerFinder.tsx:42-46 | an empty search lists every peer in order |
| PeerFinder.Toggled | components/PeerFinder.tsx:21-23 | the id is followed afterwards exactly when it was not before; every other id keeps its state |
| PeerFinder.ToggledNoDuplicates | components/PeerFinder.tsx:21-23 | toggling never makes an id appear twice |
| PeerFinder.ToggledTwice | components/PeerFinder.tsx:21-23 | toggling twice gives back the same ids, and the same list when the id was not followed |
| PeerFinder.Finder.constructor | components/PeerFinder.tsx:12-18 | the follow list starts as the stored one |
| PeerFinder.Finder.ToggleFollow | components/PeerFinder.tsx:20-31 | the list becomes `Toggled` of the old list; the follow callback fires exactly when the peer was not followed before |
| CampusHub.FilterEvents | components/CampusHub.tsx:99-104 | an event is listed exactly when it matches the category (or "All") and the lower-cased search occurs in its title or description; the order is kept |
| CampusHub.AllEventsListed | components/CampusHub.tsx:22-104 | "All" with an empty search lists all six events in order |
| CampusHub.EmptySearchKeepsAll | components/CampusHub.tsx:99-104 | "All" with an empty search keeps any list of events whole |
| CampusHub.EventCategories | components/CampusHub.tsx:22-95 | each listed event is a hackathon, a championship, a tech fest or a function |
| CampusHub.NoWorkshops | components/CampusHub.tsx:97-104 | the "Workshop" chip shows no event, whatever the search |
| ResourceHub.FilteredResources | components/ResourceHub.tsx:53-59 | a resource is listed exactly when the lower-cased search occurs in its lower-cased title and the chip is "All", its department or its type; the order is kept |
| ResourceHub.FileError | components/ResourceHub.tsx:67-82 | a file is accepted exactly when it is a PDF of at most 25 MiB; otherwise the matching message is given |
| ResourceHub.FileSizeBoundary | components/ResourceHub.tsx:74 | a PDF of 26214400 bytes is accepted and one byte more is refused as too large |
| ResourceHub.ProgressStep | components/ResourceHub.tsx:107-113 | below 90 the progress rises by ten; from 90 on it stays at 90 |
| ResourceHub.ProgressAfterTicks | components/ResourceHub.tsx:107-113 | after n interval runs the progress is 10n capped at 90 |
| ResourceHub.ProgressStopsAt90 | components/ResourceHub.tsx:108-110 | once the progress reaches 90 it stays there |
| ResourceHub.Hub.constructor | components/ResourceHub.tsx:7-21 | the hub starts with the given list, no search, the "All" chip, an idle upload and the default form |
| ResourceHub.Hub.FileSelect | components/ResourceHub.tsx:61-85 | no file changes nothing but the error; a refused file clears the selection and shows the reason; an accepted file is selected and the error cleared |
| ResourceHub.Hub.Upload | components/ResourceHub.tsx:95-114 | without a title, an author or a file it shows "Please fill in all fields and select a PDF file" and does not start; otherwise it starts at progress 0 with the interval running |
| ResourceHub.Hub.ProgressTick | components/ResourceHub.tsx:107-113 | one interval run applies `ProgressStep`, and the interval stops once 90 is reached |
| ResourceHub.Hub.CompleteUpload | components/ResourceHub.tsx:117-134 | the interval stops, the progress becomes 100 and the new resource with zero downloads goes in front |
| ResourceHub.Hub.FinishUpload | components/ResourceHub.tsx:137-149 | the upload ends, the dialog closes and the form resets; the list, search and chip are kept |
| ResourceHub.Hub.CloseModal | components/ResourceHub.tsx:153-167 | while uploading no field changes; otherwise the dialog closes and the form, file, error and progress reset; the list, search and chip are always kept |
| ResourceHub.UploadRun | components/ResourceHub.tsx:95-149 | over a whole upload the shown progress is 10 per interval run capped at 90 and never passes 90 before completion; afterwards the list is the new resource followed by the old list |
| SyllabusTracker.FilteredSyllabus | components/SyllabusTracker.tsx:943-947 | an item is shown exactly when its department and year are the selected ones; the order is kept |
| SyllabusTracker.Toggle | components/SyllabusTracker.tsx:949-959 | the topic is completed afterwards exactly when it was not before; other topics are unchanged |
| SyllabusTracker.ToggleTwice | components/SyllabusTracker.tsx:949-959 | toggling a topic twice restores the completed set |
| SyllabusTracker.TopicIdsUpTo | components/SyllabusTracker.tsx:1053 | the ids of the first n topics are the item id, "-" and each index, in order |
| SyllabusTracker.TopicIds | components/SyllabusTracker.tsx:1053 | one id per topic, in order |
| SyllabusTracker.TopicIdsDistinct | components/SyllabusTracker.tsx:1053 | the topic ids of one item are pairwise distinct |
| SyllabusTracker.CompletedCount | components/SyllabusTracker.tsx:1053-1054 | the count is the number of the subject's topic keys in the completed set; it is at most the number of topics, and equals it exactly when every topic's key is completed |
| SyllabusTracker.CompletedKeys | components/SyllabusTracker.tsx:1054 | filtering a duplicate-free key list by the completed set keeps exactly as many keys as the set holds of them |
| SyllabusTracker.AllTopicsCompleted | components/SyllabusTracker.tsx:1053-1054 | every topic key is completed exactly when the key of every topic index is |
| SyllabusTracker.CountAfterToggle | components/SyllabusTracker.tsx:949-1054 | toggling one id of a duplicate-free list changes the count by exactly one, up when it was absent and down when present |
| SyllabusTracker.ToggleTopicCount | components/SyllabusTracker.tsx:949-1054 | ticking a topic of an item raises its completed count by one, and unticking lowers it by one |
| SyllabusTracker.SemesterOrder | components/SyllabusTracker.tsx:961-970 | the semesters appear once each, exactly those of some item, and each one occurs in the items before the first occurrence of every semester listed after it |
| SyllabusTracker.GroupBySemester | components/SyllabusTracker.tsx:961-970 | each semester's bucket is exactly the items of that semester in order, no bucket is empty, and the map is empty exactly when there are no items |
| SyllabusTracker.ShowsNoSyllabus | components/SyllabusTracker.tsx:1038-1041 | "No Syllabus Available" shows exactly when no item has the selected department and year |
| SyllabusTracker.Tracker.constructor | components/SyllabusTracker.tsx:938-941 | the tracker starts on "CSE", "3rd Year" and no completed topics |
| SyllabusTracker.Tracker.ToggleTopicCompletion | components/SyllabusTracker.tsx:949-959 | the completed set becomes `Toggle` of the old one |
| AotCalendar.DaysInMonth | components/AOTCalendar.tsx:89 | a month has 28 to 31 days, and February has 29 exactly in leap years |
| AotCalendar.Weekday | components/AOTCalendar.tsx:90 | the weekday is in 0..6; `WeekdayAnchors` and `WeekdayNextDay` tie it to the real calendar |
| AotCalendar.YearLength | components/AOTCalendar.tsx:89-90 | consecutive first days of the year are 366 days apart in a leap year and 365 otherwise |
| AotCalendar.MonthsFillYear | components/AOTCalendar.tsx:89 | the twelve months add up to the year's length |
| AotCalendar.MonthOf | components/AOTCalendar.tsx:112-116 | the month read back from a year and month argument is a valid month |
| AotCalendar.PrevMonth | components/AOTCalendar.tsx:111-113 | going back gives a valid month |
| AotCalendar.NextMonth | components/AOTCalendar.tsx:115-117 | going forward gives a valid month |
| AotCalendar.NextMonthSteps | components/AOTCalendar.tsx:115-117 | next moves one month forward from the year `Date` reads (1900 + y for a year y in 0..99), wrapping December to January of the year after |
| AotCalendar.PrevMonthSteps | components/AOTCalendar.tsx:111-113 | prev moves one month back from the year `Date` reads (1900 + y for a year y in 0..99), wrapping January to December of the year before |
| AotCalendar.NextPrevInverse | components/AOTCalendar.tsx:111-117 | next and prev undo each other when neither neighbour falls in a two-digit year |
| AotCalendar.TwoDigitYearJump | components/AOTCalendar.tsx:112-116 | prev from January of year 100 gives December of 99, and next from there jumps to January 2000 |
| AotCalendar.GetDaysInMonth | components/AOTCalendar.tsx:87-96 | the grid has 28 to 31 days and a starting weekday in 0..6, and keeps the shown year and month; the days and weekday are those of the year `Date` reads, so December of year 99 is laid out as December 1999 |
| AotCalendar.NextMonthFollows | components/AOTCalendar.tsx:87-96 | for every month, the day after the grid's last day, in the year `Date` reads, is the first day of the month next shows |
| AotCalendar.NextGridStart | components/AOTCalendar.tsx:87-117 | for every month except December of year -1, the next grid starts as many weekdays later as this month has days |
| AotCalendar.GridJumpAtYearZero | components/AOTCalendar.tsx:87-117 | after December of year -1 (starting on weekday 3), next shows January of year 0, whose grid is January 1900 and starts on Monday instead of weekday 6 |
| AotCalendar.WeekdayNextDay | components/AOTCalendar.tsx:92 | the day after any date falls on the next weekday |
| AotCalendar.WeekdayAnchors | components/AOTCalendar.tsx:87-96 | 1 January 1970 and 1 January 2026 are Thursdays, 1 December 1999 a Wednesday, and the grid of December of year 99 is 31 days from a Wednesday |
| AotCalendar.EventsForDate | components/AOTCalendar.tsx:102-109 | an event is on a day exactly when its day, month and year are that day's; the order is kept |
| AotCalendar.AnonymousDeletesOnlyAdminEvents | components/AOTCalendar.tsx:146 | `canDelete`'s rule on its own: with no user it admits exactly the events created by "Admin" (the app keeps signed-out users off the calendar, and the dialog shows them no delete button) |
| AotCalendar.DeleteButtonNarrowerThanCanDelete | components/AOTCalendar.tsx:496 | whenever the dialog shows the delete button, `canDelete` admits the deletion; the two differ exactly on an "Admin" event viewed by someone who is neither a representative nor named "Admin" |
| AotCalendar.StudentSeesNoButtonForAdminEvent | components/AOTCalendar.tsx:496 | a signed-in student who is not a representative passes `canDelete` for an "Admin" event but is shown no delete button |
| AotCalendar.SampleEventsDeletableWithoutButton | components/AOTCalendar.tsx:43-72 | every event of the first-load sample list passes `canDelete` for any user, and its delete button shows only to a representative or a user named "Admin" |
| AotCalendar.Candidates | components/AOTCalendar.tsx:159-162 | the candidates are exactly the events dated at or after the start of today |
| AotCalendar.UpcomingEvents | components/AOTCalendar.tsx:158-165 | at most five events, each one of the events and dated today or later |
| AotCalendar.UpcomingEventsSorted | components/AOTCalendar.tsx:158-165 | the list has five entries, or all candidates when there are fewer; it is drawn from the candidates and is in date order |
| AotCalendar.UpcomingEventsEarliest | components/AOTCalendar.tsx:158-165 | no candidate left out of the list is dated before any listed event |
| AotCalendar.Calendar.constructor | components/AOTCalendar.tsx:21-76 | the calendar opens on today's month holding exactly the events its load effect set (the stored list, or `SampleEvents` on a first load), with nothing selected and an empty draft |
| AotCalendar.Calendar.GoToPrevMonth | components/AOTCalendar.tsx:111-113 | the shown month becomes `PrevMonth` of the old one |
| AotCalendar.Calendar.GoToNextMonth | components/AOTCalendar.tsx:115-117 | the shown month becomes `NextMonth` of the old one |
| AotCalendar.Calendar.CreateEvent | components/AOTCalendar.tsx:119-143 | without a user it alerts "Please login to create events"; without a title or date it alerts "Please fill in all required fields"; otherwise it appends one event created by the user's name, closes the dialog and resets the draft |
| AotCalendar.Calendar.DeleteEvent | components/AOTCalendar.tsx:145-156 | without permission it alerts and changes nothing; with permission and a confirmation every event with that id is removed and the selection cleared; without confirmation nothing changes |
| Seqs.Filter | components/ResourceHub.tsx:53 | the result keeps exactly the elements that pass, and is no longer than the input |
| Seqs.FilterIsSubsequence | components/ResourceHub.tsx:53 | the kept elements appear in the same order |
| Seqs.SortBySorted | components/AOTCalendar.tsx:163 | sorting by a key orders by that key |
| Seqs.SortByPermutes | components/AOTCalendar.tsx:163 | sorting keeps every element with its multiplicity |
| Seqs.SmallestByIsSmallest | components/AOTCalendar.tsx:163-164 | the first n after sorting are min(n, length) elements of the input, in key order, and no element left out has a smaller key |
| Strings.ContainsAt | components/PeerFinder.tsx:43 | `includes` holds exactly when the term occurs at some offset |
| Strings.ToLowerIdempotent | components/PeerFinder.tsx:43 | lower-casing twice is lower-casing once |
| Strings.ParseNatToString | server/controllers/authController.js:18 | a number's decimal string reads back as the number |
| Strings.NatToStringInjective | server/controllers/authController.js:18 | different numbers print differently |

## Left out

- Sending e-mail (server/utils/brevo.js), Express routing, the MongoDB model
  (models/User.js is not part of this model) and the 500 answers for thrown
  database errors. The store is a map from e-mail to record, and a handler is
  one atomic step.
- bcrypt is idealised. A digest records its cost, salt and password, and the
  comparison accepts exactly the password the digest was made from. Hash
  collisions and timing are not modelled.
- `AuthController.RegisterThenLogin`: bcryptjs hashes only the first 72 UTF-8
  bytes of a password, so with the real library any password sharing those
  72 bytes would also log in. The idealised digest does not truncate.
- `Math.random`, `Date.now()` and `new Date()` are parameters: the OTP value
  (only its range is required), the salt, every random id and the clock.
- `localStorage` persistence is out of scope. Constructors take what storage
  held as parameters; writing back after each change is not modelled. The
  syllabus catalogue is a parameter; its hundreds of entries are not
  transcribed. The calendar's load effect (components/AOTCalendar.tsx:32-76)
  is the `initial` parameter of `AotCalendar.Calendar.constructor`: the
  stored list (the revival of its dates by `JSON.parse` is not modelled) or,
  when storage holds none, `SampleEvents` with the clock as a parameter.
- `AuthModal.Modal.HandleVerifyOtp` and the other async handlers: the
  `loading` flag and the moments between sending a request and receiving the
  answer are left out. Each handler is one step that gets the answer as a
  parameter.
- A JSON field that is missing in a request is modelled as the empty string.
  Falsy values of other types are not modelled.
- Timers and intervals are not scheduled in time. Each firing is a method the
  environment calls (`App.Shell.RoomGoesLive`, `ResourceHub.Hub.ProgressTick`,
  `CompleteUpload`, `FinishUpload`, `AuthModal.Modal.SuccessTimer`). The
  model does not say how long they wait or in what order different timers
  fire. Of the dialog's success timer, `onClose` is not modelled.
- `triggerOtpSimulation` (components/AuthModal.tsx:81-89), with its
  8-second timer that clears the toast, is never called and is not modelled.
  On the paths that run, the toast flag is set by signup and login and
  cleared only by the close effect; the flag is never rendered.
- The OTP box focus moves and the Backspace handler are browser focus
  handling and are left out.
- `toLowerCase` is modelled for ASCII letters only. Other Unicode case
  mappings are left out.
- Local time zones and the parsing of `<input type="datetime-local">` text
  are left out. An event's date is the local date and time it denotes, and the
  parse is a parameter of `AotCalendar.Calendar.CreateEvent`. The `Date`
  range limit of ±8.64e15 ms is not modelled.
- `Seqs.SortBy` is a stable insertion sort. `Array.prototype.sort` must be
  stable since ECMAScript 2019, so events with equal dates keep their list
  order, as the model does. Only the key order is stated in a lemma; the
  tie order is not.
- `ResourceHub.UploadRun` does not model the formatted size
  (`formatFileSize`) or the percentage widths, which are floating point; the
  size label is a parameter.
- The progress bars, the date formatting with `toLocaleDateString` and all
  rendering are left out. So are the event images of the campus page.
- `handleAuthSuccess`, `handleStartPeerChat` and `handleFollowPeer` in App.tsx
  build welcome and follow notifications. They are not modelled.
- components/AITutor.tsx and services/geminiService.ts call an external AI
  service and are not part of this model. Neither are VirtualRoom.tsx,
  PrivateChat.tsx, ProfileSettings.tsx, LandingPage.tsx and Hero.tsx, which
  are presentation or simulated chat.
- `SyllabusTracker.SemesterOrder`: JavaScript lists an object's keys that
  are array indices ("0", "1", …) first, in numeric order, before the other
  keys in insertion order. The model uses insertion order only, which is the
  order the code shows for the catalogue's "Semester 1" … "Semester 8" keys.
- `AotCalendar.NextPrevInverse`: stated only where neither neighbouring month
  falls in a year 0..99. In those years `new Date(y, m, 1)` reads the year as
  1900 + y, so the inverse fails there; `AotCalendar.TwoDigitYearJump` shows
  it.

## Findings

| source | as written | input that shows it | evidently intended | confidence | as-written member | corrected member |
|---|---|---|---|---|---|---|
| components/AuthModal.tsx:179 | the success timer passes the dialog's own `name` state to `onSuccess`; on the login path no name is typed, so it is "" | register "Alice" with a@x.edu.in, then sign in again with that address, the right password and the mailed code: the shell receives name "" | report the name the server returned from `verify-otp` | not executed | AuthModal.LoginPathReportsEmptyName | AuthModal.LoginPathReportsRecordedName |
