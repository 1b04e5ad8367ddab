# Attendance service backend, modelled in Dafny

This project models the REST backend of a multi-tenant school attendance
service. The service holds organizations (schools), their users and classes,
the sections of each class, a calendar of holidays, and per-student daily
attendance records. Records are created and updated in two ways:

- an unauthenticated RFID scanner endpoint, where an entry scan stamps the
  arrival and turns an absent student late, and an exit scan stamps the
  departure and computes the minutes present;
- a manual mark by a teacher or an admin.

Each change to a student's record notifies the student's active parents. This
happens twice: through a stored notification, and through a realtime emit to
the parent's room. The scanner route (backend/routes/attendance.js:16) and the
login routes are registered without any middleware, so they are open to anyone.
Every other route sits behind the `auth(roles)` middleware, which does four
things:

- skips its checks for a POST whose path is "/api/attendance/rfid";
- authenticates a bearer token against the active users;
- enforces a role allow-list;
- requires an organization of everyone but the super admin.

The first of these never fires. The middleware runs inside the router mounted
at "/api/attendance" (backend/index.js:29), where `req.path` is relative to the
mount, so the scanner's path there is "/rfid". `Auth.Gate` models the bypass as
written, and `Auth.MountedScanPathNotBypassed` states that the mounted path does
not meet it.

## How the model is organized

- `Domain`: the stored entities and the HTTP outcomes.
- `Store`: the class `Db`, whose sequence fields stand in for the
  collections. Its `Valid()` invariant says:
  - user ids and record ids are distinct and fresh;
  - emails are unique, and so are organization slugs;
  - a student has at most one record per local day;
  - no notification outlives its record.
- `Query`: the query primitives. `findOne` is the first match, `find` keeps
  every match, and `sort` is a proved permutation in key order.
- `Auth`: the middleware.
- One module per route file:
  - `Attendance`, with its pure part in `AttendanceCore`;
  - `Users`, `Classes`, `Sections`, `Holidays`, `Notifications` and
    `Organizations`.

The handlers that change state are methods on a `Db`. Each of them:

- names the fields it changes in `modifies`;
- keeps `Valid()`;
- states its whole new state.

Usually the new state is stated through a pure function, such as
`ScanLanding`, `MarkLanding` or `Creation`. Lemmas then prove the properties
the service promises about those functions.

Handlers are called with the user the middleware admitted
(`requires Auth.Admitted(caller, <the route's roles>)`), and `Auth.Gate`
proves what that means. The clock is an integer parameter `now`, counted in
milliseconds. The server's time zone is a fixed offset, `Db.tzOffset`.

Modelling decisions where the source leaves room:

- A filter on `req.user.organizationId` is written
  `Some(x.organizationId) == caller.organizationId`. So a super admin without
  an organization matches no organization-scoped document.
- The same-day lookup of the scan and manual handlers is what the code does.
  It finds the student's first record dated at or after local midnight,
  with no upper bound and no organization filter.
- A scan creates its record dated at the scan instant. A manual mark creates
  its record dated at the day's midnight.
- Mongoose validation errors are modelled by the fixed leading words of their
  message (`Attendance validation failed`, …). The duplicate-key error is
  modelled by its `E11000 duplicate key error` prefix. A `TypeError` thrown
  by a null dereference is modelled by its message, answered with 400 as the
  handler's `catch` does.
- A self-update through `PATCH /users/:id` copies every key of the body, the
  role included. This is modelled as written; `Users.SelfUpdateMayRaiseRole`
  shows its consequence.
- `$addToSet` on a class's teachers compares whole entries. The cast gives
  every new entry a fresh subdocument id, so the entry is always appended
  (`Classes.FreshEntryIsAppended`).
- `$set` on a class runs no validators, so a class update is never refused.

## Model

| member | source | states |
|---|---|---|
| `Auth.StripBearer` | backend/middleware/auth.js:14 | `replace('Bearer ', '')` cuts out the first occurrence only, wherever it is: putting "Bearer " back at that position gives the header again; a header without it is returned unchanged |
| `Auth.StripBearerRoundTrip` | backend/middleware/auth.js:14 | a header "Bearer " + token yields exactly the token |
| `Auth.ActiveUser` | backend/middleware/auth.js:18 | the user found is one with that id and active; none is found exactly when no active user has the id |
| `Auth.Authenticated` | backend/middleware/auth.js:14-20 | a user is found exactly when the header is present, its token is non-empty, the token verifies, and the id it names is an active user |
| `Auth.MountedScanPathNotBypassed` | backend/middleware/auth.js:10-12 | the bypass compares the full path, so a POST to the router-relative "/rfid" is not let through |
| `Auth.Gate` | backend/middleware/auth.js:7-37 | the scanner path passes without a user; otherwise 401 without an authenticated user, 403 "Forbidden" for a role outside a non-empty list, 403 "Organization access required" for a non-super-admin without an organization; the request passes exactly when the user is admitted |
| `Auth.EmptyRolesAdmitAll` | backend/middleware/auth.js:23 | an empty role list admits every authenticated user who has an organization |
| `Time.MidnightOf` | backend/routes/attendance.js:39-40 | the local midnight is not after the instant, less than a day before it, and a whole number of days in local time |
| `Time.MidnightOfMidnight` | backend/routes/attendance.js:142-143 | truncating a midnight to its day changes nothing |
| `Time.SameDay` | backend/routes/attendance.js:39-45 | every instant of a local day has that day's midnight |
| `Time.RoundMinutes` | backend/routes/attendance.js:70-71 | `Math.round(ms / 60000)` is the whole number m with m - 1/2 <= ms/60000 < m + 1/2 |
| `Time.RoundWholeMinutes` | backend/routes/attendance.js:71 | a whole number of minutes rounds to itself |
| `Time.RoundNonNegative` | backend/routes/attendance.js:71 | a non-negative span never rounds to negative minutes |
| `Domain.ParseStatus` | backend/models/Attendance.js:34-37 | the status enum: a string is accepted exactly when it names one of the four statuses, and the name round-trips |
| `Domain.ParseRole` | backend/models/User.js:23-27 | the role enum: accepted exactly when it names one of the five roles, and the name round-trips |
| `Store.UserById` | backend/routes/users.js:66 | `findById`: the first user with the id, and none exactly when no user has it |
| `Store.RecordIndex` | backend/routes/attendance.js:324 | `Attendance.findById`: a record with the id, and -1 exactly when none exists |
| `AttendanceCore.ActiveClassesOf` | backend/routes/attendance.js:123-126 | exactly the active classes listing the teacher, across organizations |
| `AttendanceCore.CardHolder` | backend/routes/attendance.js:21 | the active user holding the card uid; none exactly when no active user holds it (the card's own flag is not consulted) |
| `AttendanceCore.ScanLogFor` | backend/routes/attendance.js:24-31 | the log carries the uid, time and kind; status success with the holder's id and organization, or unknown_card with neither |
| `AttendanceCore.ScanTypeOf` | backend/models/RFIDScanLog.js:27-30 | "entry" and "exit" and only those name a scan kind |
| `AttendanceCore.LogStepAsWritten` | backend/routes/attendance.js:24-36 | with the scan log's organization required, the log step succeeds only for a known holder with an organization, and answers 404 only when the log has an organization but no holder |
| `AttendanceCore.UnknownCardNeverReported` | backend/routes/attendance.js:32-36 | as written, an unknown card always ends in a scan-log validation error: it is never logged and never answered 404 |
| `AttendanceCore.SameDayIndex` | backend/routes/attendance.js:42-45 | the first record of the student dated at or after midnight; -1 exactly when there is none |
| `AttendanceCore.Enrollment` | backend/routes/attendance.js:55-59 | class and section are copied only for a student with a current class, and then both are copied |
| `AttendanceCore.NewScanRecord` | backend/routes/attendance.js:47-60 | a new scan record is present, dated at the scan, in the holder's organization, with no times, marker or remarks |
| `AttendanceCore.ApplyScan` | backend/routes/attendance.js:62-73 | entry stamps the entry time and turns absent into late, keeping every other status; exit stamps the exit time and, once an entry time exists, sets the rounded minutes between them; any other kind changes nothing; identity, date and class fields never change |
| `AttendanceCore.EntryOnlyUpgradesAbsent` | backend/routes/attendance.js:62-64 | after an entry the status is late exactly when it was absent or late; any status but absent is kept |
| `AttendanceCore.LastExitWins` | backend/routes/attendance.js:65-72 | a second exit overrides the first: two exits equal the last one alone |
| `AttendanceCore.DurationNonNegative` | backend/routes/attendance.js:68-71 | an exit not before the entry gives non-negative minutes |
| `AttendanceCore.EntryThenExitScenario` | backend/routes/attendance.js:47-73 | an entry at 08:58 on a fresh record and an exit at 15:31 give a present record with both stamps and 393 minutes |
| `AttendanceCore.ScanLanding` | backend/routes/attendance.js:39-75 | the scan lands on the student's same-day record when there is one; otherwise a new record is appended, or validation fails for a holder without an organization; a failure leaves the records unchanged |
| `AttendanceCore.ScanLandingKeepsInvariants` | backend/routes/attendance.js:39-75 | a scan keeps one record per student and day, fresh distinct ids and anchored notifications, and the returned record is stored |
| `AttendanceCore.NewManualRecord` | backend/routes/attendance.js:150-165 | a new manual record is dated at the given midnight, carries the status, remarks and marker, and copies the student's class and section |
| `AttendanceCore.Remark` | backend/routes/attendance.js:166-171 | a mark on an existing record overwrites status, remarks, marker and update time and keeps every other field |
| `AttendanceCore.PatchRecord` | backend/routes/attendance.js:347-350 | status and remarks are replaced only when given (a remark only when non-empty); the marker and time are always stamped; nothing else changes |
| `AttendanceCore.MarkedStatus` | backend/routes/attendance.js:155-173 | a mark carries a status exactly when the body names a valid one |
| `AttendanceCore.MarkDenial` | backend/routes/attendance.js:122-140 | a teacher is refused 400 for a missing or non-student id and 403 for a student outside their active classes; then an invalid status is a validation error; nothing is refused otherwise |
| `AttendanceCore.MarkLanding` | backend/routes/attendance.js:142-171 | the mark overwrites the student's same-day record, or appends a new manual record with the next id |
| `AttendanceCore.MarkLandingKeepsInvariants` | backend/routes/attendance.js:142-173 | a mark keeps one record per student and day, fresh ids and anchored notifications, and the returned record is the stored one of that student |
| `AttendanceCore.TouchDenial` | backend/routes/attendance.js:330-345 | a teacher may touch only a record whose class they teach actively, an admin only a record of their organization; the 403 texts differ by role |
| `AttendanceCore.ActiveParents` | backend/routes/attendance.js:79-82 | exactly the active users listing the student as a child |
| `AttendanceCore.FanOutAsWritten` | backend/routes/attendance.js:85-93 | as written, the fan-out succeeds only when there is no parent, and then it sends nothing |
| `AttendanceCore.FanOutAsWrittenNotifiesNobody` | backend/routes/attendance.js:78-95 | as written, a student with an active parent makes the handler fail with "Notification is not defined" |
| `AttendanceCore.FanOutReachesEveryParent` | backend/routes/attendance.js:79-106 | every active parent gets a notification and an emit at the same position |
| `AttendanceCore.FanOutOnlyParents` | backend/routes/attendance.js:79-106 | every notification is unread and about the record, its emit goes to its parent's room, and that parent is an active parent of the student |
| `AttendanceCore.FanOutOncePerParent` | backend/routes/attendance.js:85-93 | with distinct user ids no parent is notified twice |
| `AttendanceCore.CreateKeepsOnePerDay` | backend/routes/attendance.js:42-53 | appending a record for a day with no same-day-or-later record keeps one record per student and day |
| `AttendanceCore.UpdateKeepsOnePerDay` | backend/routes/attendance.js:62-75 | rewriting a record without moving its student or date keeps one record per day |
| `AttendanceCore.RemoveKeepsOnePerDay` | backend/routes/attendance.js:388 | deleting a record keeps one record per day |
| `AttendanceCore.RemoveKeepsRecordIds` | backend/routes/attendance.js:388 | deleting keeps ids fresh and distinct and leaves no record with the deleted id |
| `AttendanceCore.WithoutAttendance` | backend/routes/attendance.js:391 | `deleteMany({attendanceId})` keeps exactly the notifications about other records |
| `AttendanceCore.DeleteCascadeAsWritten` | backend/routes/attendance.js:388-394 | as written, the record is removed, the unbound `Notification` makes the handler answer 400, and the notifications are kept |
| `AttendanceCore.DeleteAsWrittenLeavesOrphans` | backend/routes/attendance.js:388-394 | as written, a deleted record's notification is left pointing at no record, and the caller is not told of success |
| `AttendanceCore.CascadeLeavesNoOrphans` | backend/routes/attendance.js:388-391 | deleting a record with its notifications leaves every notification anchored |
| `AttendanceCore.AppendKeepsNoOrphans` | backend/routes/attendance.js:85-95 | notifications about a stored record keep every notification anchored |
| `AttendanceCore.Selected` | backend/routes/attendance.js:222-305 | exactly the records matching the organization, role scope, named student, class, section and inclusive date range |
| `AttendanceCore.StudentDenial` | backend/routes/attendance.js:255-283 | naming a student passes exactly for a teacher's active-class student, a parent's existing child, the student themself, or any other role; a teacher's unknown or non-student id is 400, the other refusals 403 |
| `AttendanceCore.ListAttendance` | backend/routes/attendance.js:217-316 | a parent without existing children or a teacher without active classes gets an empty list; otherwise it succeeds exactly when the named student is allowed, with a newest-first permutation of the matching records |
| `AttendanceCore.ListedRecordsAreVisible` | backend/routes/attendance.js:224-286 | every listed record is stored, of the caller's organization, in the role's scope (also for an explicitly named student), of the named student, and in the date range |
| `AttendanceCore.MatchingRecordsAreListed` | backend/routes/attendance.js:288-310 | once the checks pass, every matching record is listed |
| `Attendance.FanOut` | backend/routes/attendance.js:85-106 | appends one notification per parent with consecutive fresh ids, then one emit per parent, keeping the store invariant |
| `Attendance.Tell` | backend/routes/attendance.js:78-107 | only a student's mark tells anyone; then the notifications and emits are those of the active parents, equally many |
| `Attendance.Notify` | backend/routes/attendance.js:176-208 | stores exactly what `Tell` says and advances the id counter by the number of notifications |
| `Attendance.LandScan` | backend/routes/attendance.js:39-75 | the records become what `ScanLanding` says; an id is used only when a record is created; the invariant holds |
| `Attendance.Rfid` | backend/routes/attendance.js:16-113 | an empty uid or unknown kind is a validation error with nothing changed; otherwise the scan is logged, an unknown card gets 404, and a known card's scan lands as `ScanLanding` says and is told to the parents |
| `Attendance.LandMark` | backend/routes/attendance.js:142-173 | the records become what `MarkLanding` says at the local midnight of the given instant; the invariant holds |
| `Attendance.Manual` | backend/routes/attendance.js:116-214 | refused as `MarkDenial` says with nothing changed; otherwise the mark lands on the given day (today by default), and an existing student's parents are told with the marker's name and remarks |
| `Attendance.Patch` | backend/routes/attendance.js:319-357 | 404 for a missing record, the role's 403, a validation error for a non-empty invalid status, and otherwise the record is replaced by `PatchRecord` in place |
| `Attendance.Delete` | backend/routes/attendance.js:361-397 | 404, the role's 403, or the record is removed with every notification about it |
| `Users.Creation` | backend/routes/users.js:11-38 | an admin naming an elevated role is refused 403; otherwise it is created exactly when the password is given, the email is non-empty and unused, and the role valid; an admin's user always lands in the admin's organization |
| `Users.AdminCreatesNoAdmins` | backend/routes/users.js:16-23 | an admin never creates an admin or super admin, nor a user outside their organization |
| `Users.CreateUser` | backend/routes/users.js:11-38 | stores exactly the user `Creation` gives, with a fresh id, keeping emails unique |
| `Users.ListUsers` | backend/routes/users.js:41-61 | a super admin lists all active users, an admin the active non-super-admins of their organization, anyone else is refused |
| `Users.GetUser` | backend/routes/users.js:64-84 | a missing or inactive user is 400; an admin reads only users of their organization, a teacher, student or parent only themself |
| `Users.AdminDenial` | backend/routes/users.js:93-102 | an admin may act only on a non-super-admin of their organization; an admin target without an organization makes the check throw |
| `Users.Patched` | backend/routes/users.js:112-113 | every field given in the body is copied, the others kept, and the update time stamped |
| `Users.UpdateDenial` | backend/routes/users.js:87-110 | an update passes exactly for an active target that, for an admin, is a non-super-admin of their organization given no elevated role, and for anyone else is themself, with a valid role and a non-empty, unused email; a missing or inactive target is 400 |
| `Users.UpdateUser` | backend/routes/users.js:87-119 | refused as `UpdateDenial` says with nothing changed, or the target is replaced by `Patched` in place, keeping emails unique |
| `Users.SelfUpdateMayRaiseRole` | backend/routes/users.js:107-112 | a student updating themself may set their own role to super admin |
| `Users.AdminUpdateRaisesNoRole` | backend/routes/users.js:103-106 | an admin's update never gives its target an elevated role it did not have |
| `Users.DeleteDenial` | backend/routes/users.js:124-138 | a deletion passes exactly for an active target that, for an admin, is a non-super-admin of their organization |
| `Users.DeleteUser` | backend/routes/users.js:122-147 | refused as `DeleteDenial` says, or the account is deactivated in place and nothing else changes |
| `Users.DeactivatedUserLockedOut` | backend/routes/users.js:140-142 | after deactivation, no token naming the account gets past the middleware |
| `Classes.ClassIndex` | backend/routes/classes.js:59 | `findById`: a class with the id, or -1 exactly when none exists |
| `Classes.OrgClassIndex` | backend/routes/classes.js:88-89 | a class with the id in the given organization, or -1 exactly when none exists |
| `Classes.NewClassRecord` | backend/routes/classes.js:11-28 | a class is created exactly when named, in the admin's organization, active, with no teachers |
| `Classes.CreateClass` | backend/routes/classes.js:11-28 | stores exactly the class `NewClassRecord` gives, with a fresh id |
| `Classes.ListClasses` | backend/routes/classes.js:31-53 | exactly the organization's classes, restricted to a teacher's own and a student's current one |
| `Classes.GetClass` | backend/routes/classes.js:56-83 | 404 exactly for a missing class or one of another organization; the class is returned exactly when the role may see it |
| `Classes.GetAgreesWithList` | backend/routes/classes.js:31-83 | a class readable by id is also in the caller's listing |
| `Classes.SetClass` | backend/routes/classes.js:90 | `$set` copies every given field, keeps the rest, and stamps the update time |
| `Classes.UpdateClass` | backend/routes/classes.js:86-98 | only a class of the admin's organization is updated, in place; a missing one is 400 |
| `Classes.OrgTeacher` | backend/routes/classes.js:104-108 | a user of the organization with the id and the teacher role, active or not |
| `Classes.AddToSet` | backend/routes/classes.js:113 | the entry ends up present, added only when not already there |
| `Classes.FreshEntryIsAppended` | backend/routes/classes.js:111-115 | an entry with a fresh subdocument id is always appended |
| `Classes.AddTeacher` | backend/routes/classes.js:101-121 | an unknown teacher or a missing class is 400; otherwise the entry with a fresh id is added to the class's teachers in place and the class lists the teacher |
| `Classes.AddedTeacherTeachesClass` | backend/routes/classes.js:111-115 | after the assignment to an active class, the teacher teaches that class in the sense the attendance routes check |
| `Sections.NewSectionRecord` | backend/routes/sections.js:10-45 | 404 exactly for a class not in the organization; a teacher must teach it; the name is required; the new section is empty and active |
| `Sections.CreateSection` | backend/routes/sections.js:10-45 | stores exactly the section `NewSectionRecord` gives, with a fresh id |
| `Sections.ListSections` | backend/routes/sections.js:48-86 | a class id is required; 404 exactly for a class not in the organization; a teacher must teach it and a student be in it; then exactly the sections of that class |
| `Sections.SectionIndex` | backend/routes/sections.js:93 | `findById`: a section with the id, or -1 exactly when none exists |
| `Sections.StudentIndex` | backend/routes/sections.js:100-105 | an active student of the organization with the id, or -1 exactly when none exists |
| `Sections.EnrollDenial` | backend/routes/sections.js:89-128 | enrolment passes exactly for a section of the organization, an active student of it whose current class is the section's, a teacher of that class, and a student not yet listed; each refusal has its own code: 404 for the section, 400 for a missing student or another class, 400 for a teacher's missing class, 403 for a teacher not listed, 400 for a student already enrolled |
| `Sections.BackFill` | backend/routes/sections.js:133-137 | the student's section is set only when it was unset; every other field of the user, and of their student details, stays as it was |
| `Sections.AddStudent` | backend/routes/sections.js:89-143 | refused as `EnrollDenial` says with nothing changed, or the student is appended to the roster and their section back-filled |
| `Sections.EnrollKeepsRosterDistinct` | backend/routes/sections.js:126-130 | the duplicate check keeps a roster free of repeats |
| `Holidays.ParseHolidayType` | backend/models/HolidayEvent.js:18-22 | the type enum: accepted exactly when it names one of the three kinds, and the name round-trips |
| `Holidays.NewHolidayRecord` | backend/routes/holidays.js:10-21 | created exactly when name, a valid type and both dates are given, in the admin's organization; the dates are not ordered |
| `Holidays.CreateHoliday` | backend/routes/holidays.js:10-21 | stores exactly the event `NewHolidayRecord` gives, with a fresh id |
| `Holidays.WindowIsOverlap` | backend/routes/holidays.js:33-41 | for a well-formed event and range, the three cases are exactly interval overlap |
| `Holidays.InvertedEventMatchesEitherSide` | backend/routes/holidays.js:42-46 | an event ending before it starts passes both one-sided filters |
| `Holidays.MatchingHolidays` | backend/routes/holidays.js:26-46 | exactly the events of the caller's organization of the named type in the window |
| `Holidays.ListHolidays` | backend/routes/holidays.js:24-53 | a permutation of the matching events, by ascending start |
| `Holidays.OrgHolidayIndex` | backend/routes/holidays.js:58-61 | an event with the id in the organization, or -1 exactly when none exists |
| `Holidays.DeleteHoliday` | backend/routes/holidays.js:56-71 | 404, or only that event of the admin's organization is removed |
| `Holidays.DeleteSparesOtherOrganizations` | backend/routes/holidays.js:58-61 | a deletion never removes another organization's event |
| `Notifications.UnreadOf` | backend/routes/notifications.js:9-12 | exactly the parent's unread notifications |
| `Notifications.ListNotifications` | backend/routes/notifications.js:7-21 | a newest-first permutation of the caller's unread notifications |
| `Notifications.MarkReadIn` | backend/routes/notifications.js:26-30 | only the caller's notification with the id is marked read, in place; without one nothing changes |
| `Notifications.MarkReadIdempotent` | backend/routes/notifications.js:26-30 | marking read twice equals marking once |
| `Notifications.ReadNotificationLeavesList` | backend/routes/notifications.js:7-30 | a notification marked read leaves the unread list |
| `Notifications.MarkRead` | backend/routes/notifications.js:24-40 | 404 without a notification of the caller with that id; otherwise it is marked read, keeping the invariant |
| `Organizations.OrgIndex` | backend/routes/organizations.js:35 | `findById`: an organization with the id, or -1 exactly when none exists |
| `Organizations.NewOrganization` | backend/routes/organizations.js:11-19 | created exactly when named and no organization has the same slug; a missing slug counts as a value |
| `Organizations.SecondSluglessOrganizationRefused` | backend/models/Organization.js:11-14 | the slug index is not sparse: a second organization without a slug is refused |
| `Organizations.CreateOrganization` | backend/routes/organizations.js:11-19 | stores exactly what `NewOrganization` gives, with a fresh id, keeping slugs unique |
| `Organizations.GetOrganization` | backend/routes/organizations.js:33-47 | the organization is returned exactly when it exists and, for an admin, is their own; an admin asking for a missing one hits a null dereference |
| `Organizations.AssignOrg` | backend/routes/organizations.js:60-61 | every given field is copied, the others kept, and the update time stamped |
| `Organizations.PatchDenial` | backend/routes/organizations.js:51-67 | an update passes exactly for an existing organization, the admin's own, with a non-empty name and a slug no other has; a missing one is 400 (a null dereference for an admin), another organization is 403 for an admin, and an empty name is a validation error |
| `Organizations.PatchOrganization` | backend/routes/organizations.js:51-67 | refused as `PatchDenial` says, or the organization is replaced in place, keeping slugs unique |
| `Organizations.DeactivateMembers` | backend/routes/organizations.js:76-79 | exactly the members of the organization are deactivated, position by position |
| `Organizations.DeactivateMembersSparesOthers` | backend/routes/organizations.js:76-79 | every member ends inactive, every other account is unchanged, and no identity field moves |
| `Organizations.DeletedOrganizationLocksMembersOut` | backend/routes/organizations.js:75-79 | after deletion, a token naming a member gets past the middleware no more |
| `Organizations.DeleteOrganization` | backend/routes/organizations.js:70-85 | 400 for a missing organization; otherwise it is removed and its members deactivated |

## Left out

- Persistence, `populate` projections, `_id` formats and the asynchronous
  I/O of Mongoose. The collections are in-memory sequences, and ids are
  natural numbers from a counter.
- The socket.io server and its connections (backend/socket.js is not part
  of this model). An emit is a `(room, event, payload)` entry appended to
  `Db.outbox`.
- Concurrency between requests. Every handler runs atomically.
- Password hashing and token signing. `jwt.verify` is a parameter
  `verify: string -> Option<Id>`; a hash failure for a missing password is
  the constant `Users.NoPassword`.
- The login route backend/routes/auth.js, backend/index.js, the seed script
  and the frontend.
- Daylight-saving time. Local midnight uses a fixed offset from UTC.
- Date strings in bodies and query strings. They are modelled as the instants
  they name; an unparseable date is not modelled.
- Fields no handler reads: class grade level, description and dates; the
  section schedule; contact details and settings of organizations; the
  RFID card's own active flag, which is stored but never consulted.
- Organizations.ListOrganizations returns every stored organization
  (backend/routes/organizations.js:22-29). It carries no contract beyond
  that, so it has no row above.
- The notification model file is not part of this model. Its fields are
  taken from the handlers that create notifications. The notification router
  is not mounted in backend/index.js; it is modelled as if it were.
- Attendance.Delete: line 391 refers to `Notification`, which is not bound
  in the module. The model performs the intended cascade instead; the code
  as written is Finding 3.
- Attendance.Manual: line 188 of the fan-out uses an undefined `user`. The
  model uses the student the handler looked up, as in Finding 2.
- Attendance.Manual: `studentId` is always present in the body.
- AttendanceCore.NotificationsFor and `AttendanceCore.EmitsFor` are
  constructions whose properties are proved by the `FanOut…` lemmas, so they
  carry no contract of their own.

## Findings

| source | as written | input that shows it | evidently intended | confidence | as-written member | corrected member |
|---|---|---|---|---|---|---|
| backend/routes/attendance.js:24-36 | the scan log is saved before the unknown-card check, but its schema requires `organizationId` (backend/models/RFIDScanLog.js:7-12), which is undefined when no user holds the card; the save fails, the handler answers 400, and nothing is logged | a scan whose `rfidUid` no active user holds | every scan is logged, an unknown card with status `unknown_card`, and the scanner gets 404 "RFID card not recognized" | not executed | `AttendanceCore.UnknownCardNeverReported` | `Attendance.Rfid` |
| backend/routes/attendance.js:85-93 | `Notification` is never required in the module, so the first parent makes `new Notification(...)` throw a ReferenceError after the record is saved; the handler answers 400 and no notification or emit goes out (the same at lines 185-193) | a scan or a manual mark of a student with one active parent | each active parent gets one stored notification and one realtime emit | not executed | `AttendanceCore.FanOutAsWrittenNotifiesNobody` | `Attendance.FanOut` |
| backend/routes/attendance.js:388-394 | `Notification` is unbound here too, so after `attendance.deleteOne()` the `deleteMany` call throws a ReferenceError; the handler answers 400 and every notification about the record stays, pointing at nothing | a delete, by a permitted caller, of a record that has one notification | the record and its notifications are removed together, and the caller gets `{ success: true }` | not executed | `AttendanceCore.DeleteAsWrittenLeavesOrphans` | `Attendance.Delete` |
