# Coworking desk booking: a verified model of the booking core

This project models the core of a coworking desk-booking application in
Dafny. Members book a desk for a morning or an afternoon slot, and an
admin configures how many desks there are and when each slot starts.

The core covers the following:

- the admission engine (`ReservationService.ts`): availability, the duplicate check, the capacity check, the insert and its unique-constraint race, and cancellation with its time cutoff;
- the reminder batch (`lib/reminder-service.ts`);
- the in-memory fixed-window rate limiter (`lib/rate-limit.ts`);
- the session table (`lib/session.ts`);
- the authentication gate (`lib/auth.ts`);
- the mapping of outcomes to HTTP responses (`lib/api-utils.ts`);
- the five API routes that drive these: booking, my bookings, the admin listing, admin statistics and admin settings.

The store is one `Database` class (`store.dfy`) whose fields are the
reservation table, the settings singleton, the user table and the session
table. Each operation that changes the store is a method with a `modifies`
frame on the fields it writes. Where the logic is involved, a function on a
snapshot of the tables says what the method does (`Create`, `Cancel`,
`Post`), and the lemmas are stated about those functions. The rate limiter
is a class of its own, as in the source, where its table is a
module-level map.

Instants are milliseconds in one fixed local time zone, and days are local
days since 1970-01-01. Every JavaScript `Date` operation the core performs
(`setHours`, `new Date(y, m, d)`, midnight truncation) is written out as
integer arithmetic in `calendar.dfy`. JavaScript string operations (`trim`,
`split`, `includes`, `Number`) are in `text.dfy`.

Behaviour the code cannot see becomes a parameter:

- the outcome of the insert (`InsertOutcome`);
- a store fault (`Attempt.Threw`);
- the delivery of each reminder (`deliver`);
- the random cleanup draw (`runCleanup`);
- the fresh session token;
- `NODE_ENV` (`production`);
- the error the store throws when it is handed an Invalid Date or a value its columns cannot hold.

Where the comments and the code disagree, the model follows the code:

- The comment on `normalizeDate` speaks of UTC, but the code truncates in local time, and so does the model.
- The reminder job's comment speaks of a 23-25 hour window. The code selects on the local day of `now + 23 h`, and `tomorrowEnd` is only logged. The model follows the code (`Calendar.ReminderTargetDay`, `Calendar.ReminderWindow`).

## Model

| member | source | states |
|---|---|---|
| Calendar.NormalizeDate | ReservationService.ts:193-197 | the day returned is the unique local day whose span holds the instant |
| Calendar.SlotStartTime | ReservationService.ts:173-188 | the slot starts on a whole hour, StartHour hours after the day's midnight, and on that same day when the hour is 0..23 |
| Calendar.ReminderTargetDay | lib/reminder-service.ts:25-37 | truncating now+23h to the hour and then to midnight gives the local day of now+23h |
| Calendar.ReminderWindow | lib/reminder-service.ts:24-37 | the job targets a day exactly when it runs between 23 h before that day's midnight and 1 a.m. on that day |
| Text.Trim | lib/rate-limit.ts:71 | the result is the input with white space removed at both ends, and it neither starts nor ends with white space |
| Text.Split | app/api/reservations/route.ts:45 | split yields at least one piece, no piece holds the separator, and joining the pieces restores the input |
| Text.Includes | ReservationService.ts:205 | includes is true exactly when the substring occurs at some index |
| Text.ParseNumber | app/api/reservations/route.ts:45 | Number(s) is defined exactly on trimmed digit runs, where it is their decimal value, and a blank string is 0 |
| Text.ParseDecimalString | app/api/reservations/route.ts:45 | Number reads a rendered decimal back as the same number |
| ReservationService.FindFirstConfirmed | ReservationService.ts:60-67 | finds a CONFIRMED booking of that user, day and slot exactly when one exists |
| ReservationService.FindById | ReservationService.ts:108-111 | returns the index of the row with that id, or None when no row has it |
| ReservationService.ConfirmedCount | ReservationService.ts:32-38 | never counts more rows than the table has; its exact value is ConfirmedCountIsSize |
| ReservationService.ConfirmedCountIsSize | ReservationService.ts:32-38 | the count is the number of CONFIRMED rows on that day and slot |
| ReservationService.AvailabilityOf | ReservationService.ts:24-46 | available is max(0, desks - confirmed), total is the desk count, and a desk is free iff confirmed < desks |
| ReservationService.IsUniqueConstraintError | ReservationService.ts:202-207 | true iff the code is P2002 or the message contains "Unique constraint" |
| ReservationService.Admission | ReservationService.ts:59-77 | a duplicate is refused as DUPLICATE even when full; otherwise FULL iff the confirmed count has reached capacity; admitted iff no duplicate and a desk is free |
| ReservationService.Create | ReservationService.ts:52-98 | a duplicate changes nothing; success appends exactly one new CONFIRMED booking under a fresh id; an admitted insert succeeds iff it goes through; a unique-constraint rejection is DUPLICATE and any other fault is rethrown; other outcomes leave the table unchanged |
| ReservationService.Cancel | ReservationService.ts:104-147 | checks run in order NOT_FOUND, UNAUTHORIZED, NOT_FOUND (already cancelled), then TOO_LATE iff now >= slot start; success flips only that row to CANCELLED |
| ReservationService.GetSettings | ReservationService.ts:152-168 | returns the stored row, or creates and returns the default row (10 desks, 8-13, 13-18) |
| ReservationService.CheckAvailability | ReservationService.ts:24-46 | the answer is AvailabilityOf for the normalized day, and the settings row exists afterwards |
| ReservationService.CreateReservation | ReservationService.ts:52-98 | the new store and the outcome are those Create prescribes, and issued ids stay increasing |
| ReservationService.CancelReservation | ReservationService.ts:104-147 | the new store and the outcome are those Cancel prescribes |
| ReservationService.CreateKeepsNoDuplicate | ReservationService.ts:59-90 | createReservation never makes two CONFIRMED bookings for the same user, day and slot |
| ReservationService.CreateWithinCapacity | ReservationService.ts:73-90 | a successful booking raises the slot's confirmed count by one and never past the desk count |
| ReservationService.CancelFreesOneDesk | ReservationService.ts:140-146 | a successful cancel lowers its own slot's confirmed count by one and no other slot's |
| ReservationService.CancelTwice | ReservationService.ts:122-125 | cancelling a booking again is NOT_FOUND |
| ReservationService.OneDeskScenario | ReservationService.ts:52-147 | with one desk: A books, B is refused as FULL, A cancels before the slot, and B's retry succeeds |
| ReservationService.FreshStoreAvailability | ReservationService.ts:152-168 | with no settings row and no bookings, a slot shows 10 of 10 desks free |
| Reminders.Select | lib/reminder-service.ts:45-61 | selects exactly the bookings of the target day that are CONFIRMED and not yet reminded, each as often as it occurs in the table |
| Reminders.Stamped | lib/reminder-service.ts:81-84 | the loop changes only reminderSentAt, and no row is added or removed; a row is stamped with its delivery instant exactly when a delivered reminder carried its id, and is otherwise unchanged |
| Reminders.Sent | lib/reminder-service.ts:65-86 | the count of reminders sent is the number of selected bookings whose reminder was delivered (so at most the number selected) |
| Reminders.Failed | lib/reminder-service.ts:95-108 | the failures are exactly the selected bookings not delivered, and there are selected - sent of them |
| Reminders.RemindEach | lib/reminder-service.ts:65-102 | the loop counts Sent of the selected bookings and leaves the table Stamped by them |
| Reminders.SendReservationReminders | lib/reminder-service.ts:22-115 | a selection fault is rethrown with the table untouched; otherwise it returns the delivered count and stamps exactly the delivered rows |
| Reminders.RerunSelectsOnlyFailures | lib/reminder-service.ts:44-50 | after a run, a booking is still due iff it was due and its reminder was not delivered |
| Reminders.SecondRunSendsNothing | lib/reminder-service.ts:18 | after a run that delivered everything, a second run selects nothing and sends nothing |
| RateLimit.Hit | lib/rate-limit.ts:34-43 | a missing or expired window restarts at count 1 ending interval from now; otherwise the count goes up by one and the end is kept |
| RateLimit.VerdictOf | lib/rate-limit.ts:45-52 | success iff count <= max, and remaining is max(0, max - count) |
| RateLimit.Unexpired | lib/rate-limit.ts:55-62 | keeps exactly the entries whose window has not ended, unchanged |
| RateLimit.RateLimiter.constructor | lib/rate-limit.ts:8 | the limiter starts with an empty table |
| RateLimit.RateLimiter.RateLimit | lib/rate-limit.ts:19-52 | the answer and the new table are the caller's hit, applied after the optional cleanup |
| RateLimit.RateLimiter.CleanupExpired | lib/rate-limit.ts:55-62 | the table afterwards holds exactly the unexpired entries |
| RateLimit.CleanupIrrelevantToCaller | lib/rate-limit.ts:27-40 | the random cleanup never changes the caller's new window or answer |
| RateLimit.Replay | lib/rate-limit.ts:42-43 | one key's calls never touch another key's window |
| RateLimit.WindowCount | lib/rate-limit.ts:34-43 | the n-th call inside one window leaves count n and keeps the window's end |
| RateLimit.KthCallInWindow | lib/rate-limit.ts:45-46 | inside one window the first max calls succeed, later ones fail, and remaining counts down to 0 |
| RateLimit.SixthAuthCallRefused | lib/rate-limit.ts:86-91 | under AUTH the fifth login attempt in 15 minutes succeeds and the sixth is refused |
| RateLimit.GetClientIdentifier | lib/rate-limit.ts:67-81 | the trimmed first comma-separated entry of x-forwarded-for, else x-real-ip, else "unknown" |
| Sessions.UserOf | lib/session.ts:36-65 | a lookup yields the user iff the token exists and has not expired strictly before now |
| Sessions.AfterLookup | lib/session.ts:59-62 | a lookup deletes the session iff it has expired, and changes nothing otherwise |
| Sessions.WithoutUser | lib/session.ts:79-81 | keeps exactly the sessions of other users |
| Sessions.LiveOnly | lib/session.ts:86-94 | keeps exactly the sessions not expired before now |
| Sessions.CreateSession | lib/session.ts:18-31 | adds exactly one session for that user, expiring seven days after now |
| Sessions.GetUserFromSession | lib/session.ts:36-65 | returns UserOf and leaves the table as AfterLookup says |
| Sessions.DeleteSession | lib/session.ts:70-74 | removes the token if present and ignores a missing one |
| Sessions.DeleteUserSessions | lib/session.ts:79-81 | removes all of that user's sessions and no others |
| Sessions.CleanupExpiredSessions | lib/session.ts:86-94 | removes exactly the expired sessions |
| Sessions.SessionLifetime | lib/session.ts:6-31 | a new session admits its user up to and including seven days after creation, and not later |
| Sessions.CleanupKeepsLogins | lib/session.ts:86-94 | the sweep never changes who a token identifies now, and sweeping twice equals sweeping once |
| Sessions.LogoutIsFinal | lib/session.ts:70-81 | after logout, or after deleting a user's sessions, those tokens identify no one |
| Auth.IsAdmin | lib/auth.ts:37-39 | true iff the role is ADMIN |
| Auth.CallerOf | lib/auth.ts:23-32 | there is a caller iff a non-empty cookie names a live session whose owner exists, and the caller is that owner |
| Auth.SessionsAfterAuth | lib/auth.ts:23-32 | the expired session a non-empty cookie names is deleted, and the session table is otherwise untouched |
| Auth.Gate | lib/auth.ts:44-65 | no caller gives 401 Unauthorized; a non-admin at the admin gate gives 403; otherwise the caller passes |
| Auth.GetAuthUser | lib/auth.ts:23-32 | returns CallerOf and leaves the sessions as SessionsAfterAuth says |
| Auth.RequireAuth | lib/auth.ts:44-52 | the sign-in gate's decision on the cookie's caller |
| Auth.RequireAdmin | lib/auth.ts:57-65 | the admin gate's decision on the cookie's caller |
| Auth.AdminGateImpliesAuthGate | lib/auth.ts:57-65 | whoever passes the admin gate passes the sign-in gate and is an admin, and a 401 stays a 401 |
| ApiUtils.GetErrorStatusCode | lib/api-utils.ts:12-27 | FULL and DUPLICATE give 409, TOO_LATE 400, NOT_FOUND 404 and UNAUTHORIZED 403; a 4xx iff the code is an error name, else 500 |
| ApiUtils.GetErrorMessage | lib/api-utils.ts:32-47 | the generic message appears iff the code is not an error name |
| ApiUtils.MessagesDistinct | lib/api-utils.ts:32-47 | each domain error has its own message |
| ApiUtils.ReservationErrorResponse | lib/api-utils.ts:113-118 | always a 4xx carrying the error's own, non-generic message |
| ApiUtils.HandleError | lib/api-utils.ts:52-101 | an AuthError keeps its status and message; anything else is a 500, whose message is hidden in production |
| ApiUtils.LogLevelFor | lib/api-utils.ts:140-155 | a response is logged as a warning iff its status is >= 400 |
| ApiUtils.ErrorResponsesWarn | lib/api-utils.ts:147 | every domain-error response is logged as a warning, and gate refusals keep 401 and 403 |
| Queries.Filter | app/api/admin/reservations/route.ts:22-36 | keeps exactly the matching rows, each as often as in the table |
| Queries.SortByDateSlot | app/api/reservations/me/route.ts:23 | the result is ordered by date and then slot, and is a permutation of the input |
| Queries.FindMany | app/api/admin/reservations/route.ts:35-53 | every matching row and nothing else, with multiplicity, in date-then-slot order |
| Queries.DateConditionIsDay | app/api/admin/reservations/route.ts:27 | a condition on a local midnight selects exactly that day's rows |
| Queries.OffMidnightSelectsNothing | app/api/admin/reservations/route.ts:27 | a condition on an instant that is not a local midnight selects nothing |
| BookingRoute.SlotNamed | app/api/reservations/route.ts:36-41 | only the exact strings MORNING and AFTERNOON name a slot |
| BookingRoute.Validate | app/api/reservations/route.ts:29-41 | a missing field gives 400 Missing, then an unknown slot gives 400 Invalid; a non-string date reaches the split |
| BookingRoute.BookingDate | app/api/reservations/route.ts:45-46 | the date is an Invalid Date exactly when it has fewer than three dash-separated parts or one of the first three is not a number |
| BookingRoute.BookingDateOfIsoDate | app/api/reservations/route.ts:45-46 | a form date YYYY-MM-DD (year >= 100) is read as that local calendar day |
| BookingRoute.BookingDateFields | app/api/reservations/route.ts:45-46 | a form date is read field by field into new Date(year, month - 1, day) |
| BookingRoute.LocalDateOfMonth | app/api/reservations/route.ts:46 | new Date(year, month - 1, day) is the calendar day year-month-day |
| BookingRoute.Respond | app/api/reservations/route.ts:55-75 | 201 iff the booking succeeded; a domain error maps through reservationErrorResponse; a store fault gives 500 |
| BookingRoute.Post | app/api/reservations/route.ts:21-76 | gate, then validation, then date, then createReservation on the caller's id; a 201 always carries a new booking of the signed-in caller |
| BookingRoute.PostReservation | app/api/reservations/route.ts:21-76 | the new store and the response are those Post prescribes for the cookie's caller |
| MyReservationsRoute.MyReservations | app/api/reservations/me/route.ts:18-31 | all of the caller's CONFIRMED bookings and nothing else, ordered by date and slot |
| MyReservationsRoute.GetMyReservations | app/api/reservations/me/route.ts:13-37 | 401 without a caller, otherwise 200 with MyReservations for the caller |
| AdminReservationsRoute.AdminDateFilterAsWritten | app/api/admin/reservations/route.ts:26-28 | the date condition as written is UTC midnight, i.e. local midnight plus the zone's offset |
| AdminReservationsRoute.AdminDateFilter | app/api/admin/reservations/route.ts:26-28 | the corrected condition is the local midnight the booking route stores for that date string |
| AdminReservationsRoute.IsoReadsAsBooking | app/api/reservations/route.ts:45-46 | an ISO date splits into three digit runs that the booking route reads as new Date(y, m - 1, d) |
| AdminReservationsRoute.SlotFilter | app/api/admin/reservations/route.ts:30-32 | only exact enum strings narrow the slot; anything else is ignored |
| AdminReservationsRoute.AdminWhere | app/api/admin/reservations/route.ts:22-32 | as written, on a server at a given offset from UTC: always CONFIRMED; an ISO date becomes UTC midnight of that date, i.e. local midnight plus the offset; the query fails only for a present date that is not an ISO date |
| AdminReservationsRoute.CorrectedWhere | app/api/admin/reservations/route.ts:22-32 | the same object with the date read as the local midnight the booking route stores; fails on exactly the same inputs |
| AdminReservationsRoute.GetAdminReservations | app/api/admin/reservations/route.ts:13-59 | as written, on a server at a given offset from UTC: admin gate, then 500 for an Invalid Date, else 200 with FindMany of AdminWhere |
| AdminReservationsRoute.DateFilterFindsBookings | app/api/admin/reservations/route.ts:26-32 | with the corrected filter, a row is listed iff it is CONFIRMED, on the day the booking route reads, and in the slot if one is given |
| AdminReservationsRoute.AsWrittenSelectsNothing | app/api/admin/reservations/route.ts:26-28 | as written, in any zone less than 24 h ahead of or behind UTC but not at UTC, the date filter lists nothing |
| AdminReservationsRoute.DateFilterAgreesAtUtc | app/api/admin/reservations/route.ts:26-28 | on a server in UTC the as-written and the corrected conditions coincide (dates from year 100 on) |
| AdminReservationsRoute.AsWrittenMissesBooking | app/api/admin/reservations/route.ts:26-28 | at UTC+1 a booking made for 2024-06-10 is missed as written and listed once corrected |
| AdminStatsRoute.CountStatus | app/api/admin/stats/route.ts:21-23 | the count is the number of rows with that status (so never more than the table has) |
| AdminStatsRoute.StatusesPartition | app/api/admin/stats/route.ts:31 | CONFIRMED and CANCELLED counts add up to the table's size |
| AdminStatsRoute.StatsOf | app/api/admin/stats/route.ts:17-33 | cancelled (total - confirmed) is the number of CANCELLED rows, and totalDesks is 0 without a settings row |
| AdminStatsRoute.GetStats | app/api/admin/stats/route.ts:13-39 | admin gate, then 200 with StatsOf; it creates no settings row |
| SettingsRoute.Coalesce | app/api/admin/settings/route.ts:60-64 | a missing or null field falls back to the default, a number is kept, and any other JSON is refused |
| SettingsRoute.Provided | app/api/admin/settings/route.ts:72-76 | an undefined field keeps the current value, a number replaces it, and null or other JSON is refused |
| SettingsRoute.CreateFromPatch | app/api/admin/settings/route.ts:56-66 | the created row takes each field's ?? default and is refused iff some field is non-numeric JSON |
| SettingsRoute.MergePatch | app/api/admin/settings/route.ts:68-78 | the updated row takes each provided number and keeps the rest; refused iff some field is null or non-numeric |
| SettingsRoute.EmptyPatchKeepsRow | app/api/admin/settings/route.ts:56-78 | an empty PATCH keeps an existing row and creates the defaults when there is none |
| SettingsRoute.NullAsymmetry | app/api/admin/settings/route.ts:60-76 | a null is a default when creating and a refused write when updating |
| SettingsRoute.NoRangeChecks | app/api/admin/settings/route.ts:45-78 | any desk count or hour is stored as sent, with no bound |
| SettingsRoute.GetSettingsRoute | app/api/admin/settings/route.ts:12-34 | admin gate, then find-or-create of the settings row |
| SettingsRoute.PatchSettings | app/api/admin/settings/route.ts:40-85 | admin gate, then create or merge; a refused value gives 500 and leaves the row unchanged |

## Left out

- Concurrency and `async`: each request runs to completion on its own. The race between two identical bookings appears only as the insert's outcome (`InsertOutcome`), which may be a unique-constraint rejection.
- Store faults other than the ones modelled are not covered. The modelled ones are the insert's rejection, the reminder selection's fault, the refusal of an Invalid Date, and the refusal of a non-numeric setting. Store error texts are parameters.
- JavaScript `Date` range limits and daylight saving are not modelled: a day is exactly 24 h in one fixed zone.
- Text.ParseNumber: reads only blank strings and runs of decimal digits. `Number` also accepts a sign, a fraction, an exponent, hexadecimal and `Infinity`; the model treats those as NaN, which gives an Invalid Date as a non-number does.
- AdminReservationsRoute.AdminDateFilter: accepts only the strict `YYYY-MM-DD` form. Other strings that the JavaScript date parser accepts are treated as Invalid Dates.
- AdminReservationsRoute.AdminWhere: the as-written date condition is likewise read only from the strict `YYYY-MM-DD` form; the server zone's offset from UTC is a parameter and is fixed for the whole year.
- BookingRoute.Post: the confirmation e-mail is sent without being awaited and its failure is swallowed, so it cannot change the response and is not modelled.
- Reminders.SendReservationReminders: e-mail composition and the logger are not modelled. The stamp instant of each row comes from `deliver`, standing for the server's clock when the update is issued.
- The logger and monitoring in `handleError` and `logApiResponse` are not modelled; only the chosen log level is (`ApiUtils.LogLevelFor`).
- Session token generation (random bytes) is not modelled. `Sessions.CreateSession` takes a fresh token as a parameter.
- `createdAt`, `updatedAt`, the `select`/`include` projections and the user join in the listings are not modelled. Rows are returned whole.
- A request body that is not JSON is not modelled. `request.json()` would throw, and the handler would answer 500.
- Queries.SortByDateSlot: the order among rows with equal date and slot is unspecified in the store; the model fixes one order.
- Reservation ids are strings generated by the store. The model issues increasing numbers, which serve only to make each id fresh and distinct.
- The store's slot order is assumed to be MORNING before AFTERNOON, the enum's declaration order, as in a native enum column; the database schema is not part of this model.
- `tomorrowEnd` in the reminder job is only logged, so it is not part of the selection.
- RateLimit.RateLimiter.RateLimit: the two clock reads, in `rateLimit` and `cleanupExpired`, are one `now`.

## Findings

| source | as written | input that shows it | evidently intended | confidence | as-written member | corrected member |
|---|---|---|---|---|---|---|
| app/api/admin/reservations/route.ts:26-28 | `new Date(dateParam)` reads a date-only string as UTC midnight, while the booking route stores a booking at local midnight (`new Date(year, month - 1, day)`) | in a zone one hour ahead of UTC, a CONFIRMED booking made for "2024-06-10" (day 19884) is not listed for `?date=2024-06-10` | read the date as a local date, as the booking route does, so the listing shows that day's bookings | not executed; assumes the date column keeps the full instant | AdminReservationsRoute.AsWrittenMissesBooking | AdminReservationsRoute.DateFilterFindsBookings |
