# terminbuchung — a Dafny model of the booking core

terminbuchung is an appointment booking system for an auction house. Customers book places on pickup and viewing appointments. Administrators manage appointments, bookings and users. This project models and proves the logic at its core:

- **The appointment/booking store** (`DatabaseService` in `src/lib/db.ts`).
  - The store holds two tables, kept as sequences of records.
  - Each database transaction is one atomic step. A failed step returns an error and leaves the store unchanged.
  - Modelled operations: the `getAppointments` query (filter, order, paging), `getAvailableSlots`, `createBooking`, `cancelBooking`, `anonymizeOldBookings` and the capacity part of `getDashboardStats`.
  - `StoreInvariants` states when the store is consistent and which operations keep it so:
    - unique ids;
    - bookings that point to existing appointments;
    - `currentParticipants` equal to the number of CONFIRMED bookings, and no appointment oversold.
- **The input schemas** (`src/lib/validations.ts`).
  - Each Zod schema becomes the list of issues it reports for a typed input, in Zod's order. The object-level `refine` runs even when a field check has failed.
  - `validateForm` folds that list into a field-to-message map.
  - The `H:MM`/`HH:MM` time pattern is modelled character by character.
- **The route guard** (`src/middleware.ts`): the choice between passing a request and redirecting it to `/admin` or `/admin/login`.
- **The page helpers**: the landing page, the admin appointment, booking and user pages, and the dashboard.
  - These helpers compute durations, format and read back duration text, and truncate titles.
  - They classify utilisation, pick status badges, filter searches, split tabs and count statistics.

Behaviour of the code that the model keeps and states as lemmas:

- The availability check counts CONFIRMED bookings, while the booking transaction bumps a separate `currentParticipants` counter.
- An appointment's status is never consulted when booking.
- The cancel decrement has no lower clamp.
- A NO_SHOW booking can be cancelled. The counter then drifts away from the confirmed count.
- On the create schema, the end-after-start message overwrites a format message on `endTime`. As a result, "24:00" is reported only as a format error.
- The update schema has no end-after-start rule.
- The dashboard badge shows an overbooked appointment as "Fast voll".
- `/adminfoo` counts as an admin path.
- The booking badge shows "Eingecheckt" whatever the status is.

Shared helpers live in `wrappers.dfy` (Option, Result, JavaScript truthiness), `seqs.dfy` (Count, Filter), `text.dfy` (ASCII case folding, substrings, digits) and `js_number.dfy`. `js_number.dfy` holds exact JavaScript numbers: rationals, the infinities and `NaN`, with division and `Math.round`.

## Model

| member | source | states |
|---|---|---|
| Store.Find | src/lib/db.ts:101-103 | `findUnique` by id finds a row iff some row of the table carries the id, and then returns the first such row |
| Store.FindAppointment | src/lib/db.ts:100-110 | the lookup finds a record iff some appointment carries the id, and then returns the first such record |
| Store.FindBooking | src/lib/db.ts:162-170 | the booking lookup finds a record iff some booking carries the id, and then returns the first one with that id |
| Store.GetAvailableSlots | src/lib/db.ts:100-118 | null exactly for an unknown id; otherwise booked is the number of CONFIRMED bookings, free places are capacity minus that number, and the appointment is available iff that number is below capacity |
| Store.AdjustCounter | src/lib/db.ts:149-156 | the counter of the appointments with the id moves by the given amount and every other appointment stays as it was |
| Store.CreateBooking | src/lib/db.ts:121-160 | refuses with "Termin ist bereits ausgebucht" exactly when the appointment is missing or has no free confirmed place; a taken id is the database's refusal; on success exactly one booking carrying the request's fields, status CONFIRMED and the given instant is appended, the appointment's counter goes up by one and nothing else changes |
| Store.UpdateBooking | src/lib/db.ts:178-184 | only the booking with the id is rewritten, to CANCELLED with the cancel instant and the new reason, or the old reason when none is given |
| Store.CancelBooking | src/lib/db.ts:162-203 | "Buchung nicht gefunden" exactly for an unknown id and "Buchung bereits storniert" exactly for a CANCELLED booking; the database's missing-row refusal exactly when the booking's appointment does not exist; otherwise the booking, NO_SHOW included, becomes CANCELLED and its appointment's counter drops by one |
| Store.AnonymizeOldBookings | src/lib/db.ts:347-367 | CANCELLED and NO_SHOW bookings created before the cutoff get the placeholder name, e-mail and phone and lose the bidder account; every other booking and every other field stays; the returned count is the number of matched rows |
| StoreInvariants.FindUnique | src/lib/db.ts:101-103 | with unique ids, looking up an appointment's own id returns that appointment |
| StoreInvariants.FindBookingUnique | src/lib/db.ts:163-166 | with unique ids, looking up a booking's own id returns that booking |
| StoreInvariants.CreateBookingPreservesConsistency | src/lib/db.ts:132-157 | a successful booking keeps ids unique and references valid, keeps every counter equal to its confirmed count, and keeps every appointment within capacity |
| StoreInvariants.SlotsAfterCreate | src/lib/db.ts:100-157 | right after a booking, the availability query sees one more confirmed booking and one free place fewer |
| StoreInvariants.CreateBookingIgnoresStatusAndCounter | src/lib/db.ts:132-136 | two stores that differ only in appointment status and counters accept exactly the same bookings, so a CANCELLED or COMPLETED appointment still takes bookings |
| StoreInvariants.SlotsIgnoreCounter | src/lib/db.ts:100-116 | the availability answer does not depend on the `currentParticipants` counter or on the status |
| StoreInvariants.UpdateTouchesOne | src/lib/db.ts:178-184 | with unique ids, cancelling one booking leaves every other booking unchanged |
| StoreInvariants.CountAfterCancel | src/lib/db.ts:177-199 | cancelling a booking lowers a confirmed count by one exactly when the booking was CONFIRMED on that appointment |
| StoreInvariants.CancelIsAfterCancel | src/lib/db.ts:162-203 | a successful cancel rewrites the position of the first booking with the id |
| StoreInvariants.CancelConfirmedPreservesConsistency | src/lib/db.ts:162-203 | in a consistent store, cancelling a CONFIRMED booking succeeds and keeps the store consistent: counters still equal confirmed counts |
| StoreInvariants.CancelNoShowDesynchronizesCounter | src/lib/db.ts:172-199 | cancelling a NO_SHOW booking of a consistent store succeeds and leaves some counter different from its confirmed count |
| StoreInvariants.CancelHasNoClamp | src/lib/db.ts:192-199 | cancelling a booking whose appointment's counter is 0 succeeds and leaves the counter at -1 |
| StoreInvariants.CancelTwiceRefused | src/lib/db.ts:172-174 | cancelling the same booking a second time is refused as already cancelled, so each booking lowers a counter at most once |
| StoreInvariants.AnonymizeIdempotent | src/lib/db.ts:347-367 | running the anonymisation again with the same cutoff changes nothing |
| StoreInvariants.AnonymizePreservesConsistency | src/lib/db.ts:351-366 | anonymisation keeps a consistent store consistent: no status, owner or id changes |
| StoreQueries.WhereMeansWanted | src/lib/db.ts:17-51 | the `where` object the query builds matches a row iff it has the requested type and status (ACTIVE by default), lies in the date bounds, and contains a non-empty search term, ignoring case, in its title, auction number or location |
| StoreQueries.InsertByDate | src/lib/db.ts:73 | inserting into a date-sorted list keeps it sorted and adds exactly that element |
| StoreQueries.SortByDate | src/lib/db.ts:73 | the result is a permutation of the input, in ascending date order |
| StoreQueries.Window | src/lib/db.ts:74-75 | skip `offset` then take `limit`: the window has the length left after skipping, capped at `limit`, and holds the elements in order from position `offset` |
| StoreQueries.WindowOfSorted | src/lib/db.ts:73-75 | a page cut from a date-sorted listing is date-sorted and drawn from the listing |
| StoreQueries.Listing | src/lib/db.ts:53-73 | the matching appointments in date order: exactly the store's rows that satisfy the `where` object |
| StoreQueries.ListingIsWanted | src/lib/db.ts:17-73 | the listing holds exactly the store's appointments the query asks for |
| StoreQueries.GetAppointments | src/lib/db.ts:17-76 | every returned appointment is in the store and wanted by the query; the page is the slice of the date-ordered matches that starts at position `offset`, its length the smaller of `limit` and the number of matches left after skipping `offset` |
| StoreQueries.GetAppointmentsComplete | src/lib/db.ts:17-76 | a first page at least as large as the match count contains every wanted appointment |
| StoreQueries.DashboardStats | src/lib/db.ts:257-310 | ACTIVE appointments and CONFIRMED bookings are counted; the utilisation rate is a finite number, 0 when there is no capacity |
| StoreQueries.BookedWithinCapacity | src/lib/db.ts:289-300 | when no appointment is oversold, the booked total does not exceed the capacity total |
| StoreQueries.UtilizationAtMostHundred | src/lib/db.ts:299-309 | when no appointment is oversold, the rounded utilisation rate lies between 0 and 100 percent |
| TimeOfDay.TimePatternMeaning | src/lib/validations.ts:76-87 | the time pattern accepts exactly the texts `H:MM` and `HH:MM` with hour 0 to 23 (a leading 0 or 1 allowed) and minutes 00 to 59 |
| TimeOfDay.TimeExamples | src/lib/validations.ts:78-80 | "9:05", "09:05", "23:59" and "0:00" match the pattern; "24:00", "9:60", "9:5" and "123:00" do not |
| TimeOfDay.MinutesOfTimeText | src/lib/validations.ts:95-100 | splitting a well-formed time at ':' and combining with Number gives hour * 60 + minute |
| TimeOfDay.MinutesOfPattern | src/lib/validations.ts:95-100 | on any text the pattern accepts, the split-and-Number minutes agree with reading the digits by position, and stay below 24 * 60 |
| TimeOfDay.MinutesOfValidTime | src/lib/validations.ts:95-100 | a well-formed time has a defined minute count in [0, 1440) |
| TimeOfDay.HourTwentyFour | src/lib/validations.ts:78-100 | "24:MM" fails the time pattern yet has the minute count 1440 + MM, so it passes the end-after-start rule after any valid start |
| Validations.RegistrationIssues | src/lib/validations.ts:9-49 | registration passes iff both names have 2 to 50 characters, the e-mail is valid, the phone has 8 to 20 characters, the password has at least 8, privacy is accepted and the confirmation equals the password |
| Validations.EndAfterStartOfTimes | src/lib/validations.ts:94-106 | on two well-formed times the refine holds iff the end's hour * 60 + minute strictly exceeds the start's |
| Validations.EqualTimesRejected | src/lib/validations.ts:94-106 | an appointment whose end time equals its start time is always rejected |
| Validations.FieldIssues | src/lib/validations.ts:61-88 | a text field has no issue iff it meets its bounds: auction number 1 to 50, title 3 to 200, location 5 to 200, times matching the pattern |
| Validations.GivenIssues | src/lib/validations.ts:108-138 | an optional field has no issue iff it is absent or meets its bounds |
| Validations.CreateAppointmentIssues | src/lib/validations.ts:57-106 | the create schema passes iff every field bound holds, the date is not before today, both times match the pattern, the participant limit is in [1, 100] and the end is after the start |
| Validations.UpdateAppointmentIssues | src/lib/validations.ts:108-145 | the update schema passes iff the id is a cuid and every given field meets its bound, the participant limit in [1, 100] included; it has no end-after-start rule |
| Validations.CreateBookingIssues | src/lib/validations.ts:148-162 | the booking schema passes iff the appointment id is a cuid, names, e-mail and phone are valid, a given bidder account has at most 100 characters and privacy is accepted |
| Validations.UpdateBookingIssues | src/lib/validations.ts:164-171 | the booking update passes iff the id is a cuid and a given reason has at most 500 characters |
| Validations.Parse | src/lib/validations.ts:278-280 | parsing returns the input iff the schema reports no issue, and otherwise throws the issues |
| Validations.LastMessagePresent | src/lib/validations.ts:284-288 | a key gets a message iff some issue's path starts with that key; issues with an empty path never give one |
| Validations.LastMessageIsLast | src/lib/validations.ts:284-288 | the message a key gets is that of the last issue on that key |
| Validations.LastMessageConcat | src/lib/validations.ts:284-288 | on two issue lists one after the other, the later list's message for a key wins |
| Validations.CollectErrors | src/lib/validations.ts:282-289 | the error map holds exactly the keys some issue is filed under, each with the message of its last issue |
| Validations.CollectErrorsConcat | src/lib/validations.ts:284-288 | collecting two issue lists in sequence is the first map overridden by the second |
| Validations.ValidateForm | src/lib/validations.ts:270-292 | success iff parsing succeeded, with the data and no errors; on a Zod error the errors map each key to the last message on it; on any other error only `general: Validierungsfehler` |
| ValidationErrors.KeysWithinConcat | src/lib/validations.ts:284-288 | the keys of two issue lists together are within the union of their key sets |
| ValidationErrors.MessageOfPart | src/lib/validations.ts:284-288 | a key that the surrounding issue lists never use takes its message from the middle list alone |
| ValidationErrors.ErrorOfMessage | src/lib/validations.ts:270-292 | on a failed parse, a key is in the error map iff its last issue message exists, and maps to it |
| ValidationErrors.TwoChecksMessage | src/lib/validations.ts:10-17 | two bound checks on one field report the second failing bound, or the first, or nothing |
| ValidationErrors.OneCheckMessage | src/lib/validations.ts:41-43 | a single check reports its message on its field exactly when it fails |
| ValidationErrors.RegistrationMismatchError | src/lib/validations.ts:46-49 | on a failed registration, `confirmPassword` has an error iff the passwords differ, and it reads "Passwörter stimmen nicht überein" |
| ValidationErrors.RegistrationPrivacyError | src/lib/validations.ts:41-43 | on a failed registration, `privacyAccepted` has an error iff privacy was refused, with the required-acceptance message |
| ValidationErrors.RegistrationPhoneMessage | src/lib/validations.ts:10-49 | the registration's message for `phone` comes from the phone checks alone |
| ValidationErrors.RegistrationPhoneError | src/lib/validations.ts:10-13 | on a failed registration, `phone` has an error iff it is not 8 to 20 characters long, saying too short or too long accordingly |
| ValidationErrors.CreateAppointmentParts | src/lib/validations.ts:57-92 | the checks before the end time and the location checks file issues only under their own fields |
| ValidationErrors.CreateParticipantsMessage | src/lib/validations.ts:89-92 | the create schema's message for `maxParticipants` is "Maximal 100 Teilnehmer" above 100, "Mindestens 1 Teilnehmer" below 1, and none otherwise |
| ValidationErrors.CreateParticipantsError | src/lib/validations.ts:89-92 | on a failed create, `maxParticipants` has an error iff the limit is outside [1, 100], with the bound it breaks |
| ValidationErrors.CreateEndTimeMessage | src/lib/validations.ts:82-106 | the `endTime` message is the refine's when the end is not after the start, else the format message when the end is malformed, else none |
| ValidationErrors.CreateEndTimeError | src/lib/validations.ts:82-106 | on a failed create, `endTime` has an error iff it is malformed or not after the start, and the refine's message hides the format message |
| ValidationErrors.EndTimeTwentyFour | src/lib/validations.ts:78-106 | an end time "24:MM" after a valid start is refused with the format message only |
| ValidationErrors.EndTimeFormatOnly | src/lib/validations.ts:82-106 | an end time that is after the start but malformed is refused with the format message |
| ValidationErrors.EndTimeWithoutColon | src/lib/validations.ts:82-106 | an end time without a colon is reported as "Endzeit muss nach Startzeit liegen", not as a format error |
| ValidationErrors.FieldKeys | src/lib/validations.ts:61-88 | a text field's checks file issues only under that field's key |
| ValidationErrors.GivenKeys | src/lib/validations.ts:108-138 | an optional field's checks file issues only under that field's key |
| ValidationErrors.UpdateBeforeParticipantsKeys | src/lib/validations.ts:108-138 | the update checks before the participant limit file issues only under id, auction number, title, description, times and location |
| ValidationErrors.UpdateKeysOfParts | src/lib/validations.ts:108-138 | seven checks each keyed to one field together file issues only under those seven keys |
| ValidationErrors.UpdateParticipantsError | src/lib/validations.ts:139-143 | on a failed update, `maxParticipants` has an error iff a limit is given outside [1, 100], with the bound it breaks |
| ValidationErrors.UpdateAcceptsEndBeforeStart | src/lib/validations.ts:108-145 | an update that sets an end time not after its start time is accepted |
| ValidationErrors.CreateBookingPrivacyMessage | src/lib/validations.ts:158-160 | the booking schema's message for `privacyAccepted` is the required-acceptance message exactly when privacy was refused |
| ValidationErrors.CreateBookingPrivacyError | src/lib/validations.ts:158-160 | a booking without accepted privacy is refused, with the message under `privacyAccepted` |
| ValidationErrors.UpdateBookingErrors | src/lib/validations.ts:164-171 | on a failed booking update, `cancellationReason` has an error iff a reason over 500 characters is given, and `id` iff it is not a cuid |
| Middleware.Decide | src/middleware.ts:8-33 | the guard redirects to `/admin` exactly a signed-in request for `/admin/login`, and to `/admin/login` exactly an anonymous request for another `/admin` path outside `/api/auth`; every other request passes |
| Middleware.PrefixesDisjoint | src/middleware.ts:8-9 | no path is both an API auth route and an admin route |
| Middleware.ApiAuthPasses | src/middleware.ts:8-15 | `/api/auth` paths always pass, signed in or not |
| Middleware.LoginPageDecision | src/middleware.ts:10-24 | the login page sends a signed-in user to `/admin` and lets an anonymous one through |
| Middleware.AnonymousAdminGoesToLogin | src/middleware.ts:9-30 | an anonymous request for any other `/admin` path goes to the login page |
| Middleware.SignedInAdminPasses | src/middleware.ts:18-33 | a signed-in request for an `/admin` path other than the login page passes |
| Middleware.OutsideAdminPasses | src/middleware.ts:33 | paths outside `/admin` pass whatever the session |
| Middleware.PrefixNotSegment | src/middleware.ts:9 | the admin check is a plain prefix: `/adminfoo` sends an anonymous user to the login page |
| Middleware.RedirectsSettle | src/middleware.ts:18-31 | a redirect never targets the requested path and its target passes with the same session; a signed-in request never goes to the login page |
| LandingPage.DurationOfTimes | src/app/page.tsx:83-89 | for two well-formed times the duration is the end's minute of day minus the start's |
| LandingPage.DurationAgreesWithSchema | src/app/page.tsx:83-89 | the schema's end-after-start rule holds iff the computed duration is a positive number |
| LandingPage.DurationOfValidTimes | src/app/page.tsx:83-89 | for times the create schema accepts, the duration lies strictly between 0 and 1440 minutes |
| LandingPage.DurationTextRoundTrip | src/app/page.tsx:196-200 | reading the hours and minutes back from the duration text gives the duration again, for every integer duration |
| LandingPage.HoursRoundTrip | src/app/page.tsx:197-199 | durations of an hour or more are written "{h}h {m}min" and read back exactly |
| LandingPage.MinutesRoundTrip | src/app/page.tsx:197-200 | durations under an hour are written "{d} min" and read back exactly |
| LandingPage.NegativeRoundTrip | src/app/page.tsx:197-200 | negative durations are written "{d} min" with their sign and read back exactly |
| LandingPage.ReadHoursText | src/app/page.tsx:199 | the text "{a}h {b}min" reads back as a * 60 + b |
| LandingPage.ReadHoursUnit | src/app/page.tsx:199 | the hours suffix "h {b}min" after a leading number n reads as n * 60 + b |
| LandingPage.ReadLeadingNumber | src/app/page.tsx:197-200 | a duration text starts with its leading number, and its unit suffix decides the rest |
| LandingPage.TruncateTitle | src/app/page.tsx:123-126 | a title of at most maxLength characters is kept; a longer one becomes its first maxLength characters followed by "...", maxLength + 3 characters in all |
| LandingPage.TruncateIdempotent | src/app/page.tsx:123-126 | truncating twice with the same bound gives the same title as truncating once |
| LandingPage.StatusBadgeThresholds | src/app/page.tsx:91-121 | with a positive capacity the badge is Ausgebucht iff current >= max, "Fast ausgebucht" iff 80 * max <= 100 * current < 100 * max, and Verfügbar otherwise |
| LandingPage.StatusBadgeMonotone | src/app/page.tsx:91-121 | more participants never give a less full badge |
| LandingPage.StatusBadgeZeroCapacity | src/app/page.tsx:91-121 | with capacity 0, any participant gives Ausgebucht and none gives Verfügbar (Infinity and NaN) |
| LandingPage.FilteredMeaning | src/app/page.tsx:283-290 | an appointment is kept iff the lowercased term occurs in its lowercased title, auction number or location |
| LandingPage.EmptyTermKeepsAll | src/app/page.tsx:283-290 | the empty search term keeps every appointment |
| LandingPage.TabsPartition | src/app/page.tsx:292-297 | the viewing and pickup lists are the filtered list split by type; they are disjoint, and together they cover it when every type is one of the two |
| LandingPage.NoResultsMeaning | src/app/page.tsx:371 | "Keine Suchergebnisse" shows iff the term is non-empty and no appointment matches it |
| AdminAppointments.StatusBadge | src/app/admin/appointments/page.tsx:126-152 | ACTIVE reads Aktiv, COMPLETED reads Abgeschlossen and CANCELLED reads Abgesagt, each coloured; any other value is shown raw and uncoloured |
| AdminAppointments.StatusBadgeInjective | src/app/admin/appointments/page.tsx:126-152 | two different statuses never share a badge |
| AdminAppointments.TypeBadge | src/app/admin/appointments/page.tsx:154-166 | Besichtigung iff the type is VIEWING, Abholung for every other type |
| AdminAppointments.UtilizationThresholds | src/app/admin/appointments/page.tsx:168-174 | with a positive capacity the bar is red iff current >= max, orange from 80 %, yellow from 60 %, and green below 60 % |
| AdminAppointments.UtilizationMonotone | src/app/admin/appointments/page.tsx:168-174 | the bar colour never gets less severe as the participant count grows |
| AdminAppointments.BarWidthValue | src/app/admin/appointments/page.tsx:371-376 | with a positive capacity the bar width is 100 * current / max, capped at 100 |
| AdminAppointments.BarWidthBounded | src/app/admin/appointments/page.tsx:371-376 | the width never exceeds 100 %; with capacity 0 it is 100 when someone is booked and NaN when nobody is |
| AdminAppointments.LocationLabel | src/app/admin/appointments/page.tsx:355 | the label is the text before the first comma, or the whole location when there is no comma |
| AdminAppointments.AppointmentStats | src/app/admin/appointments/page.tsx:116-123 | the status counts and the type counts never exceed the total |
| AdminAppointments.StatusCountsBounded | src/app/admin/appointments/page.tsx:118-120 | the three status counts together never exceed the number of appointments |
| AdminAppointments.TypeCountsBounded | src/app/admin/appointments/page.tsx:121-122 | the two type counts together never exceed the number of appointments |
| AdminAppointments.StatsAddUp | src/app/admin/appointments/page.tsx:116-123 | active + completed + cancelled is the total when every status is one of the three, and viewing + pickup when every type is one of the two |
| AdminAppointments.TabsMatchStats | src/app/admin/appointments/page.tsx:441-455 | the active, viewing and pickup tabs hold exactly the rows with that status or type, as many as the matching statistic |
| AdminBookings.StatusBadge | src/app/admin/bookings/page.tsx:150-185 | a checked-in booking always shows Eingecheckt; otherwise CONFIRMED reads Bestätigt, CANCELLED reads Storniert and NO_SHOW reads "Nicht erschienen", and any other status is shown raw and uncoloured |
| AdminBookings.StatusBadgeInjective | src/app/admin/bookings/page.tsx:160-184 | without check-in, two different statuses never share a badge |
| AdminBookings.UserTypeLabel | src/app/admin/bookings/page.tsx:187-199 | Registriert iff the user id is a non-empty string, otherwise Gast |
| AdminBookings.StatsAddUp | src/app/admin/bookings/page.tsx:139-147 | guests + registered users is the total, and confirmed + cancelled + no-show is the total when every status is one of the three |
| AdminBookings.CancellationBlock | src/app/admin/bookings/page.tsx:380-391 | the reason block appears iff the booking is CANCELLED with a reason, and shows the cancel date iff that date is also present |
| AdminBookings.TabsMeaning | src/app/admin/bookings/page.tsx:496-508 | the confirmed and cancelled tabs filter by exact status and the checked-in tab by check-in, each as large as its statistic; the checked-in tab is exactly the rows with the Eingecheckt badge, and every row with a reason block is in the cancelled tab |
| AdminUsers.StatusBadge | src/app/admin/users/page.tsx:146-180 | the user badge follows a strict priority: deletion requested, then inactive, then unverified, then Aktiv |
| AdminUsers.StatusPriority | src/app/admin/users/page.tsx:146-180 | a deletion request hides activity and verification, and an inactive user's badge ignores verification |
| AdminUsers.VerificationLabel | src/app/admin/users/page.tsx:182-194 | Verifiziert iff the e-mail is verified, Unverifiziert otherwise |
| AdminUsers.StatsAddUp | src/app/admin/users/page.tsx:134-143 | active + inactive and verified + unverified both equal the total |
| AdminUsers.CancellationPercentNearest | src/app/admin/users/page.tsx:476-481 | with bookings, the rate is the integer nearest to 100 * cancelled / total, halves rounding up |
| AdminUsers.CancellationPercentBounded | src/app/admin/users/page.tsx:476-481 | with no more cancellations than bookings, the rate lies in [0, 100] |
| AdminUsers.CancellationRateWithoutBookings | src/app/admin/users/page.tsx:476-482 | a user without bookings shows "0%" |
| AdminUsers.FormatDateTime | src/app/admin/users/page.tsx:196-205 | a missing or empty date shows "Nie"; any other date is rendered |
| AdminUsers.TabsMeaning | src/app/admin/users/page.tsx:546-557 | the active tab holds exactly the active and verified users, the unverified tab the unverified ones, and the marketing tab those who accepted marketing; the first two never overlap |
| DashboardOverview.TrendSign | src/components/features/dashboard-overview.tsx:225-260 | a trend line shows iff a trend is given; it is positive and starts with '+' iff the trend is above 0, and starts with '-' iff it is below 0 |
| DashboardOverview.CancelledWins | src/components/features/dashboard-overview.tsx:287-294 | a cancelled appointment shows Abgesagt whatever its counts |
| DashboardOverview.StatusBadgeThresholds | src/components/features/dashboard-overview.tsx:285-322 | otherwise Ausgebucht iff the status is full or booked equals capacity, "Fast voll" iff neither and 100 * booked >= 80 * capacity, and Verfügbar below 80 % |
| DashboardOverview.OverbookedIsAlmostFull | src/components/features/dashboard-overview.tsx:296-314 | an overbooked active appointment shows "Fast voll", not Ausgebucht |
| DashboardOverview.IconFor | src/components/features/dashboard-overview.tsx:326-339 | the clock icon is shown iff the activity type is none of booking, appointment, cancellation and login |
| DashboardOverview.IconsDistinct | src/components/features/dashboard-overview.tsx:326-339 | the four named activity types get four different icons, different from every other type's |
| DashboardOverview.TypeLabel | src/components/features/dashboard-overview.tsx:342-354 | Besichtigung iff the type is VIEWING, Abholung iff it is PICKUP |

## Left out

- Prisma, its transaction API and all I/O are left out. Each transaction is one atomic step on an in-memory store, and the store is sequential. The race between the availability check and the booking transaction therefore does not arise.
- The clock is a parameter:
  - the creation and cancel instants;
  - the anonymisation cutoff, which the source derives from `daysToKeep`;
  - midnight of today in the date rule of the create schema.
- The new booking id, which the database generates, is also a parameter.
- Floating point is left out. Percentages are exact rationals with JavaScript's infinities and `NaN`, and `Math.round` rounds halves up. Binary rounding at threshold boundaries is not modelled.
- `getDashboardStats` is modelled without the active-user count and the two "today" counts. Both depend on other tables or the clock.
- The other `DatabaseService` methods do plain reads or writes with no logic to prove: `getAppointmentById`, the user, admin and audit-log calls.
- The `includeBookings` and `creator` parts of query rows only shape the output.
- `src/lib/auth.ts` is not part of this model. The session is the `loggedIn` flag.
- The middleware's `matcher` regex is left out, because its meaning belongs to Next.js.
- `prisma/seed.ts`, the layout, the login, settings and detail pages, JSX, CSS and React state are left out.
- Locale formatting (`toLocaleString`, `toLocaleDateString`) is a `render` parameter.
- The e-mail and cuid validators of Zod are parameters.
- Zod's type errors are not modelled: inputs are already typed.
- These schemas are not modelled: admin login, create admin, user login, the filter, pagination, bulk and settings schemas, contact, the data-protection requests, API response and auction data.
- `marketingAccepted` keeps the value given; the database default is not modelled.
- `Number()` on the parts of a split time is modelled on digit strings only, and the empty string reads as 0. Hex, exponent and whitespace forms, which JavaScript also converts, count as `NaN` here.
- String lengths count characters rather than UTF-16 code units.
- Case folding covers only ASCII letters, where JavaScript's `toLowerCase` folds all of Unicode.
- The query's `limit` and `offset` are natural numbers. A negative `take` or `skip`, which Prisma handles differently, is not modelled.
- AdminAppointments.StatsAddUp: the model keeps statuses and types as strings, as the pages do. The sums therefore hold only when every value is one of the known ones.
- DashboardOverview.TrendSign: the trend is an integer, whereas the source takes any number.
- `createBooking` never checks the appointment's status, and `cancelBooking` does not clamp the decrement at 0; the model follows the code (see `StoreInvariants.CreateBookingIgnoresStatusAndCounter` and `StoreInvariants.CancelHasNoClamp`).
