# RapidTransit parcel core in Dafny

This project models the server-side parcel logic of RapidTransit, a parcel-delivery web
application, together with two small pure helpers from its client, and proves properties
of the model.

- **The parcel store** (`server/storage.ts`) is a class, `Storage.ParcelStore`. It holds
  a map of parcels, an append-only sequence of status-history rows, maps of transports
  and notifications, a serial counter per table, and an *outbox*: the sequence of
  text-message requests made to the messaging provider.
  - Booking a parcel generates its tracking number, inserts the row and appends the
    "pending" history row.
  - A status update rewrites the row, appends one history row and then makes at most
    one provider call, which goes into the outbox.
  - Each query is a function of the store. It is a sorted permutation of the rows that
    the query's `WHERE` clause selects.
  - Sequences of calls, such as a booking followed by k updates, are methods in
    `StorageScenarios`.
- **The text-message helper and message composer** (`server/notifications.ts`) are pure
  functions:
  - phone normalisation to a `+27…` number;
  - the send outcome, written as a function of the configuration and of whether the
    provider call completes;
  - the per-status message templates with their generic fallback.
- **Request rules of `server/routes.ts`** are pure functions:
  - the cost estimate and its rounding to cents;
  - the conversion of a payment amount to cents;
  - the sender-name fallback;
  - the 404/403 rule for reading a parcel.
- **Client helpers** are pure functions:
  - from the "Recent Parcels" card (`ParcelList.tsx`): status formatting, the route
    line, the five-item cut and the date line;
  - from the "Next Available Transport" card (`TransportSchedule.tsx`): the
    availability label and colours, and the upcoming-transport filter.

JavaScript behaviour the source relies on is written out in `JsRuntime`:
- `split` and `join` on one character;
- `trim`, using ECMAScript white space;
- `includes`;
- `String(n)` and `slice(-n)`;
- truthiness.

Timestamps are milliseconds as natural numbers. The clock, the calendar year, the
messaging settings and the provider's behaviour are parameters.

Three behaviours of the code differ from what its own comments and defaults suggest. The
model follows the code:
- **Status update for an id that does not exist.** `updateParcelStatus` reads
  `undefined` for such an id, updates no row, still appends a history row, and sends
  nothing (`server/storage.ts:124-144`). The history table has no foreign key
  (`shared/schema.ts:94`), so the row stays. `UpdateParcelStatus` models that behaviour;
  the first row of "## Findings" shows what follows from it.
- **Initial status.** The status column defaults to "pending" (`shared/schema.ts:55`), and
  the booking's first history row always says "pending" (`server/storage.ts:95-99`). But
  the insert schema does not omit `status` (`shared/schema.ts:137-142`), so a caller may
  book a parcel with any status. `CreateParcel` models that behaviour; the second row of
  "## Findings" shows the disagreement.
- **Availability with capacity 0.** `availableCapacity / capacity`
  (`client/src/components/TransportSchedule.tsx:13`) gives Infinity or NaN there. The
  label that results is modelled exactly, rather than excluded.

## Model

| member | source | states |
|---|---|---|
| JsRuntime.Split | client/src/components/ParcelList.tsx:49-50 | `split(sep)` always yields at least one piece, and no piece contains the separator |
| JsRuntime.JoinSplit | client/src/components/ParcelList.tsx:42-44 | joining the pieces of a split with the same separator gives back the original string |
| JsRuntime.Trim | server/routes.ts:43 | `trim()` yields a contiguous slice of the input with no white space at either end; only white space is cut away, before it and after it |
| JsRuntime.TrimIdempotent | server/routes.ts:43 | trimming twice is the same as trimming once |
| JsRuntime.LastNOfDecimal | server/storage.ts:84 | the last k characters of `String(n)` are the k low-order decimal digits of n, when n has at least k digits |
| JsRuntime.LowDigitsPeriodic | server/storage.ts:84 | the k low-order digits repeat with period 10^k |
| Notifications.StripNonDigits | server/notifications.ts:18 | `replace(/\D/g, '')` keeps only digits and never lengthens the string |
| Notifications.StripConcat | server/notifications.ts:18 | stripping non-digits distributes over concatenation |
| Notifications.StripOneCharacter | server/notifications.ts:18 | a non-digit is dropped wherever it stands and a digit is kept in its place, so with the empty case the stripped string is exactly the input's digits in order |
| Notifications.NormalizePhone | server/notifications.ts:18-21 | the number handed to the provider always starts with "+27" and has only digits after the '+' |
| Notifications.NormalizePhoneIdempotent | server/notifications.ts:18-21 | normalising an already normalised number changes nothing |
| Notifications.NormalizePhoneSeesOnlyDigits | server/notifications.ts:18 | formatting characters in the input do not affect the result |
| Notifications.NormalizePhoneIgnoresNonDigit | server/notifications.ts:18-21 | inserting a non-digit anywhere in the number does not change what is handed to the provider, so formatting never adds a digit |
| Notifications.NormalizePhoneSeparators | server/notifications.ts:18-21 | a number typed with a space and a dash, as in "082 123-4567", is handed over as if typed without them |
| Notifications.NormalizePhoneDashExample | server/notifications.ts:18-21 | "0-1" becomes "+271": the dash is dropped, not replaced |
| Notifications.NormalizePhoneSpellings | server/notifications.ts:19-21 | a national number written with a trunk 0, with the country code 27, or bare (when it starts with neither) becomes "+27" followed by that number; "27" is tested before "0" |
| Notifications.SendSms | server/notifications.ts:10-34 | no provider call unless the SID, the token and the sender number are all set; otherwise exactly one call, to the normalised number, from the configured number, with the message unchanged; the outcome is true exactly when the sender is configured and the call completes |
| Notifications.ComposeMessage | server/notifications.ts:37-53 | the generic text is sent exactly for the statuses without a template: every other status gets the generic text, and a templated status never does |
| Notifications.TemplateNotFallback | server/notifications.ts:43-52 | the five template keys are exactly the statuses with a template; no templated text opens with "Update on " or equals the generic text |
| Notifications.ComposeMessageIncludesTrackingNumber | server/notifications.ts:43-52 | every message, templated or generic, contains the tracking number |
| Notifications.ComposeMessageFallback | server/notifications.ts:51-52 | every status outside the five keys (including pending and cancelled) gets the generic text, which starts with "Update on " and contains the status |
| Notifications.ComposeMessageTemplatedOpening | server/notifications.ts:43-49 | no templated text starts with "Update on ", so the generic text is told apart by its opening |
| Notifications.ComposeMessageLocation | server/notifications.ts:43-49 | the location changes only the in-transit and delayed texts; an absent or empty location adds nothing; for those two statuses a non-empty location shows as " at <location>" |
| Notifications.ComposeMessageName | server/notifications.ts:44-46 | only the collected and out-for-delivery texts depend on the recipient's name, and both contain it |
| Notifications.DeliveredMessageExample | server/notifications.ts:47 | the delivered text for RT-2024-000123 starts with "Delivered!" and contains the tracking number |
| Storage.TrackingNumber | server/storage.ts:84 | every tracking number opens with "RT-" and is at least six characters long |
| Storage.TrackingNumberFormat | server/storage.ts:84 | for a four-digit year and a clock of at least six digits, the tracking number is 14 characters: "RT-", the year, "-", and the six low-order digits of the clock |
| Storage.TrackingNumberRepeats | server/storage.ts:84 | two bookings in the same year whose clocks differ by a multiple of 10^6 ms get the same tracking number |
| Storage.NewParcel | server/storage.ts:86-92 | the inserted row takes the caller's columns, the generated tracking number and the serial id; the status defaults to "pending" when none is given; both timestamps are set to the clock |
| Storage.StatusUpdated | server/storage.ts:128-133 | status and updatedAt are always set; deliveredAt is set only for "delivered" and pickedUpAt only for "collected", and is overwritten on a repeat; every other column is kept |
| Storage.ParcelsAfterStatus | server/storage.ts:126-134 | only the row with the given id changes; an absent id changes nothing |
| Storage.ParcelsAfterStatusIdempotent | server/storage.ts:126-134 | the same update applied twice at the same time is the same as applying it once |
| Storage.TransportsAfterCapacity | server/storage.ts:186-191 | only the matching transport changes, and only its available capacity and updatedAt; the new figure is not checked |
| Storage.NotificationsAfterRead | server/storage.ts:208-213 | only the matching notification changes, and only to read |
| Storage.NotificationsAfterReadIdempotent | server/storage.ts:208-213 | marking a notification read twice is the same as marking it once |
| Storage.NewTransport | server/storage.ts:160-163 | the inserted transport defaults capacity and available capacity to 50 and status to "scheduled" |
| Storage.NewNotification | server/storage.ts:194-197 | the inserted notification is unread unless the caller says otherwise |
| Storage.SmsAttempts | server/storage.ts:143-155 | at most one provider call, made exactly when the sender is configured; it goes to the pre-update row's phone, normalised; it carries the message composed from that row's tracking number and name, with the notes as the location; it is tagged with the history length after the append |
| Storage.SortBy | server/storage.ts:221-227 | `ORDER BY` yields a permutation of the selected rows, ordered by the key |
| Storage.UserRowsMembership | server/storage.ts:114-120 | the scan selects a parcel exactly when it is stored and the user sent it |
| Storage.RowsForMembership | server/storage.ts:221-227 | a parcel's rows are exactly the history rows that carry its id |
| Storage.RowsForAppend | server/storage.ts:216-219 | an appended row joins its own parcel's rows, at the end, and no other parcel's |
| Storage.RouteRowsMembership | server/storage.ts:172-184 | the scan selects a transport exactly when it is stored, its origin contains `from`, its destination contains `to`, and it is scheduled |
| Storage.StatusCountsBounded | server/storage.ts:241-263 | the in-transit, delivered and pending counts of a set of parcels add up to at most its size |
| Storage.CountStatusPositive | server/storage.ts:241-263 | a status count is positive exactly when some parcel has that status |
| Storage.ParcelStore.constructor | server/storage.ts:23-57 | an empty database: the invariant holds and every serial counter starts at 1 |
| Storage.ParcelStore.AddParcelStatusHistory | server/storage.ts:216-219 | appends exactly one row, with the next serial id and the clock as its timestamp, for any parcel id; nothing else changes |
| Storage.ParcelStore.InsertParcel | server/storage.ts:86-92 | the row goes in under the next serial id, which was free; the table invariant is kept |
| Storage.ParcelStore.CreateParcel | server/storage.ts:82-102 | a duplicate tracking number fails the insert and leaves parcels and history unchanged; otherwise the new row is stored and exactly one history row follows it, with status "pending" and notes "Parcel booking created"; either way a serial id is used up |
| Storage.ParcelStore.BookParcel | server/storage.ts:86-99 | insert, then the booking row of the history; every history row still belongs to a stored parcel |
| Storage.ParcelStore.CreateParcelPending | server/storage.ts:82-102 | as `CreateParcel`, but the booking always starts "pending", so the parcel agrees with its first history row |
| Storage.ParcelStore.SetParcelStatus | server/storage.ts:126-134 | the row update alone; the invariant is kept |
| Storage.ParcelStore.UpdateParcelStatus | server/storage.ts:122-157 | the row changes as `ParcelsAfterStatus` says; exactly one history row (id, status, notes, no location) is appended even for an unknown id; then the outbox gets the provider call for the pre-update row, or nothing for an unknown id |
| Storage.ParcelStore.RecordSms | server/storage.ts:144-155 | provider calls are recorded after the history row they follow; nothing else changes |
| Storage.ParcelStore.UpdateParcelStatusChecked | server/storage.ts:122-157 | as `UpdateParcelStatus` for a stored parcel; an unknown id writes nothing, so every history row keeps belonging to a stored parcel |
| Storage.ParcelStore.GetParcelStatusHistory | server/storage.ts:221-227 | exactly the parcel's history rows, newest timestamp first |
| Storage.ParcelStore.GetUserParcels | server/storage.ts:114-120 | exactly the user's parcels, newest first |
| Storage.ParcelStore.GetUserParcelStats | server/storage.ts:230-271 | total is the number of the user's parcels; inTransit, delivered and pending are the numbers of those parcels with status "in_transit", "delivered" and "pending"; the three add up to at most total |
| Storage.ParcelStore.CreateTransport | server/storage.ts:160-163 | inserts under the next serial id; nothing else changes |
| Storage.ParcelStore.GetAvailableTransports | server/storage.ts:172-184 | exactly the scheduled transports on the route, earliest departure first |
| Storage.ParcelStore.UpdateTransportCapacity | server/storage.ts:186-191 | only the transports table changes |
| Storage.ParcelStore.CreateNotification | server/storage.ts:194-197 | inserts under the next serial id; nothing else changes |
| Storage.ParcelStore.MarkNotificationAsRead | server/storage.ts:208-213 | only the notifications table changes |
| Storage.StatusHistoryExactly | server/storage.ts:221-227 | a row is in a parcel's history result exactly when it is a stored row with that parcel id, and timestamps never increase along the result |
| Storage.UserParcelsExactly | server/storage.ts:114-120 | a parcel is in the result exactly when it is stored and the user sent it, and createdAt never increases along the result |
| Storage.AvailableTransportsExactly | server/storage.ts:172-184 | a transport is in the result exactly when it is stored, on the route and scheduled, and departures never decrease along the result |
| StorageScenarios.HistoryStep | server/storage.ts:137-141 | a history row appended for a parcel becomes its last row and extends its statuses by the row's status |
| StorageScenarios.ReplayAppends | server/storage.ts:122-141 | replaying calls on top of a parcel's statuses appends exactly the statuses the calls set on it, in order |
| StorageScenarios.TouchesUpdates | server/storage.ts:122-141 | the calls update the parcel exactly when they set at least one status on it |
| StorageScenarios.RunCall | server/storage.ts:82-213 | one store call, at its own time: a stored parcel stays stored; its statuses gain the call's status exactly when the call updates it, and that status is then the parcel's current one; any other call (a booking, an update of another id, a transport or notification call) leaves its row and history as they were |
| StorageScenarios.TrackUpdates | server/storage.ts:82-213 | after any run of store calls, each with its own clock, notes and provider outcome, a stored parcel's statuses are the earlier ones followed by those the run set on it; once the run updated it, its last row carries its current status |
| StorageScenarios.BookAndTrack | server/storage.ts:82-141 | a booking as written, then any run of calls: the parcel's history reads "pending" followed by the statuses set on it, so k updates leave k + 1 rows; the last row carries the current status once the parcel was updated, or from the start when the booking named no status other than "pending". It needs only that no history row already carries the id the booking will get, which a stray update of that id (the first Finding) breaks |
| StorageScenarios.BookPendingAndTrack | server/storage.ts:82-141 | with the booking forced to "pending", the same history, and the last row carries the current status after any run; the same precondition on the booked id |
| StorageScenarios.StrayUpdate | server/storage.ts:122-141 | a status update for a parcel that does not exist yet leaves a history row behind |
| StorageScenarios.OrphanRowInherited | server/storage.ts:137-141 | as written, a parcel booked after such an update inherits that row: two history rows, the first "delivered" and stamped before the booking |
| StorageScenarios.OrphanRowPrevented | server/storage.ts:137-141 | with the checked update, the parcel booked next has only its booking row |
| StorageScenarios.CallerStatusDisagrees | server/storage.ts:86-99 | as written, a booking that names its own status is stored as "delivered" while its only history row says "pending" |
| StorageScenarios.CallerStatusIgnored | server/storage.ts:86-99 | with the booking forced to "pending", the parcel and its only history row agree |
| Routes.RoundHalfUp | server/routes.ts:220 | `Math.round` gives the integer within half a unit, rounding halves up |
| Routes.RoundHalfUpMonotone | server/routes.ts:220 | rounding never reverses the order of two amounts |
| Routes.SizeMultiplier | server/routes.ts:188-192 | small 1, medium 1.5, large 2.5; any other or missing size counts as 1 |
| Routes.PriorityMultiplier | server/routes.ts:194-198 | standard 1, express 1.5, next_transport 2; any other priority counts as 1 |
| Routes.DistanceFactor | server/routes.ts:201 | `Math.max(1, distance / 100)` |
| Routes.RawCostAtLeastBase | server/routes.ts:200-206 | the unrounded estimate is at least the base cost of 25 |
| Routes.EstimateCost | server/routes.ts:184-208 | the estimate is at least 25, has at most two decimals, and lies within half a cent of 25 × size × priority × distance factor |
| Routes.EstimateCostShortDistance | server/routes.ts:186-201 | up to 100 km the distance does not matter, and a missing distance counts as 100 |
| Routes.EstimateCostMonotoneInDistance | server/routes.ts:201-208 | a longer distance never costs less |
| Routes.EstimateCostUnknownIsBaseline | server/routes.ts:203-206 | an unrecognised size or priority costs the same as small or standard |
| Routes.EstimateCostExamples | server/routes.ts:200-208 | small/standard with no distance gives 25; large/next_transport over 200 km gives 250 |
| Routes.PaymentCents | server/routes.ts:220 | the cents figure is `amount × 100` rounded to the nearest integer |
| Routes.PaymentCentsExact | server/routes.ts:220 | an amount in whole cents converts to exactly that many cents |
| Routes.SenderName | server/routes.ts:43 | the sender name is never empty and has no white space at either end |
| Routes.SenderNameCases | server/routes.ts:43 | both names give "first last"; a first name alone gives that name; no names, or only white space, give "Unknown" |
| Routes.FetchParcel | server/routes.ts:79-90 | 404 exactly when the parcel is missing; 403 exactly when another user sent it; otherwise the stored row |
| ParcelList.SplitCapitalizeJoin | client/src/components/ParcelList.tsx:41-45 | split on '_', capitalise and join with ' ' equals one left-to-right pass that turns '_' into ' ' and upper-cases the first letter of each word |
| ParcelList.FormatStatus | client/src/components/ParcelList.tsx:41-45 | the badge text has the status's length; each character is a space for '_', upper case at the start of a word, and unchanged otherwise |
| ParcelList.FormatStatusSpaces | client/src/components/ParcelList.tsx:41-45 | the badge never shows '_', and shows a space exactly where the status had '_' or a space |
| ParcelList.FormatStatusIdempotent | client/src/components/ParcelList.tsx:41-45 | formatting a formatted status changes nothing |
| ParcelList.FormatStatusExample | client/src/components/ParcelList.tsx:41-45 | "out_for_delivery" reads "Out For Delivery" |
| ParcelList.City | client/src/components/ParcelList.tsx:49-50 | when there are at least two comma pieces and the second-to-last is not blank once trimmed, the city is that trimmed piece; otherwise it is the first piece, untrimmed; it never contains a comma |
| ParcelList.FormatRoute | client/src/components/ParcelList.tsx:47-52 | the route line is the pickup city, " → ", and the delivery city, and contains no comma |
| ParcelList.CityOfPlainAddress | client/src/components/ParcelList.tsx:49-50 | an address without commas is shown whole |
| ParcelList.CityOfThreePieces | client/src/components/ParcelList.tsx:49-50 | a "street, city, postcode" address shows the trimmed city, or the street when the city is blank |
| ParcelList.FormatRoutePlainAddresses | client/src/components/ParcelList.tsx:47-52 | the route line is the two cities joined by " → " |
| ParcelList.Listed | client/src/components/ParcelList.tsx:103 | the first five parcels, in the order given, or all of them when there are fewer |
| ParcelList.DateLineOf | client/src/components/ParcelList.tsx:127-132 | the delivery date if set, else the estimated delivery date if set, else the creation date |
| TransportSchedule.TransportAvailability | client/src/components/TransportSchedule.tsx:12-17 | a transport with every seat free shows Available; one with no seat free (and a capacity that is not negative) shows Full |
| TransportSchedule.AvailabilityOf | client/src/components/TransportSchedule.tsx:12-17 | for capacity > 0: Available ⇔ 2·free > capacity, Limited ⇔ 10·free > capacity ≥ 2·free, Full ⇔ 10·free ≤ capacity; for capacity 0: Available ⇔ free > 0, else Full |
| TransportSchedule.RatioAbove | client/src/components/TransportSchedule.tsx:13-15 | free / capacity > 1/k ⇔ k·free > capacity, for a positive capacity |
| TransportSchedule.AvailabilityMonotone | client/src/components/TransportSchedule.tsx:12-17 | more free seats at the same capacity never give a worse label |
| TransportSchedule.AvailabilityExtremes | client/src/components/TransportSchedule.tsx:12-17 | every seat free gives Available; no seat free gives Full |
| TransportSchedule.BadgeAndCardShowHue | client/src/components/TransportSchedule.tsx:79-96 | the card's comparison of label texts picks the badge's colour family, and both the badge and the card classes carry it |
| TransportSchedule.LabelsDistinct | client/src/components/TransportSchedule.tsx:14-16 | different availabilities have different labels and colour families |
| TransportSchedule.UpcomingScheduled | client/src/components/TransportSchedule.tsx:50-51 | the filter keeps exactly the transports that depart after now and are scheduled |
| TransportSchedule.UpcomingScheduledKeepsOrder | client/src/components/TransportSchedule.tsx:50-51 | the filter keeps the input order |
| TransportSchedule.UpcomingTransports | client/src/components/TransportSchedule.tsx:50-52 | at most three transports, a prefix of the filtered list; when fewer than three are shown, every listable transport is shown |
| TransportSchedule.IsUpcoming | client/src/components/TransportSchedule.tsx:19-21 | a departure is upcoming exactly when it is strictly later than now (`NeverListed` states the consequence for a departure at or before now) |
| TransportSchedule.NeverListed | client/src/components/TransportSchedule.tsx:19-21 | a transport that is not scheduled, or that departs at or before now, is never listed |

## Left out

- Database and drivers: Postgres, drizzle, Twilio and Stripe calls are not modelled. Tables are maps and sequences; the provider call is an outbox entry; its completion is a boolean parameter.
- Clock, year and settings: `Date.now()`, `new Date()`, `getFullYear()` and `process.env` are parameters. One clock value stamps every column an operation writes. The source reads two clocks. The application's clock gives the tracking number (`Date.now()`, server/storage.ts:84) and the `updatedAt`, `deliveredAt` and `pickedUpAt` of a status or capacity update (`new Date()`, server/storage.ts:130-132 and 189). The database's clock gives `createdAt`/`updatedAt` of inserted rows and the history `timestamp` (`defaultNow()`, shared/schema.ts:61-62, 77-78, 89 and 98). The model does not tell these clocks, or the separate readings, apart.
- Asynchrony: the unawaited send in `updateParcelStatus` and concurrent requests are not modelled. The send is recorded right after the history append, in program order.
- Error paths of the database: only the tracking-number unique constraint is modelled. A failed insert still uses up a serial id, as Postgres serials do.
- `Storage.ParcelStore.GetAvailableTransports`: SQL `LIKE '%x%'` is read as case-sensitive substring search, with no `%`/`_` wildcards inside the search text.
- `Storage.ParcelStore.GetUserParcels` and `Storage.ParcelStore.GetParcelStatusHistory`: the database leaves the order of rows with equal sort keys open. The model fixes one such order (insertion order) and promises only the sort order.
- `Storage.ParcelStore.CreateTransport` and `Storage.ParcelStore.CreateNotification`: they are not checked against any table constraint, as in the source.
- Not modelled: `getTransports`, `getUserNotifications`, `getParcelByTrackingNumber`, `getUser` and `upsertUser`. They are plain selects outside the parcel core.
- `Routes.EstimateCost`: computed over exact reals and rounded half-up to cents. `toFixed(2)` on binary floating point can round a halfway case the other way; that artefact is not modelled.
- `Routes.PaymentCents`: the amount is an exact real, not a binary float.
- `ParcelList.FormatStatus`: `toUpperCase` is modelled on ASCII letters only.
- The identical copies of `formatStatus` in `client/src/pages/track.tsx`, `client/src/components/AdminPanel.tsx`, `client/src/components/LiveTracking.tsx` and `client/src/pages/checkout.tsx` are modelled once.
- `TransportSchedule.UpcomingTransports`: a missing transport list (`transports?.…|| []`) is not modelled. The list is always given.
- Dates: the `toLocaleDateString` text of the date line is not modelled; only which date is shown.
- `Notifications.ComposeMessage`: the template lookup covers the five status keys only. JavaScript prototype keys such as "constructor" are not modelled.
- `Routes.EstimateCost`: the size and priority lookups (server/routes.ts:204-205) also hit inherited keys such as "constructor" or "toString". There the source multiplies by a function, gets NaN, and answers `estimatedCost: null`. The model treats such a key as unknown, with multiplier 1 (a cost of 25 for "constructor" with no priority or distance).
- Authentication, sessions and zod validation of request bodies are not modelled. The insert schemas are read only for which columns a caller may set.
- React rendering, data fetching and the other client components are not modelled.

## Findings

| source | as written | input that shows it | evidently intended | confidence | as-written member | corrected member |
|---|---|---|---|---|---|---|
| server/storage.ts:137-141 | a status update for an id with no parcel still appends a history row; the history table has no foreign key, so the row stays | on an empty database, `updateParcelStatus(1, "delivered")` and then a booking: the new parcel gets id 1, and its history holds a "delivered" row older than the parcel, followed by its "pending" row | an unknown id writes nothing, so every history row belongs to an existing parcel | not executed | Storage.ParcelStore.UpdateParcelStatus, StorageScenarios.OrphanRowInherited | Storage.ParcelStore.UpdateParcelStatusChecked, StorageScenarios.OrphanRowPrevented |
| server/storage.ts:86-99, shared/schema.ts:137-142 | the insert takes the caller's `status` (the insert schema does not omit it), but the first history row is always "pending" | a booking whose body carries `status: "delivered"`: the parcel is stored as delivered, while its only history row says pending | a new parcel starts "pending", in agreement with its first history row | not executed | Storage.ParcelStore.CreateParcel, StorageScenarios.CallerStatusDisagrees | Storage.ParcelStore.CreateParcelPending, StorageScenarios.CallerStatusIgnored |
