# Appointment marketplace core, in Dafny

This project models the core of a healthcare appointment backend. In that
system, professionals publish availability, patients book 40-minute
appointments, payments go through the Flow gateway, and patients rate the
professionals afterwards. The model covers these parts:

- **Slot scheduler** (`scheduler.dfy`). `createSchedule` turns start times
  into 40-minute intervals. The listing of available schedules cuts each
  stored interval into whole 40-minute blocks. It drops every block that a
  pending or confirmed appointment of the professional touches, with both
  ends inclusive.
- **Appointment lifecycle** (`booking.dfy`). Booking runs its guards in
  order, then checks for a conflict with confirmed appointments, then
  inserts a pending row. The module also covers cancellation by the patient
  with 24 hours' notice, the unchecked status overwrite, deletion, and the
  patient's completed appointments that are not yet rated.
- **Payments** (`payments.dfy`). The order identifier `ORD-<id>-<ms>` and
  the parsing of it in the callback. The string the request signature is
  computed over. The payment-link handler. The confirmation callback, which
  confirms or cancels the appointment and completes or fails its payments.
- **Evaluations** (`evaluations.dfy`). Two insert paths with different
  guards, and the latest-first listing of a professional's evaluations.
- **Role gate** (`roles.dfy`).
- **Records** (`records.dfy`). The schemas: enumerations, defaults, and
  required fields.
- **Store** (`store.dfy`). The tables, as sequences held by a `Database`
  class together with their key counters.
- **Support modules.**
  - `ordering.dfy`: WHERE and ORDER BY. ORDER BY is a stable insertion
    sort, proved sorted and a permutation.
  - `text.dfy`: JavaScript `split`/`join`, decimal rendering and parsing,
    `startsWith`, and the default string order of `sort`.

Handlers that change the store are module-level methods. Each takes the
`Database` as a parameter, and its `modifies` clause names the tables it
may change. The two inserts that must keep the key counters in step,
`Store.Database.InsertPayment` and `Store.Database.InsertEvaluation`, are
methods of the class itself.

Most such handlers are proved against a decision function that holds their
guards. That function states every error case as an if-and-only-if, in the
order the handler checks them. Two handlers have guards short enough to
state in their own contracts instead: `Scheduler.CreateSchedule`, and
`Booking.DeleteAppointment`, which decides by the key lookup
`Store.AppointmentIndex`.

Apart from the block listing, the read-only handlers are functions. The
listing holds the one loop in the core, so it is a method with `while` loops. It is proved equal to the function
`Available`, whose properties are proved as lemmas.

Conventions of the model:

- Timestamps are integers in milliseconds; 40 minutes is 2 400 000 ms.
- Money is an integer number of cents.
- A numeric request field that the handler parses itself (`parseInt`,
  `isNaN`, `new Date`) is `None` when it is absent or when that parsing
  rejects it. A numeric field that the handler passes to the store
  unparsed is `None` only when it is absent; any other value is taken to
  be an integer (see "## Left out").
- `Truthy` and `TruthyText` model JavaScript's `!x` tests: absent, 0 and ""
  are falsy.
- The database is PostgreSQL, where a DECIMAL column comes back as a
  string. So `!professional.rate_per_hour` rejects only a missing rate.

Two properties one might expect of a booking system do not hold in this
code, and the model keeps the code's behaviour:

- **Overlapping bookings.** Nothing keeps two non-cancelled bookings of a
  professional from overlapping. Booking ignores pending appointments, so
  the same slot can be booked twice (`Booking.RepeatedBookingSucceeds`).
- **Status transitions.** The statuses read as a lifecycle pending →
  confirmed → completed, but no handler checks a transition:
  - the status update accepts any value (`Booking.EveryTransitionAccepted`);
  - cancellation ignores the current status (`Booking.CancellationIgnoresStatus`);
  - the payment callback confirms or cancels whatever the status was (`Payments.ConfirmPayment`).

The listing and the booking check count different appointments, pending or
confirmed against confirmed only, over different windows: `[s, s+40min]`
for the listing, `[s-40min, s+40min]` for booking. So a block the listing
shows can be refused at booking (`Booking.FreeListedButRejected`,
`Booking.ListedBlockRejectedIff`). A block the listing hides can still be
booked (`Booking.HiddenButBookable`).

## Model

| member | source | states |
|---|---|---|
| Scheduler.Dates | controllers/scheduleController.js:18-32 | the times are usable iff every one is a date; their values are kept in order |
| Scheduler.Intervals | controllers/scheduleController.js:18-22 | one interval per time, in input order, each [t, t+40min] for the same professional, with consecutive keys |
| Scheduler.CreateSchedule | controllers/scheduleController.js:9-33 | a missing or empty list gives 400 and an unparseable time gives 400, both with no row; the call succeeds iff the list is non-empty and every time parses, and then exactly the intervals for the times are appended, the key counter advances by their number, and the key invariant is kept |
| Scheduler.IntervalsAreWellFormed | models/schedule.js:13-20 | the intervals createSchedule makes have from < to and the caller as professional, which the schema itself does not demand |
| Scheduler.FreeBlocks | controllers/scheduleController.js:52-70 | at most floor((to-from)/40min) blocks; each lies inside the interval and is exactly 40 minutes long; the blocks are chronological and non-overlapping; no pending or confirmed appointment touches any of them |
| Scheduler.Occupied | controllers/scheduleController.js:57-63 | the listing's conflict query: some pending or confirmed appointment of the professional has its scheduled_time in [start, end], both ends included |
| Scheduler.CutInterval | controllers/scheduleController.js:49-70 | the while loop, which advances 40 minutes a step and stops before a partial block, yields exactly FreeBlocks |
| Scheduler.CutIntervals | controllers/scheduleController.js:46-71 | the loop over the intervals yields exactly the concatenation of their free blocks, in the order given |
| Scheduler.Available | controllers/scheduleController.js:46-71 | the listing over a sequence of intervals: each interval's free blocks, interval after interval |
| Scheduler.ProfessionalIntervals | controllers/scheduleController.js:40-44 | exactly the professional's intervals, each as often as stored, in ascending available_from |
| Scheduler.GetSchedulesByProfessional | controllers/scheduleController.js:37-77 | the listing is the concatenation of each interval's free blocks in interval order, or 404 when that is empty |
| Scheduler.FreeBlockIff | controllers/scheduleController.js:52-67 | a block is listed iff it is a whole block aligned at from + k*40min inside the interval and no pending or confirmed appointment lies in [start, end] |
| Scheduler.UnobstructedBlocks | controllers/scheduleController.js:52-69 | with nothing booked, an interval yields exactly floor((to-from)/40min) blocks, the k-th being [from+40k, from+40(k+1)] |
| Scheduler.ShortIntervalYieldsNothing | controllers/scheduleController.js:52-54 | an interval shorter than 40 minutes yields nothing |
| Scheduler.EightyMinutesYieldTwoBlocks | controllers/scheduleController.js:52-69 | an empty 80-minute interval yields its two blocks |
| Scheduler.BoundaryAppointmentRemovesBothBlocks | controllers/scheduleController.js:60 | an active appointment on a block boundary removes both blocks that share it |
| Scheduler.OccupiedIgnoresInactive | controllers/scheduleController.js:57-63 | adding a cancelled or completed appointment, or one of another professional, does not change the conflict query |
| Scheduler.FreeBlocksIgnoreInactive | controllers/scheduleController.js:57-67 | such an appointment does not change an interval's free blocks |
| Scheduler.AvailableIgnoresInactive | controllers/scheduleController.js:48-71 | such an appointment does not change the listing |
| Scheduler.AvailableAppend | controllers/scheduleController.js:48-71 | the listing of two runs of intervals is the concatenation of their listings |
| Scheduler.AvailableIsUnionOfIntervals | controllers/scheduleController.js:48-71 | a block is listed iff it is a free block of one of the intervals |
| Scheduler.AvailableStartsAfter | controllers/scheduleController.js:40-71 | no listed block starts before the intervals do |
| Scheduler.DisjointIntervalsListChronologically | controllers/scheduleController.js:40-71 | when the intervals follow one another without overlap, the whole listing is chronological and non-overlapping |
| Scheduler.RepeatedIntervalRepeatsBlocks | controllers/scheduleController.js:40-71 | an interval stored twice lists its block twice: intervals are not merged |
| Scheduler.DeclaredIntervalsListTheirBlocks | controllers/scheduleController.js:18-71 | taken in the order of the given sequence, which the handler re-sorts, the intervals createSchedule makes list exactly one block per time while nothing active touches them |
| Scheduler.CreatedIntervalsAreListed | controllers/scheduleController.js:18-71 | after a professional's first declaration with ascending times, the handler's listing is exactly one block per time, in request order, while nothing active touches them |
| Scheduler.ProfessionalIntervalsOfTwo | controllers/scheduleController.js:40-44 | two rows of the professional come out earliest available_from first, whatever their table order |
| Scheduler.ListingReSortsDeclaredIntervals | controllers/scheduleController.js:18-71 | times declared latest first are listed earliest first, because the listing re-sorts by available_from |
| Ordering.Filter | controllers/appointmentController.js:282-284 | keeps exactly the rows that satisfy the condition, each as often as in the input |
| Ordering.FilterKeepsOrder | controllers/appointmentController.js:278-284 | filtering a sorted list leaves it sorted |
| Ordering.SortWith | controllers/paymentController.js:55-56 | a permutation of the input, sorted by a total preorder |
| Ordering.SortBy | controllers/scheduleController.js:43 | ORDER BY an integer column: a permutation of the rows, ascending by the column |
| Ordering.SortByOfSorted | controllers/scheduleController.js:43 | rows already ascending by the column come back unchanged |
| Text.Split | controllers/paymentController.js:107 | split gives at least one piece and no piece contains the separator |
| Text.SplitJoin | controllers/paymentController.js:55-58 | splitting a join of separator-free pieces gives the pieces back |
| Text.Decimal | controllers/paymentController.js:33 | the decimal rendering of a number is a non-empty string of digits |
| Text.ParseDecimal | controllers/paymentController.js:107-109 | a key parses iff it is a non-empty string of digits |
| Text.ParseDecimalOfDecimal | controllers/paymentController.js:33 | parsing a rendered number gives the number back |
| Text.LexLeTotal | controllers/paymentController.js:56 | the default string order of sort compares every two keys |
| Text.LexLeTransitive | controllers/paymentController.js:56 | that order is transitive |
| Text.LexLeAntisymmetric | controllers/paymentController.js:56 | that order is antisymmetric |
| Store.AppointmentIndex | controllers/appointmentController.js:134-137 | findByPk: the first row with that key, or None iff no row has that key |
| Store.IndexOfDistinctIds | controllers/appointmentController.js:110-113 | with distinct keys, every row is found at its own position |
| Store.Database.InsertPayment | controllers/paymentController.js:73-78 | appends one payment row with the next key and keeps the key invariant |
| Store.Database.InsertEvaluation | controllers/evaluationController.js:30-36 | appends one evaluation row with the next key and keeps the key invariant |
| Booking.FindProfessional | controllers/appointmentController.js:28-31 | finds a user with that id and the professional role, or None iff there is none |
| Booking.ConfirmedWithin | controllers/appointmentController.js:39-48 | some confirmed appointment of the professional has its scheduled_time in [lo, hi], both ends included |
| Booking.BookingConflict | controllers/appointmentController.js:39-48 | booking's conflict query: a confirmed appointment of the professional in [s, s+40min] or in [s-40min, s] |
| Booking.BookingConflictIsOneWindow | controllers/appointmentController.js:39-48 | the union [s, s+40min] ∪ [s-40min, s] of the conflict query is the single range [s-40min, s+40min] |
| Booking.CheckBooking | controllers/appointmentController.js:16-60 | each guard fails iff the earlier ones pass and its own condition fails, in the order professional id, patient id, date, professional (404), rate, conflict (409); on success the row is pending, at s, priced at the rate, with no cancellation |
| Booking.CreateAppointment | controllers/appointmentController.js:11-62 | on success exactly one row is appended and the counter advances; on any error the table is unchanged; the key invariant is kept |
| Booking.ConfirmedWithinIgnoresUnconfirmed | controllers/appointmentController.js:42 | the booking check ignores every appointment that is not confirmed |
| Booking.RepeatedBookingSucceeds | controllers/appointmentController.js:39-60 | after a successful booking, the same request succeeds again: pending bookings do not block |
| Booking.SingleConfirmedConflict | controllers/appointmentController.js:39-52 | with one confirmed appointment at t, a booking at s conflicts iff s-40min <= t <= s+40min |
| Booking.ListedBlockRejectedIff | controllers/appointmentController.js:39-48 | a block the listing shows is refused at booking iff a confirmed appointment starts in the 40 minutes before it |
| Booking.FreeListedButRejected | controllers/appointmentController.js:39-52 | with a confirmed appointment 20 minutes before t, the block at t is listed, and booking it gives 409 |
| Booking.HiddenButBookable | controllers/appointmentController.js:39-60 | a pending appointment at t hides the block at t, and booking it succeeds |
| Booking.NegativeRateIsCharged | controllers/appointmentController.js:33-60 | the rate's sign is not checked: a professional with a negative rate is booked at that negative price |
| Booking.CheckCancellation | controllers/appointmentController.js:130-149 | missing id or reason gives 400, unknown appointment 404, another patient 403, less than 24 hours ahead 400, each iff the earlier checks pass; success iff scheduled - now >= 24 h, whatever the status |
| Booking.CancelAppointment | controllers/appointmentController.js:126-159 | on success only that row changes: status cancelled, cancellation approved, the given reason; on error nothing changes |
| Booking.AppointmentIndexOnlyReadsIds | controllers/appointmentController.js:134 | changing a row without changing its key does not change where findByPk finds keys |
| Booking.CancellationIgnoresStatus | controllers/appointmentController.js:134-149 | the cancellation decision is the same whatever the row's current status |
| Booking.CompletedAppointmentCanBeCancelled | controllers/appointmentController.js:143-157 | a completed appointment 24 hours or more ahead is cancelled like any other |
| Booking.CheckStatusUpdate | controllers/appointmentController.js:108-117 | 404 iff the key is unknown; 400 iff it is known and the value is not a status; otherwise the row's position |
| Booking.UpdateAppointmentStatus | controllers/appointmentController.js:108-122 | overwrites only that row's status with the value given; on error nothing changes |
| Booking.EveryTransitionAccepted | controllers/appointmentController.js:115-117 | every stored row accepts every status, whatever its current one |
| Booking.DeleteAppointment | controllers/appointmentController.js:93-104 | 404 for an unknown key; otherwise exactly that row is removed |
| Booking.DeletedRowIsGone | controllers/appointmentController.js:95-101 | after the deletion the key is not found, and every other row is still there |
| Booking.Unrated | controllers/appointmentController.js:282-284 | a completed appointment of the patient that no evaluation refers to |
| Booking.UnratedLatestFirst | controllers/appointmentController.js:260-284 | exactly the caller's completed, unevaluated appointments, each as often as stored, by descending scheduled_time |
| Booking.CompletedUnrated | controllers/appointmentController.js:256-292 | 404 iff there is no such appointment; otherwise those appointments, latest first |
| Payments.CommerceOrder | controllers/paymentController.js:33 | the order identifier starts with ORD- |
| Payments.OrderKeyField | controllers/paymentController.js:107 | field 1 of the order split on "-", or None when the split yields no such field |
| Payments.CommerceOrderRoundTrip | controllers/paymentController.js:33-107 | field 1 of `split("-")` on ORD-id-ts is the decimal id, and it parses back to id |
| Payments.Fields | controllers/paymentController.js:57 | one key=value string per parameter, in order |
| Payments.OrderedParams | controllers/paymentController.js:55-56 | the parameters as a permutation, in ascending key order |
| Payments.OrderedKeysStrictlyAscend | controllers/paymentController.js:55-58 | with distinct keys, the keys strictly ascend and each parameter occurs exactly once |
| Payments.SigningBaseSplitsIntoFields | controllers/paymentController.js:55-58 | when no key or value contains &, the signing string splits on & into the key=value pairs in key order |
| Payments.SigningBase | controllers/paymentController.js:55-58 | the key=value pairs in ascending key order, joined with & |
| Payments.FlowParams | controllers/paymentController.js:31-39 | the seven gateway parameters |
| Payments.FlowParamsHaveDistinctKeys | controllers/paymentController.js:31-39 | the seven keys differ, so each appears exactly once in the signing string |
| Payments.Amount | controllers/paymentController.js:35 | the price in cents written with two decimals, with a minus sign in front of a negative price |
| Payments.NegativeAmountIsSigned | controllers/paymentController.js:35 | a price of -500 cents is sent as "-5.00" |
| Payments.AmountRoundTrip | controllers/paymentController.js:35 | the two-decimal amount reads back as the appointment's price in cents, sign included |
| Payments.SecureBaseGivesSecureUrls | controllers/paymentController.js:37-52 | a base URL starting with https:// gives a callback or return URL that does too |
| Payments.CheckPaymentLink | controllers/paymentController.js:20-52 | missing id 400, unknown appointment 404, then the callback URL and then the return URL must start with https:// (400), each iff the earlier checks pass |
| Payments.CreatePaymentLink | controllers/paymentController.js:15-95 | no gateway call and no row when a check fails; no row when the gateway throws (500); once the gateway replies, exactly one pending Flow payment for the price; 201 with the link, or 500 without one |
| Payments.CheckConfirmation | controllers/paymentController.js:103-112 | no order 400; no second field, or an unknown appointment, 404; a second field that is not an integer 500 |
| Payments.CallbackFindsOrderedAppointment | controllers/paymentController.js:107-112 | the callback for ORD-id-ts finds exactly the appointment with that id |
| Payments.SettlePayments | controllers/paymentController.js:117-126 | every payment of the appointment gets the new status; the other payments are untouched |
| Payments.Paid | controllers/paymentController.js:115 | the callback confirms only when the status is the number 1 |
| Payments.ConfirmPayment | controllers/paymentController.js:99-131 | status 1 (the number) confirms the appointment and completes its payments; anything else cancels it and fails them; on error nothing changes |
| Payments.StringStatusCancels | controllers/paymentController.js:115 | the string "1" and an absent status do not count as paid; the number 1 does |
| Evaluations.OwnedAppointment | controllers/userController.js:91-104 | an appointment with that id and that patient, or None iff there is none |
| Evaluations.CheckEvaluation | controllers/evaluationController.js:12-36 | missing fields 400, not the caller's 404, not completed 400, rating outside 1..5 500, each iff the earlier checks pass; it never answers "already rated" |
| Evaluations.CreateEvaluation | controllers/evaluationController.js:7-38 | on success one evaluation is appended, for the appointment's professional, with the comment as given; on error nothing changes |
| Evaluations.EvaluationEndpointAdmitsDuplicates | controllers/evaluationController.js:30-36 | two successful calls leave two evaluations for the same appointment |
| Evaluations.CheckRating | controllers/userController.js:82-124 | no patient 400, missing fields 400, not the caller's 404, not completed 400, already evaluated 400, each iff the earlier checks pass |
| Evaluations.StoredComment | controllers/userController.js:136 | an absent or empty comment is stored as null; any other comment is stored as given |
| Evaluations.RateProfessional | controllers/userController.js:74-143 | on success one evaluation is appended, for the appointment's professional, with the rating as given; on error nothing changes |
| Evaluations.RatingKeepsOnePerAppointment | controllers/userController.js:111-124 | this path keeps at most one evaluation per appointment |
| Evaluations.RatingValueIsNotChecked | controllers/userController.js:127-140 | the decision is the same for every non-zero rating |
| Evaluations.OutOfRangeRatingSplitsTheEndpoints | models/Evaluation.js:31-35 | a rating of 9 is accepted by the rating path and refused with 500 by the evaluation path |
| Evaluations.LatestOf | controllers/evaluationController.js:60-71 | the professional's evaluations, each as often as stored, by descending created_at |
| Evaluations.ListedProfessional | controllers/evaluationController.js:50-57 | the parsed id parameter when there is one, otherwise the caller's id; a parameter that is not a number is refused before this point |
| Evaluations.EvaluationsByProfessional | controllers/evaluationController.js:47-78 | a non-numeric id 400; no evaluations 404; otherwise all of them, latest first, for the id or, without one, for the caller |
| Roles.RoleGate | middlewares/roleMiddleware.js:5-10 | next is called iff the role is in the list; otherwise 403 |
| Roles.EmptyGateRefusesAll | middlewares/roleMiddleware.js:5 | an empty list refuses every role |
| Roles.MoreRolesAdmitMore | middlewares/roleMiddleware.js:5 | widening the list never refuses a role that got through |
| Roles.GateDependsOnMembersOnly | middlewares/roleMiddleware.js:5 | lists with the same members decide alike |
| Roles.PatientOnlyRoute | middlewares/roleMiddleware.js:5-10 | a patients-only gate admits patients and refuses professionals and administrators |
| Records.NewAppointment | models/Appointment.js:25-37 | a new appointment is pending, with cancellation status none and no reason |
| Records.ValidRating | models/Evaluation.js:31-35 | the model-level validator: a rating is an integer from 1 to 5 |

The record types in `records.dfy` carry the schema constraints:

- Appointment `status` is one of the four values and is never null.
- `cancellation_status` is one of the four values.
- `scheduled_time` and `total_price` are required.
- Payment `payment_status` is one of pending, completed or failed.
- `payment_method` and `amount` are required.
- Evaluation `rating` is a required integer; its validator is `ValidRating`.
- The comment is optional.
- Nothing makes `appointment_id` unique.

The appointment defaults (status `pending`, cancellation status `none`) are
in the rows `Records.NewAppointment` builds, which `Booking.CheckBooking`
writes. The payment's `pending` status is not filled in by a default here:
`Payments.CreatePaymentLink` passes it to `Store.Database.InsertPayment`
explicitly, as the handler does.

## Left out

- Date and integer parsing (`new Date`, `parseInt`, `isNaN`) are abstract: a request field arrives already parsed, as `Option<int>`. A JSON string "0" is truthy in the source, but as the parsed value 0 it is falsy here.
- Payments.Amount: `parseFloat(...).toFixed(2)` is modelled as exact formatting of cents. Float rounding, and exponent notation for huge values, are not modelled.
- Average ratings in the user and evaluation controllers, and the reports, are float aggregation and are not modelled. The cancellation's hour division is replaced by the integer comparison scheduled - now < 24 h in milliseconds.
- The HMAC-SHA256 signature and the HTTP call to the gateway are foreign code. The gateway is a function parameter that receives the parameters and the signing string. The signature itself is not computed.
- The race between the booking conflict query and the insert is not modelled. Requests run one at a time.
- Only the store failures the handlers turn into documented answers are modelled. A failed payment insert, PostgreSQL's 32-bit integer range and the DECIMAL(10,2) range of prices are not: in the model, ids, prices and ratings are unbounded integers. Prices may be negative, because nothing in the source checks the sign of a rate (`Booking.NegativeRateIsCharged`, `Payments.NegativeAmountIsSigned`). A rate with fractions of a cent is taken as already rounded to cents.
- Payments.CheckPaymentLink: an `appointment_id` sent as text the store cannot cast to an integer (say "abc") is not representable, because the field is an `Option<int>`. The source passes such text to the store unparsed and answers 500 from its catch branch; the model has no such input.
- Booking.CheckCancellation: the same holds for `appointmentId`. Text the store cannot cast answers 500 from the handler's catch branch; the model has no such input.
- Evaluations.CheckEvaluation: the same holds for `appointment_id` and for `rating`. The source answers 500 from its catch branch; the model has no such input.
- Evaluations.CheckRating: the same holds for `appointmentId` and for `rating`. The source answers 500 from its catch branch; the model has no such input.
- Booking.CheckStatusUpdate: the path `id` is an integer here. A non-numeric one makes the store fail, and the handler answers 400 from its catch branch.
- Booking.DeleteAppointment: the same holds for its path `id`. The handler answers 400 from its catch branch.
- Payments.CheckConfirmation: the store's text-to-integer cast is modelled as digits only. Any other text is treated as a store error (500), but PostgreSQL also accepts a sign or surrounding blanks.
- Payments.OrderedParams: JavaScript's `sort` compares UTF-16 code units, and Dafny compares characters. The two agree on the ASCII keys used here.
- The readers' column projections and joined user names are left out. Listings return whole rows.
- SQL leaves the order of rows with equal sort keys unspecified. The model keeps table order (a stable sort).
- Booking.CancelAppointment: `cancellation_initiator` and `cancellation_requested_at` are assigned in the handler. They are not attributes of the appointment model, so they are not saved and the row does not hold them.
- Booking.DeleteAppointment: what happens to the appointment's payments and evaluations depends on foreign-key actions in the database. Those are not part of this model, so only the removal of the row is modelled.
- Evaluations.EvaluationsByProfessional covers the handler with every kind of `id` parameter. The evaluations route declares the parameter under another name, so through that route the handler always lists the caller's evaluations. The routes themselves are not part of this model.
- The handlers' catch-all error branches (a store outage, a save that fails after the checks) are not modelled, except the ones listed above. Those branches answer 400 in createSchedule, createAppointment, deleteAppointment and updateAppointmentStatus, and 500 in the other handlers.
- Authentication (JWT), password hashing, e-mail, notifications, complaints, reports and the plain CRUD getters are not part of this model.
