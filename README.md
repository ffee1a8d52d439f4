# Guru Space booking core in Dafny

Guru Space is a coworking-space booking site. Users reserve seats, or a whole
room, in a "Co-working" or "Conference" space for a time window. This project
models four pieces of logic from the site and proves properties about them.

- **Seat availability** (`SpaceService`, services/space-service.ts).
  - The seats booked for a space type in a window are the sum of the claims of
    the bookings that compete for it. A booking competes when:
    - its space type matches;
    - its status is `active` or `in-progress`;
    - it starts no later than the window ends;
    - it ends no earlier than the window starts.
  - A whole-space booking claims the full capacity.
  - Available space is `max(0, capacity - booked)`.
  - The admission rule: a whole-space request needs all of the capacity free.
    Any other request needs at least the requested seats free.
  - `bookSpace` returns that verdict and writes nothing.
  - Also modelled: the "today" count of active bookings, the all-types stats
    loop, and the defaulting of missing dates to today.
- **Counter document** (`SpaceCounter`, services/space-service.ts).
  - Each space type has a stored counter `{Available, Booked, Total}`,
    modelled as the class `CounterDoc`.
  - It is created with all seats available and read with falsy fields
    defaulted.
  - A release is a guarded move of seats from booked to available.
- **Booking schema** (`BookingSchema`, schemas/booking.schema.ts).
  - Validation is an ordered chain of checks. It returns the first failing
    check's message, or `null`.
  - A mapper builds a `Booking` from a stored document and defaults the seat
    count.
- **User schema** (`UserSchema`, schemas/user.schema.ts).
  - Validation checks the names, then the email regex, then the phone regex.
  - Document creation stamps both timestamps with the same instant.
- **Route guard** (`Middleware`, middleware.ts).
  - It maps the `authToken` cookie and the request path to one of four
    responses: a redirect to `/dashboard`, a pass-through with a no-cache
    header, a redirect to `/login` with a `callbackUrl`, or a plain
    pass-through.

`JsValues` holds the JavaScript pieces the others share: an optional value,
the ECMAScript whitespace class, and `trim`. `StatusSpelling` joins the two
booking modules. The `Booking` type spells the in-progress status
`'in progress'`, but the service's query filters on `'in-progress'`. So a
booking stored with the schema's spelling never occupies a seat
(`SchemaInProgressNeverCounted`). The application itself uses the schema's
spelling: check-in writes `status: "in progress"`
(app/(user dashboard)/dashboard/_components/BookingTimer.tsx:105), and the
dashboard queries for `"in progress"` (app/(user dashboard)/dashboard/page.tsx:108).
So every checked-in booking stops counting toward the service's booked seats.

Conventions of the model:

- Instants are integer milliseconds since the epoch.
- "Today" is a `LocalDay`: its local midnight and the next one.
- A missing or invalid `Date` argument is `None`.
- The configured capacity of a space type is a parameter. It is an `int` for
  one type, and a function from type name to `int` for the all-types loop.
- The Bookings collection is a sequence of records.

Behaviour of the code worth knowing when reading the model:

- **Overlap test.** The code compares with `<=` and `>=`, so windows are
  closed intervals: a booking that ends exactly when the window starts is
  counted (`BoundaryBookingCounted`). It tests interval overlap, not
  containment of one instant.
- **Admission.** `bookSpace` only computes the verdict; it inserts nothing.
  Its dates go unchecked to `checkAvailability`, so a missing date falls back
  to today's bounds. The `Book` component in
  app/(user dashboard)/book/_page.tsx:355-359 calls it without dates, so a
  request made through it is judged against today's window, whatever day it
  is for (`UndatedRequestAdmittedDespiteLaterWholeBooking`). That file
  is not a routed `page.tsx`, and the call omits two parameters the signature
  requires.
- **Release.** `releaseSpace` adjusts the counter document; it does not touch
  the booking.
- **Booking lifecycle.** Check-in, check-out, completion and extra-time
  tracking live in UI components (for example
  app/(user dashboard)/dashboard/_components/BookingTimer.tsx and
  BookingSummaryPopup.tsx), outside the modelled core.

## Model

| member | source | states |
|---|---|---|
| SpaceService.DefaultDateRange | services/space-service.ts:13-21 | the default window runs from today 00:00:00.000 to 23:59:59.999, i.e. it contains exactly the instants of the local day |
| SpaceService.ResolveWindow | services/space-service.ts:41-44 | a missing or invalid start (end) date becomes the default start (end); a given date is kept |
| SpaceService.ResolveWindowIdempotent | services/space-service.ts:89-99 | re-resolving the dates a caller already resolved changes nothing, even if the day has changed in between |
| SpaceService.QuerySnapshot | services/space-service.ts:50-57 | the query result holds exactly the bookings, each as often as in the collection, of the space type, with status active or in-progress, that start no later than the window end |
| SpaceService.SnapshotKeepsBooked | services/space-service.ts:50-74 | filtering by the query and then by `endDate >= start` counts exactly the bookings that compete for the window |
| SpaceService.GetBookedSeatsForTimeSlot | services/space-service.ts:36-77 | the loop returns the sum of claims over competing bookings (type matches, status active/in-progress, start <= window end, end >= window start); whole-space bookings claim the capacity |
| SpaceService.BookedSeatsAppend | services/space-service.ts:60-75 | the booked total over two batches of bookings is the sum of their totals |
| SpaceService.BookedSeatsNonNegative | services/space-service.ts:60-75 | with non-negative seat claims the booked total is non-negative |
| SpaceService.BookedSeatsZeroIff | services/space-service.ts:60-75 | with non-negative claims nothing is booked iff every competing booking claims zero seats |
| SpaceService.BoundaryBookingCounted | services/space-service.ts:68-74 | a booking ending exactly at the window start still adds its full claim |
| SpaceService.BookedSeats | services/space-service.ts:60-77 | the sum of claims over competing bookings; its properties are stated by `GetBookedSeatsForTimeSlot`, `BookedSeatsAppend`, `BookedSeatsZeroIff` and `WiderWindowBooksMore` |
| SpaceService.NonCompetingBookingIgnored | services/space-service.ts:50-74 | a booking of another type, another status, or outside the window leaves the total unchanged |
| SpaceService.WiderWindowBooksMore | services/space-service.ts:54-68 | with non-negative claims, widening the window never lowers the booked total |
| SpaceService.Available | services/space-service.ts:101 | available space is max(0, total - booked): never negative, and never above the total when booked and total are non-negative |
| SpaceService.GetAvailableSpace | services/space-service.ts:84-101 | returns the clamped availability for the resolved window |
| SpaceService.CheckAvailability | services/space-service.ts:108-126 | a whole-space request is accepted iff available equals the capacity; otherwise iff available >= requested seats |
| SpaceService.BookSpace | services/space-service.ts:266-291 | returns exactly the admission verdict for the window its dates resolve to (today's bounds for a missing date) and writes nothing |
| SpaceService.UndatedRequestIgnoresLaterBookings | services/space-service.ts:115-117 | an undated request is judged against today's window, so a booking starting after today does not change the space available to it |
| SpaceService.UndatedRequestAdmittedDespiteLaterWholeBooking | services/space-service.ts:275-281 | an undated whole-space request is admitted although a later day is booked whole, while the same request dated for that day is refused |
| SpaceService.Admits | services/space-service.ts:122-126 | the admission rule; its properties are stated by `CheckAvailability`, `AdmitsFewerSeats`, `WholeSpaceAdmittedIffNoCompetingSeats` and `AdmissionRespectsCapacity` |
| SpaceService.AdmitsFewerSeats | services/space-service.ts:126 | accepting n seats implies accepting any m <= n |
| SpaceService.WholeSpaceAdmittedIffNoCompetingSeats | services/space-service.ts:122-123 | with positive capacity and non-negative claims, a whole-space request is accepted iff no competing booking claims a seat |
| SpaceService.AdmissionRespectsCapacity | services/space-service.ts:122-126 | adding a booking that was admitted for a window keeps that window's booked seats within capacity |
| SpaceService.StatsFor | services/space-service.ts:145-158 | each stats record reports available space equal to max(0, capacity - booked), next to the unclamped booked seats and the capacity |
| SpaceService.GetAllSpacesStats | services/space-service.ts:133-158 | the loop builds one record per space type, each computed for the same resolved window |
| SpaceService.BookedSeatsForToday | services/space-service.ts:173-196 | the sum of claims of today's active bookings; its property is stated by `TodayWithinDefaultWindow` |
| SpaceService.TodayWithinDefaultWindow | services/space-service.ts:173-196 | the today count sums active bookings starting in [today 00:00, tomorrow 00:00); it is at most the default-window total when claims are non-negative and bookings do not end before they start |
| SpaceCounter.Initial | services/space-service.ts:28-33 | initialisation writes Available = Total = capacity and Booked = 0, a balanced counter for a non-negative capacity |
| SpaceCounter.SeatsToRelease | services/space-service.ts:243 | the whole total for a whole-space release, the seat count otherwise; its use is stated by `Release` |
| SpaceCounter.Release | services/space-service.ts:243-256 | release fails iff Booked < r or Available + r > Total, where r is Total for whole-space and the seat count otherwise; on success Available gains r and Booked loses r, Total is kept, Booked >= 0 and Available <= Total, and a balanced counter stays balanced when r is non-negative (a negative seat count passes both guards) |
| SpaceCounter.FreshCounterRefusesRelease | services/space-service.ts:243-251 | on a freshly initialised counter, releasing a positive number of seats (or a positive whole space) fails |
| SpaceCounter.ReadStats | services/space-service.ts:220-225 | a stored Available or Total of 0 reads back as the capacity; Booked reads as stored |
| SpaceCounter.FullCounterReadsAsFree | services/space-service.ts:221 | a fully booked counter (Available 0) is reported as entirely available |
| SpaceCounter.CounterDoc.InitializeSpaceStats | services/space-service.ts:24-34 | the document exists afterwards with the initial counter and the space type |
| SpaceCounter.CounterDoc.GetSpaceStats | services/space-service.ts:203-226 | a missing document is initialised and the defaults are returned; a stored one is read with falsy fields defaulted and left unchanged |
| SpaceCounter.CounterDoc.ReleaseSpace | services/space-service.ts:228-264 | succeeds iff the document exists and the guarded release succeeds; on failure the counter is unchanged; on success it becomes the released counter |
| BookingSchema.ValidateBookingData | schemas/booking.schema.ts:24-58 | the ordered check chain; its properties are stated by `ValidateNoneIffAcceptable`, `ValidateReportsFirstFailure` and `ValidateByChecks` |
| BookingSchema.ValidateNoneIffAcceptable | schemas/booking.schema.ts:24-58 | validation returns null iff no check fails |
| BookingSchema.ValidateReportsFirstFailure | schemas/booking.schema.ts:24-57 | the result is the message of check k iff check k fails and every earlier check passes |
| BookingSchema.ValidateByChecks | schemas/booking.schema.ts:24-57 | the guard chain equals the ordered list of checks with their messages |
| BookingSchema.DurationCheckedBeforeAmount | schemas/booking.schema.ts:29-35 | with a valid space type and both duration and amount non-positive, the duration error is reported |
| BookingSchema.EqualInstantsRejected | schemas/booking.schema.ts:41-43 | equal start and end instants are always rejected, with the message of the date check or of one before it |
| BookingSchema.SeatCountIgnoredUnlessCoworkingSeats | schemas/booking.schema.ts:53-55 | for Conference or whole-space requests the verdict does not depend on the seat count |
| BookingSchema.SeatsOrDefault | schemas/booking.schema.ts:68 | a missing or zero seat count becomes 1; any other count is kept |
| BookingSchema.MapBookingData | schemas/booking.schema.ts:61-77 | the document id becomes the booking id; status and every other field are copied unchanged; only the seat count is defaulted |
| BookingSchema.MapRoundTrip | schemas/booking.schema.ts:61-77 | mapping inverts storing for bookings with a non-zero seat count, and storing inverts mapping for documents whose seat count is set and non-zero |
| JsValues.TrimStart | schemas/user.schema.ts:15 | strips exactly the maximal leading run of whitespace |
| JsValues.TrimEnd | schemas/user.schema.ts:15 | strips exactly the maximal trailing run of whitespace |
| JsValues.Trim | schemas/user.schema.ts:15 | the result is a slice of the input that neither starts nor ends with whitespace, with only whitespace cut off on either side |
| JsValues.TrimEmptyIffAllWhitespace | schemas/booking.schema.ts:49 | a string trims to '' iff it consists only of whitespace |
| UserSchema.IndexOf | schemas/user.schema.ts:21 | returns the position of the first occurrence of the character, or the length when it does not occur |
| UserSchema.ScanAcceptsOnlyPatternMatches | schemas/user.schema.ts:20-21 | every string the scan accepts matches the email regular expression |
| UserSchema.PatternMatchesPassScan | schemas/user.schema.ts:20-21 | every string the email regular expression matches passes the scan |
| UserSchema.EmailCheckMatchesPattern | schemas/user.schema.ts:20-23 | a string is accepted iff it has no whitespace, exactly one '@' with text on both sides, and a '.' with text on both sides after the '@', i.e. iff it matches the email regex |
| UserSchema.IsPhone | schemas/user.schema.ts:26-29 | exactly eleven ASCII digits, the language of `^\d{11}$`; its use is stated by `ValidateUserData` |
| UserSchema.ValidateUserData | schemas/user.schema.ts:13-32 | returns null iff names are non-blank, the email matches and the phone is exactly 11 ASCII digits; otherwise the first failure in the order names, email, phone |
| UserSchema.CreateUserDocument | schemas/user.schema.ts:35-42 | createdAt equals updatedAt, and all input fields are kept unchanged |
| Middleware.SomeEquals | middleware.ts:18 | `.some(route => pathname === route)` holds iff the path is one of the routes |
| Middleware.SomePrefix | middleware.ts:23 | `.some(route => pathname.startsWith(route))` holds iff the path starts with one of the routes |
| Middleware.Decide | middleware.ts:10-39 | signed in on an auth route: redirect to /dashboard; signed in under a protected route: pass with `x-middleware-cache: no-cache`; signed out under a protected route: redirect to /login with callbackUrl = path; otherwise pass unchanged |
| Middleware.EmptyCookieIsSignedOut | middleware.ts:12-16 | an empty cookie value gets the same response as no cookie |
| Middleware.SignedOutAuthPagePassesThrough | middleware.ts:29-39 | a signed-out user on an auth page passes through unchanged |
| Middleware.ProtectedIsPrefixClosed | middleware.ts:23 | every extension of a protected path is protected |
| Middleware.NotProtectedBySecondChar | middleware.ts:5-8 | a path whose second character is not d, p, b or t is not protected |
| Middleware.AuthRoutesMatchExactly | middleware.ts:18 | no strict extension of an auth route is an auth route |
| Middleware.RouteMatchingExamples | middleware.ts:18-35 | `/bookings` and `/dashboard/x` are protected; `/login/x` is not an auth route and passes through when signed in |
| Middleware.NoRedirectLoop | middleware.ts:16-35 | the target of every redirect passes through for the same cookie |
| StatusSpelling.AsReservation | services/space-service.ts:63-71 | the service reads a stored document's type, status, dates, whole-space flag and seat count as stored, without the mapper's default |
| StatusSpelling.OnlyActiveSchemaStatusIsCounted | schemas/booking.schema.ts:16 | of the schema's statuses, only 'active' passes the service's status filter |
| StatusSpelling.SchemaInProgressNeverCounted | services/space-service.ts:53 | a booking with the schema's 'in progress' status never adds to the booked seats of any window |

## Left out

- Firestore I/O is replaced by input sequences and the `CounterDoc` object. This covers `getDocs`, `getDoc`, `setDoc` and `runTransaction`. Transaction atomicity and concurrent interleavings are not modelled.
- The `try`/`catch` fallbacks are not modelled. In the source these log an error and return 0, `false`, or a stats record with nothing available. The middleware's error branch is not modelled either. Store errors themselves are not modelled.
- JavaScript `Date`, `Timestamp` and local-time `setHours` are left out. Instants are integers, and today's bounds come from the `LocalDay` parameter. `new Date().toISOString()` becomes the `now` parameter of `CreateUserDocument`.
- The 'Invalid date format' guard (`instanceof Timestamp`, schemas/booking.schema.ts:37-39) is not modelled. With integer instants every date is well formed.
- JavaScript numbers are modelled as integers. This leaves out NaN, fractions and floating-point rounding: a NaN duration or amount passes validation, and a counted booking document without `numberOfSeats` makes the sum NaN.
- Counter documents with missing or non-numeric fields are not modelled. Only the zero case of the falsy defaults is.
- Space-type capacities are a parameter, because the configuration file is not part of this model. The list of space types that `getAllSpacesStats` walks is also a parameter.
- Two optional fields of the `Booking` type are not modelled: `totalCapacity` and `date`. No core operation reads them.
- The response is a value, not a `NextResponse`/`URL` object. The `config.matcher` that selects which paths reach the middleware is not modelled.
- StatusSpelling.AsReservation: a stored document without a seat count is read as claiming 0 seats. JavaScript's `+=` would make the service's total NaN, which the model does not represent.
- SpaceService.BookedSeatsForToday: carries no contract of its own. Its property is stated by `TodayWithinDefaultWindow`.
- BookingSchema.ValidateBookingData: carries no contract of its own. Its properties are stated by `ValidateNoneIffAcceptable`, `ValidateReportsFirstFailure` and `ValidateByChecks`.
