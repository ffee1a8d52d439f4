/** Seat availability for a space type over a time window, derived by scanning
    the Bookings collection, and the admission verdict built on it
    (services/space-service.ts). The collection is an input sequence; the
    capacity of a space type (its configured `totalSpace`) is a parameter. */
module SpaceService {
  import opened JsValues

  /** A booking document as the service reads it. Instants are milliseconds
      since the epoch. */
  datatype Reservation = Reservation(
    spaceType: string,
    status: string,
    startDate: int,
    endDate: int,
    bookWholeSpace: bool,
    numberOfSeats: int)

  /** The local calendar day the clock is in: its midnight and the next one. */
  datatype LocalDay = LocalDay(midnight: int, nextMidnight: int)

  predicate ValidDay(day: LocalDay) {
    day.midnight < day.nextMidnight
  }

  /** A closed time window [startDate, endDate]. */
  datatype DateRange = DateRange(startDate: int, endDate: int)

  predicate InRange(w: DateRange, t: int) {
    w.startDate <= t <= w.endDate
  }

  predicate InDay(day: LocalDay, t: int) {
    day.midnight <= t < day.nextMidnight
  }

  /** The per-space-type figures that `getAllSpacesStats` and `getSpaceStats` report. */
  datatype SpaceStats = SpaceStats(
    availableSpace: int,
    bookedSpace: int,
    totalSpace: int,
    spaceType: string)

  /** The statuses the booked-seat query accepts. */
  const CountedStatuses: seq<string> := ["active", "in-progress"]

  // ---------------------------------------------------------------------------
  // Default window

  /** Today from 00:00:00.000 to 23:59:59.999: exactly the instants of the day. */
  function DefaultDateRange(day: LocalDay): (r: DateRange)
    requires ValidDay(day)
    ensures r.startDate <= r.endDate
    ensures forall t {:trigger InRange(r, t)} :: InRange(r, t) <==> InDay(day, t)
  {
    DateRange(day.midnight, day.nextMidnight - 1)
  }

  /** A missing or invalid start (end) date is replaced by the start (end) of
      the default window; a given one is kept. */
  function ResolveWindow(startDate: Option<int>, endDate: Option<int>, day: LocalDay): (w: DateRange)
    requires ValidDay(day)
    ensures startDate.Some? ==> w.startDate == startDate.value
    ensures startDate.None? ==> w.startDate == DefaultDateRange(day).startDate
    ensures endDate.Some? ==> w.endDate == endDate.value
    ensures endDate.None? ==> w.endDate == DefaultDateRange(day).endDate
  {
    var d := DefaultDateRange(day);
    DateRange(
      if startDate.Some? then startDate.value else d.startDate,
      if endDate.Some? then endDate.value else d.endDate)
  }

  /** Each layer of the service resolves its dates again before passing them
      on; resolving an already resolved window changes nothing, on any day. */
  lemma ResolveWindowIdempotent(w: DateRange, day: LocalDay)
    requires ValidDay(day)
    ensures ResolveWindow(Some(w.startDate), Some(w.endDate), day) == w
  {
  }

  // ---------------------------------------------------------------------------
  // Booked seats for a window

  /** The claim a booking makes on its space type: all of it for a whole-space
      booking, its seat count otherwise. */
  function SeatClaim(b: Reservation, totalSpace: int): int {
    if b.bookWholeSpace then totalSpace else b.numberOfSeats
  }

  /** A booking competes for the window when it is of the space type, is
      active or in progress, starts no later than the window ends and ends no
      earlier than the window starts (both ends closed). */
  predicate Counts(b: Reservation, spaceType: string, w: DateRange) {
    && b.spaceType == spaceType
    && (b.status == "active" || b.status == "in-progress")
    && b.startDate <= w.endDate
    && b.endDate >= w.startDate
  }

  /** The seats claimed in window `w`: the sum of the claims of the competing bookings. */
  function BookedSeats(bookings: seq<Reservation>, spaceType: string, totalSpace: int, w: DateRange): int
  {
    if bookings == [] then 0
    else
      (if Counts(bookings[0], spaceType, w) then SeatClaim(bookings[0], totalSpace) else 0)
      + BookedSeats(bookings[1..], spaceType, totalSpace, w)
  }

  /** The store query of `getBookedSeatsForTimeSlot`: equal space type, status
      in the counted list, start no later than the window end. */
  predicate InQuery(b: Reservation, spaceType: string, windowEnd: int) {
    b.spaceType == spaceType && b.status in CountedStatuses && b.startDate <= windowEnd
  }

  /** The documents that query returns. */
  function QuerySnapshot(bookings: seq<Reservation>, spaceType: string, windowEnd: int): (r: seq<Reservation>)
    ensures |r| <= |bookings|
    ensures forall b :: b in r ==> b in bookings && InQuery(b, spaceType, windowEnd)
    ensures forall b :: b in bookings && InQuery(b, spaceType, windowEnd) ==> b in r
    ensures forall b :: multiset(r)[b] == if InQuery(b, spaceType, windowEnd) then multiset(bookings)[b] else 0
  {
    if bookings == [] then []
    else
      var rest := QuerySnapshot(bookings[1..], spaceType, windowEnd);
      assert bookings == [bookings[0]] + bookings[1..];
      if InQuery(bookings[0], spaceType, windowEnd) then [bookings[0]] + rest else rest
  }

  lemma {:induction false} BookedSeatsAppend(a: seq<Reservation>, b: seq<Reservation>, spaceType: string, totalSpace: int, w: DateRange)
    ensures BookedSeats(a + b, spaceType, totalSpace, w)
         == BookedSeats(a, spaceType, totalSpace, w) + BookedSeats(b, spaceType, totalSpace, w)
  {
    if a != [] {
      assert (a + b)[1..] == a[1..] + b;
      BookedSeatsAppend(a[1..], b, spaceType, totalSpace, w);
    } else {
      assert a + b == b;
    }
  }

  /** Filtering by the store query first and by the end date afterwards counts
      exactly the competing bookings. */
  lemma {:induction false} SnapshotKeepsBooked(bookings: seq<Reservation>, spaceType: string, totalSpace: int, w: DateRange)
    ensures BookedSeats(QuerySnapshot(bookings, spaceType, w.endDate), spaceType, totalSpace, w)
         == BookedSeats(bookings, spaceType, totalSpace, w)
  {
    if bookings != [] {
      SnapshotKeepsBooked(bookings[1..], spaceType, totalSpace, w);
      var rest := QuerySnapshot(bookings[1..], spaceType, w.endDate);
      if InQuery(bookings[0], spaceType, w.endDate) {
        assert ([bookings[0]] + rest)[1..] == rest;
      }
    }
  }

  /** `getBookedSeatsForTimeSlot`: run the query, then add up the claims of the
      returned bookings that end no earlier than the window starts. */
  method GetBookedSeatsForTimeSlot(
    bookings: seq<Reservation>, spaceType: string, totalSpace: int,
    startDate: Option<int>, endDate: Option<int>, day: LocalDay)
    returns (totalBookedSeats: int)
    requires ValidDay(day)
    ensures totalBookedSeats == BookedSeats(bookings, spaceType, totalSpace, ResolveWindow(startDate, endDate, day))
  {
    var w := ResolveWindow(startDate, endDate, day);
    var snapshot := QuerySnapshot(bookings, spaceType, w.endDate);
    totalBookedSeats := 0;
    var i := 0;
    while i < |snapshot|
      invariant 0 <= i <= |snapshot|
      invariant totalBookedSeats == BookedSeats(snapshot[..i], spaceType, totalSpace, w)
    {
      var booking := snapshot[i];
      assert InQuery(booking, spaceType, w.endDate);
      if booking.endDate >= w.startDate {
        var bookedSeats := if booking.bookWholeSpace then totalSpace else booking.numberOfSeats;
        totalBookedSeats := totalBookedSeats + bookedSeats;
      }
      assert snapshot[..i + 1] == snapshot[..i] + [booking];
      BookedSeatsAppend(snapshot[..i], [booking], spaceType, totalSpace, w);
      i := i + 1;
    }
    assert snapshot[..i] == snapshot;
    SnapshotKeepsBooked(bookings, spaceType, totalSpace, w);
  }

  // ---------------------------------------------------------------------------
  // Properties of the booked-seat sum

  /** Every booking claims a non-negative number of seats. */
  predicate NonNegativeClaims(bookings: seq<Reservation>, totalSpace: int) {
    totalSpace >= 0 && forall i :: 0 <= i < |bookings| ==> SeatClaim(bookings[i], totalSpace) >= 0
  }

  lemma {:induction false} BookedSeatsNonNegative(bookings: seq<Reservation>, spaceType: string, totalSpace: int, w: DateRange)
    requires NonNegativeClaims(bookings, totalSpace)
    ensures BookedSeats(bookings, spaceType, totalSpace, w) >= 0
  {
    if bookings != [] {
      assert SeatClaim(bookings[0], totalSpace) >= 0;
      BookedSeatsNonNegative(bookings[1..], spaceType, totalSpace, w);
    }
  }

  /** With non-negative claims nothing is booked exactly when every competing
      booking claims zero seats. */
  lemma {:induction false} BookedSeatsZeroIff(bookings: seq<Reservation>, spaceType: string, totalSpace: int, w: DateRange)
    requires NonNegativeClaims(bookings, totalSpace)
    ensures BookedSeats(bookings, spaceType, totalSpace, w) == 0
        <==> forall i :: 0 <= i < |bookings| && Counts(bookings[i], spaceType, w) ==> SeatClaim(bookings[i], totalSpace) == 0
  {
    if bookings != [] {
      BookedSeatsZeroIff(bookings[1..], spaceType, totalSpace, w);
      BookedSeatsNonNegative(bookings[1..], spaceType, totalSpace, w);
      assert forall i :: 1 <= i < |bookings| ==> bookings[i] == bookings[1..][i - 1];
    }
  }

  /** A booking that ends exactly when the window starts still competes: it
      adds its whole claim. */
  lemma BoundaryBookingCounted(bookings: seq<Reservation>, b: Reservation, spaceType: string, totalSpace: int, w: DateRange)
    requires b.spaceType == spaceType && (b.status == "active" || b.status == "in-progress")
    requires b.startDate <= w.endDate && b.endDate == w.startDate
    ensures BookedSeats(bookings + [b], spaceType, totalSpace, w)
         == BookedSeats(bookings, spaceType, totalSpace, w) + SeatClaim(b, totalSpace)
  {
    BookedSeatsAppend(bookings, [b], spaceType, totalSpace, w);
  }

  /** A booking that does not compete for the window leaves the total alone. */
  lemma NonCompetingBookingIgnored(bookings: seq<Reservation>, b: Reservation, spaceType: string, totalSpace: int, w: DateRange)
    requires !Counts(b, spaceType, w)
    ensures BookedSeats(bookings + [b], spaceType, totalSpace, w) == BookedSeats(bookings, spaceType, totalSpace, w)
  {
    BookedSeatsAppend(bookings, [b], spaceType, totalSpace, w);
  }

  /** Widening the window never lowers the booked total when claims are non-negative. */
  lemma {:induction false} WiderWindowBooksMore(bookings: seq<Reservation>, spaceType: string, totalSpace: int, w: DateRange, wide: DateRange)
    requires NonNegativeClaims(bookings, totalSpace)
    requires wide.startDate <= w.startDate && w.endDate <= wide.endDate
    ensures BookedSeats(bookings, spaceType, totalSpace, w) <= BookedSeats(bookings, spaceType, totalSpace, wide)
  {
    if bookings != [] {
      assert SeatClaim(bookings[0], totalSpace) >= 0;
      WiderWindowBooksMore(bookings[1..], spaceType, totalSpace, w, wide);
    }
  }

  // ---------------------------------------------------------------------------
  // Available space and the admission rule

  /** `Math.max(0, totalSpace - bookedSeats)`. */
  function Available(totalSpace: int, bookedSeats: int): (r: int)
    ensures r >= 0 && r >= totalSpace - bookedSeats
    ensures r == 0 || r == totalSpace - bookedSeats
    ensures 0 <= bookedSeats && 0 <= totalSpace ==> r <= totalSpace
  {
    if totalSpace - bookedSeats > 0 then totalSpace - bookedSeats else 0
  }

  /** The space still free in window `w`. */
  function AvailableIn(bookings: seq<Reservation>, spaceType: string, totalSpace: int, w: DateRange): int {
    Available(totalSpace, BookedSeats(bookings, spaceType, totalSpace, w))
  }

  /** The admission rule: a whole-space request needs all of the space free,
      any other request needs at least the requested seats free. */
  predicate Admits(available: int, totalSpace: int, requestedSeats: int, bookWholeSpace: bool) {
    if bookWholeSpace then available == totalSpace else available >= requestedSeats
  }

  /** `getAvailableSpace` */
  method GetAvailableSpace(
    bookings: seq<Reservation>, spaceType: string, totalSpace: int,
    startDate: Option<int>, endDate: Option<int>, day: LocalDay)
    returns (available: int)
    requires ValidDay(day)
    ensures available == AvailableIn(bookings, spaceType, totalSpace, ResolveWindow(startDate, endDate, day))
    ensures available >= 0
  {
    var w := ResolveWindow(startDate, endDate, day);
    var bookedSeats := GetBookedSeatsForTimeSlot(bookings, spaceType, totalSpace, Some(w.startDate), Some(w.endDate), day);
    ResolveWindowIdempotent(w, day);
    available := if totalSpace - bookedSeats > 0 then totalSpace - bookedSeats else 0;
  }

  /** `checkAvailability` (the source defaults `requestedSeats` to 1 and
      `bookWholeSpace` to false). */
  method CheckAvailability(
    bookings: seq<Reservation>, spaceType: string, totalSpace: int,
    startDate: Option<int>, endDate: Option<int>, requestedSeats: int, bookWholeSpace: bool, day: LocalDay)
    returns (ok: bool)
    requires ValidDay(day)
    ensures ok == Admits(AvailableIn(bookings, spaceType, totalSpace, ResolveWindow(startDate, endDate, day)),
                         totalSpace, requestedSeats, bookWholeSpace)
  {
    var w := ResolveWindow(startDate, endDate, day);
    var availableSpace := GetAvailableSpace(bookings, spaceType, totalSpace, Some(w.startDate), Some(w.endDate), day);
    ResolveWindowIdempotent(w, day);
    if bookWholeSpace {
      ok := availableSpace == totalSpace;
    } else {
      ok := availableSpace >= requestedSeats;
    }
  }

  /** `bookSpace`: returns the admission verdict for the window and records
      nothing. Its dates are passed on to `checkAvailability` unchecked, so a
      missing or invalid date falls back to today's bounds there. */
  method BookSpace(
    bookings: seq<Reservation>, spaceType: string, totalSpace: int,
    seats: int, bookWholeSpace: bool, startDate: Option<int>, endDate: Option<int>, day: LocalDay)
    returns (ok: bool)
    requires ValidDay(day)
    ensures ok == Admits(AvailableIn(bookings, spaceType, totalSpace, ResolveWindow(startDate, endDate, day)),
                         totalSpace, seats, bookWholeSpace)
  {
    ok := CheckAvailability(bookings, spaceType, totalSpace, startDate, endDate, seats, bookWholeSpace, day);
  }

  /** A request without dates is judged against today's window: a booking
      that starts after today does not change the space available to it. */
  lemma UndatedRequestIgnoresLaterBookings(
    bookings: seq<Reservation>, b: Reservation, spaceType: string, totalSpace: int, day: LocalDay)
    requires ValidDay(day) && b.startDate >= day.nextMidnight
    ensures ResolveWindow(None, None, day) == DefaultDateRange(day)
    ensures AvailableIn(bookings + [b], spaceType, totalSpace, ResolveWindow(None, None, day))
         == AvailableIn(bookings, spaceType, totalSpace, ResolveWindow(None, None, day))
  {
    NonCompetingBookingIgnored(bookings, b, spaceType, totalSpace, ResolveWindow(None, None, day));
  }

  /** So an undated whole-space request is admitted even when a later day is
      already booked whole, while the same request dated for that day is refused. */
  lemma UndatedRequestAdmittedDespiteLaterWholeBooking(b: Reservation, spaceType: string, totalSpace: int, day: LocalDay)
    requires ValidDay(day) && totalSpace > 0
    requires b.spaceType == spaceType && b.status == "active" && b.bookWholeSpace
    requires day.nextMidnight <= b.startDate <= b.endDate
    ensures Admits(AvailableIn([b], spaceType, totalSpace, ResolveWindow(None, None, day)), totalSpace, 1, true)
    ensures !Admits(AvailableIn([b], spaceType, totalSpace, ResolveWindow(Some(b.startDate), Some(b.endDate), day)),
                    totalSpace, 1, true)
  {
    UndatedRequestIgnoresLaterBookings([], b, spaceType, totalSpace, day);
    assert [] + [b] == [b];
    assert BookedSeats([b], spaceType, totalSpace, DateRange(b.startDate, b.endDate)) == totalSpace;
  }

  /** A seat request that is admitted stays admitted when fewer seats are asked for. */
  lemma AdmitsFewerSeats(available: int, totalSpace: int, n: int, m: int)
    requires Admits(available, totalSpace, n, false) && m <= n
    ensures Admits(available, totalSpace, m, false)
  {
  }

  /** With a positive capacity and non-negative claims, a whole-space request
      is admitted exactly when no competing booking claims any seat. */
  lemma WholeSpaceAdmittedIffNoCompetingSeats(bookings: seq<Reservation>, spaceType: string, totalSpace: int, w: DateRange, requestedSeats: int)
    requires totalSpace > 0 && NonNegativeClaims(bookings, totalSpace)
    ensures Admits(AvailableIn(bookings, spaceType, totalSpace, w), totalSpace, requestedSeats, true)
        <==> forall i :: 0 <= i < |bookings| && Counts(bookings[i], spaceType, w) ==> SeatClaim(bookings[i], totalSpace) == 0
  {
    BookedSeatsNonNegative(bookings, spaceType, totalSpace, w);
    BookedSeatsZeroIff(bookings, spaceType, totalSpace, w);
  }

  /** Admission keeps the window within capacity: if a request is admitted for
      `w` and a booking claiming what was requested is added for `w`, the seats
      booked in `w` do not exceed the capacity. */
  lemma AdmissionRespectsCapacity(
    bookings: seq<Reservation>, b: Reservation, spaceType: string, totalSpace: int, w: DateRange)
    requires totalSpace > 0
    requires b.bookWholeSpace || b.numberOfSeats >= 1
    requires Admits(AvailableIn(bookings, spaceType, totalSpace, w), totalSpace, b.numberOfSeats, b.bookWholeSpace)
    requires Counts(b, spaceType, w)
    ensures BookedSeats(bookings + [b], spaceType, totalSpace, w) <= totalSpace
  {
    BookedSeatsAppend(bookings, [b], spaceType, totalSpace, w);
  }

  // ---------------------------------------------------------------------------
  // Stats for every space type

  /** The record `getAllSpacesStats` reports for one space type. */
  function StatsFor(bookings: seq<Reservation>, spaceType: string, totalSpace: int, w: DateRange): (s: SpaceStats)
    ensures s.availableSpace == Available(s.totalSpace, s.bookedSpace)
    ensures s.bookedSpace == BookedSeats(bookings, spaceType, totalSpace, w)
    ensures s.totalSpace == totalSpace && s.spaceType == spaceType
  {
    var booked := BookedSeats(bookings, spaceType, totalSpace, w);
    SpaceStats(Available(totalSpace, booked), booked, totalSpace, spaceType)
  }

  /** `getAllSpacesStats`: one record per space type, for the same window. */
  method GetAllSpacesStats(
    bookings: seq<Reservation>, spaceTypes: seq<string>, capacity: string -> int,
    startDate: Option<int>, endDate: Option<int>, day: LocalDay)
    returns (stats: map<string, SpaceStats>)
    requires ValidDay(day)
    ensures stats.Keys == set t | t in spaceTypes
    ensures forall t :: t in stats ==>
              stats[t] == StatsFor(bookings, t, capacity(t), ResolveWindow(startDate, endDate, day))
  {
    var w := ResolveWindow(startDate, endDate, day);
    ResolveWindowIdempotent(w, day);
    stats := map[];
    for i := 0 to |spaceTypes|
      invariant stats.Keys == set t | t in spaceTypes[..i]
      invariant forall t :: t in stats ==> stats[t] == StatsFor(bookings, t, capacity(t), w)
    {
      var spaceType := spaceTypes[i];
      var totalSpace := capacity(spaceType);
      var bookedSpace := GetBookedSeatsForTimeSlot(bookings, spaceType, totalSpace, Some(w.startDate), Some(w.endDate), day);
      var availableSpace := totalSpace - bookedSpace;
      stats := stats[spaceType := SpaceStats(if availableSpace > 0 then availableSpace else 0, bookedSpace, totalSpace, spaceType)];
      assert spaceTypes[..i + 1] == spaceTypes[..i] + [spaceType];
    }
    assert spaceTypes[..|spaceTypes|] == spaceTypes;
  }

  // ---------------------------------------------------------------------------
  // Seats booked today

  /** The filter of `getBookedSeatsForToday`: same space type, start within
      today, status exactly active. */
  predicate CountsToday(b: Reservation, spaceType: string, day: LocalDay) {
    b.spaceType == spaceType && InDay(day, b.startDate) && b.status == "active"
  }

  /** `getBookedSeatsForToday`: the claims of the active bookings of the space
      type that start today. */
  function BookedSeatsForToday(bookings: seq<Reservation>, spaceType: string, totalSpace: int, day: LocalDay): int {
    if bookings == [] then 0
    else
      (if CountsToday(bookings[0], spaceType, day) then SeatClaim(bookings[0], totalSpace) else 0)
      + BookedSeatsForToday(bookings[1..], spaceType, totalSpace, day)
  }

  /** When claims are non-negative and no booking ends before it starts, the
      seats booked today are at most the seats booked in the default window:
      every booking counted today also competes for today's full-day window. */
  lemma {:induction false} TodayWithinDefaultWindow(bookings: seq<Reservation>, spaceType: string, totalSpace: int, day: LocalDay)
    requires ValidDay(day) && NonNegativeClaims(bookings, totalSpace)
    requires forall i :: 0 <= i < |bookings| ==> bookings[i].startDate <= bookings[i].endDate
    ensures BookedSeatsForToday(bookings, spaceType, totalSpace, day)
         <= BookedSeats(bookings, spaceType, totalSpace, DefaultDateRange(day))
  {
    if bookings != [] {
      var w := DefaultDateRange(day);
      assert SeatClaim(bookings[0], totalSpace) >= 0;
      if CountsToday(bookings[0], spaceType, day) {
        assert InRange(w, bookings[0].startDate);
        assert Counts(bookings[0], spaceType, w);
      }
      assert forall i :: 0 <= i < |bookings[1..]| ==> bookings[1..][i] == bookings[i + 1];
      TodayWithinDefaultWindow(bookings[1..], spaceType, totalSpace, day);
    }
  }
}
