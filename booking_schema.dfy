/** Validation of a booking request and the mapping of a stored booking
    document to a `Booking` (schemas/booking.schema.ts). Dates are
    milliseconds since the epoch. */
module BookingSchema {
  import opened JsValues

  /** The fields of a booking request that validation looks at or that the
      caller supplies (`CreateBookingInput`). */
  datatype BookingInput = BookingInput(
    userId: string,
    spaceType: string,
    duration: int,
    numberOfSeats: Option<int>,
    startDate: int,
    startTime: string,
    endDate: int,
    endTime: string,
    amount: int,
    location: string,
    bookWholeSpace: bool)

  /** The data of a booking document as stored. */
  datatype StoredBooking = StoredBooking(
    userId: string,
    spaceType: string,
    duration: int,
    numberOfSeats: Option<int>,
    startDate: int,
    startTime: string,
    endDate: int,
    endTime: string,
    amount: int,
    status: string,
    location: string,
    bookWholeSpace: bool)

  /** A `Booking` as `mapBookingData` builds it: the seat count is always set. */
  datatype Booking = Booking(
    bookingId: string,
    userId: string,
    spaceType: string,
    duration: int,
    numberOfSeats: int,
    startDate: int,
    startTime: string,
    endDate: int,
    endTime: string,
    amount: int,
    status: string,
    location: string,
    bookWholeSpace: bool)

  /** The spellings of the status union of the `Booking` type. */
  const StatusActive := "active"
  const StatusInProgress := "in progress"
  const StatusCompleted := "completed"
  const StatusCanceled := "canceled"

  const SpaceTypes: seq<string> := ["Co-working", "Conference"]

  /** The messages of the checks, in the order they are made. */
  const InvalidSpaceType := "Invalid space type"
  const DurationNotPositive := "Duration must be greater than 0"
  const AmountNotPositive := "Amount must be greater than 0"
  const EndNotAfterStart := "End date must be after start date"
  const TimeRequired := "Start and end time are required"
  const LocationRequired := "Location is required"
  const SeatsRequired := "Number of seats must be greater than 0 for Co-working space"
  const ErrorMessages: seq<string> := [
    InvalidSpaceType, DurationNotPositive, AmountNotPositive, EndNotAfterStart,
    TimeRequired, LocationRequired, SeatsRequired
  ]

  /** Whether check `k` (0-based, in source order) rejects `d`. */
  predicate Fails(d: BookingInput, k: nat)
    requires k < |ErrorMessages|
  {
    match k
    case 0 => d.spaceType !in SpaceTypes
    case 1 => d.duration <= 0
    case 2 => d.amount <= 0
    case 3 => d.endDate <= d.startDate
    case 4 => d.startTime == "" || d.endTime == ""
    case 5 => AllWhitespace(d.location)
    case _ => d.spaceType == "Co-working" && !d.bookWholeSpace
              && (d.numberOfSeats.None? || d.numberOfSeats.value <= 0)
  }

  /** A request that no check rejects. */
  predicate Acceptable(d: BookingInput) {
    forall k :: 0 <= k < |ErrorMessages| ==> !Fails(d, k)
  }

  lemma AcceptableUnrolled(d: BookingInput)
    ensures Acceptable(d) <==> (!Fails(d, 0) && !Fails(d, 1) && !Fails(d, 2) && !Fails(d, 3)
                                && !Fails(d, 4) && !Fails(d, 5) && !Fails(d, 6))
  {
    if !Fails(d, 0) && !Fails(d, 1) && !Fails(d, 2) && !Fails(d, 3) && !Fails(d, 4) && !Fails(d, 5) && !Fails(d, 6) {
      forall k | 0 <= k < |ErrorMessages| ensures !Fails(d, k) {
        assert k in {0, 1, 2, 3, 4, 5, 6};
      }
    }
  }

  /** `validateBookingData`: `None` (null) when every check passes, else the
      message of a failing check. */
  function ValidateBookingData(d: BookingInput): Option<string> {
    if d.spaceType != "Co-working" && d.spaceType != "Conference" then
      Some(InvalidSpaceType)
    else if d.duration <= 0 then
      Some(DurationNotPositive)
    else if d.amount <= 0 then
      Some(AmountNotPositive)
    else if d.endDate <= d.startDate then
      Some(EndNotAfterStart)
    else if d.startTime == "" || d.endTime == "" then
      Some(TimeRequired)
    else if d.location == "" || Trim(d.location) == "" then
      Some(LocationRequired)
    else if d.spaceType == "Co-working" && !d.bookWholeSpace
            && (d.numberOfSeats.None? || d.numberOfSeats.value <= 0) then
      Some(SeatsRequired)
    else
      None
  }

  /** Validation returns `None` (null) exactly when no check fails. */
  lemma ValidateNoneIffAcceptable(d: BookingInput)
    ensures ValidateBookingData(d).None? <==> Acceptable(d)
  {
    ValidateByChecks(d);
    AcceptableUnrolled(d);
  }

  /** The first failing check wins: the result is the message of check `k`
      exactly when check `k` fails and every earlier check passes. */
  lemma ValidateReportsFirstFailure(d: BookingInput, k: nat)
    requires k < |ErrorMessages|
    ensures ValidateBookingData(d) == Some(ErrorMessages[k])
        <==> Fails(d, k) && forall j :: 0 <= j < k ==> !Fails(d, j)
  {
    // The lengths and one first character show the seven messages are
    // pairwise distinct; the proof then splits on k.
    var m := ErrorMessages;
    assert |m[0]| == 18 && |m[1]| == 31 && |m[2]| == 29 && |m[3]| == 33
        && |m[4]| == 31 && |m[5]| == 20 && |m[6]| == 59;
    assert m[1][0] != m[4][0];
    EarlierChecksUnrolled(d, k);
    ValidateByChecks(d);
    if k == 0 {
    } else if k == 1 {
    } else if k == 2 {
    } else if k == 3 {
    } else if k == 4 {
    } else if k == 5 {
    } else {
    }
  }

  /** The guard chain, read as the list of checks in order. */
  lemma ValidateByChecks(d: BookingInput)
    ensures ValidateBookingData(d)
         == if Fails(d, 0) then Some(ErrorMessages[0])
            else if Fails(d, 1) then Some(ErrorMessages[1])
            else if Fails(d, 2) then Some(ErrorMessages[2])
            else if Fails(d, 3) then Some(ErrorMessages[3])
            else if Fails(d, 4) then Some(ErrorMessages[4])
            else if Fails(d, 5) then Some(ErrorMessages[5])
            else if Fails(d, 6) then Some(ErrorMessages[6])
            else None
  {
    assert Fails(d, 0) <==> d.spaceType != "Co-working" && d.spaceType != "Conference";
    assert Fails(d, 1) <==> d.duration <= 0;
    assert Fails(d, 2) <==> d.amount <= 0;
    assert Fails(d, 3) <==> d.endDate <= d.startDate;
    assert Fails(d, 4) <==> d.startTime == "" || d.endTime == "";
    assert Fails(d, 5) <==> d.location == "" || Trim(d.location) == "" by {
      TrimEmptyIffAllWhitespace(d.location);
    }
    assert Fails(d, 6) <==> && d.spaceType == "Co-working" && !d.bookWholeSpace
                            && (d.numberOfSeats.None? || d.numberOfSeats.value <= 0);
  }

  lemma EarlierChecksUnrolled(d: BookingInput, k: nat)
    requires k < |ErrorMessages|
    ensures (forall j :: 0 <= j < k ==> !Fails(d, j))
        <==> (&& (k > 0 ==> !Fails(d, 0)) && (k > 1 ==> !Fails(d, 1)) && (k > 2 ==> !Fails(d, 2))
              && (k > 3 ==> !Fails(d, 3)) && (k > 4 ==> !Fails(d, 4)) && (k > 5 ==> !Fails(d, 5)))
  {
    if (&& (k > 0 ==> !Fails(d, 0)) && (k > 1 ==> !Fails(d, 1)) && (k > 2 ==> !Fails(d, 2))
        && (k > 3 ==> !Fails(d, 3)) && (k > 4 ==> !Fails(d, 4)) && (k > 5 ==> !Fails(d, 5))) {
      forall j | 0 <= j < k ensures !Fails(d, j) {
        assert j in {0, 1, 2, 3, 4, 5};
      }
    }
  }

  /** Duration is checked before amount: a valid space type with both
      non-positive reports the duration. */
  lemma DurationCheckedBeforeAmount(d: BookingInput)
    requires d.spaceType in SpaceTypes && d.duration <= 0 && d.amount <= 0
    ensures ValidateBookingData(d) == Some(DurationNotPositive)
  {
  }

  /** Equal start and end instants are rejected, by the date check or by
      one of the checks before it. */
  lemma EqualInstantsRejected(d: BookingInput)
    requires d.endDate == d.startDate
    ensures ValidateBookingData(d).Some?
    ensures ValidateBookingData(d).value in ErrorMessages[..4]
  {
    ValidateByChecks(d);
  }

  /** The seat count matters only to a Co-working booking of individual
      seats: a Conference or whole-space request gets the same verdict
      whatever its seat count. */
  lemma SeatCountIgnoredUnlessCoworkingSeats(d: BookingInput, seats: Option<int>)
    requires d.spaceType != "Co-working" || d.bookWholeSpace
    ensures ValidateBookingData(d.(numberOfSeats := seats)) == ValidateBookingData(d)
  {
  }

  /** `data.numberOfSeats || 1`: a missing or zero count becomes one. */
  function SeatsOrDefault(n: Option<int>): (r: int)
    ensures r != 0
    ensures n.None? || n.value == 0 ==> r == 1
    ensures n.Some? && n.value != 0 ==> r == n.value
  {
    if n.None? || n.value == 0 then 1 else n.value
  }

  /** `mapBookingData`: the document id becomes the booking id, the seat count
      is defaulted, every other field is copied as stored. */
  function MapBookingData(id: string, data: StoredBooking): (b: Booking)
    ensures b.bookingId == id && b.status == data.status
    ensures b.numberOfSeats == SeatsOrDefault(data.numberOfSeats)
    ensures ToStored(b) == data.(numberOfSeats := Some(b.numberOfSeats))
  {
    Booking(id, data.userId, data.spaceType, data.duration, SeatsOrDefault(data.numberOfSeats),
            data.startDate, data.startTime, data.endDate, data.endTime, data.amount,
            data.status, data.location, data.bookWholeSpace)
  }

  /** The document data a `Booking` is stored as. */
  function ToStored(b: Booking): StoredBooking {
    StoredBooking(b.userId, b.spaceType, b.duration, Some(b.numberOfSeats),
                  b.startDate, b.startTime, b.endDate, b.endTime, b.amount,
                  b.status, b.location, b.bookWholeSpace)
  }

  /** Storing a booking with a non-zero seat count and mapping it back under
      its id gives the same booking; mapping a document whose seat count is
      set and non-zero and storing the result gives the same document. */
  lemma MapRoundTrip(b: Booking, id: string, data: StoredBooking)
    ensures b.numberOfSeats != 0 ==> MapBookingData(b.bookingId, ToStored(b)) == b
    ensures data.numberOfSeats.Some? && data.numberOfSeats.value != 0 ==>
              ToStored(MapBookingData(id, data)) == data
  {
  }
}
