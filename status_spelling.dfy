/** How the booking statuses of the schema meet the status filter of the
    space service. The `Booking` type spells its statuses 'active',
    'in progress', 'completed' and 'canceled' (schemas/booking.schema.ts),
    while the booked-seat query accepts 'active' and 'in-progress'
    (services/space-service.ts), so of the schema's spellings only 'active'
    ever claims seats. */
module StatusSpelling {
  import BookingSchema
  import SpaceService

  const SchemaStatuses: seq<string> := [
    BookingSchema.StatusActive, BookingSchema.StatusInProgress,
    BookingSchema.StatusCompleted, BookingSchema.StatusCanceled
  ]

  /** The fields of a stored booking document that the service reads from
      `doc.data()`, without the defaulting `mapBookingData` applies; a missing
      seat count is read as 0. */
  function AsReservation(d: BookingSchema.StoredBooking): (r: SpaceService.Reservation)
    ensures r.status == d.status && r.spaceType == d.spaceType
    ensures r.startDate == d.startDate && r.endDate == d.endDate && r.bookWholeSpace == d.bookWholeSpace
    ensures d.numberOfSeats.Some? ==> r.numberOfSeats == d.numberOfSeats.value
    ensures d.numberOfSeats.None? ==> r.numberOfSeats == 0
  {
    SpaceService.Reservation(d.spaceType, d.status, d.startDate, d.endDate, d.bookWholeSpace,
                             if d.numberOfSeats.Some? then d.numberOfSeats.value else 0)
  }

  /** Of the schema's status spellings, the service's filter accepts only 'active'. */
  lemma OnlyActiveSchemaStatusIsCounted(status: string)
    requires status in SchemaStatuses
    ensures status in SpaceService.CountedStatuses <==> status == BookingSchema.StatusActive
  {
    assert BookingSchema.StatusInProgress[2] != "in-progress"[2];
  }

  /** A booking document whose status is the schema's 'in progress' never adds to the
      seats booked in any window, whatever else it claims. */
  lemma SchemaInProgressNeverCounted(
    bookings: seq<SpaceService.Reservation>, b: BookingSchema.StoredBooking,
    spaceType: string, totalSpace: int, w: SpaceService.DateRange)
    requires b.status == BookingSchema.StatusInProgress
    ensures SpaceService.BookedSeats(bookings + [AsReservation(b)], spaceType, totalSpace, w)
         == SpaceService.BookedSeats(bookings, spaceType, totalSpace, w)
  {
    OnlyActiveSchemaStatusIsCounted(b.status);
    SpaceService.NonCompetingBookingIgnored(bookings, AsReservation(b), spaceType, totalSpace, w);
  }
}
