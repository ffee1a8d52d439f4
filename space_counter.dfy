/** The per-space-type counter document of the 'Total Space' collection,
    holding 'Available Space', 'Booked Space' and 'Total Space', and the
    service operations that create, read and release it
    (services/space-service.ts). */
module SpaceCounter {
  import opened JsValues
  import SpaceService

  /** The three numeric fields of a counter document. */
  datatype Counter = Counter(available: int, booked: int, total: int)

  /** A counter that agrees with itself: nothing negative, nothing above the
      total, and available plus booked makes up the total. */
  predicate Balanced(c: Counter) {
    0 <= c.available <= c.total && 0 <= c.booked && c.available + c.booked == c.total
  }

  /** The fields `initializeSpaceStats` writes: all of the capacity available. */
  function Initial(capacity: int): (c: Counter)
    ensures c.booked == 0 && c.available == c.total == capacity
    ensures capacity >= 0 ==> Balanced(c)
  {
    Counter(capacity, 0, capacity)
  }

  /** A release gives back the whole total for a whole-space booking, the seat count otherwise. */
  function SeatsToRelease(c: Counter, seats: int, wasWholeSpace: bool): int {
    if wasWholeSpace then c.total else seats
  }

  /** The transaction body of `releaseSpace`; `None` when it throws. */
  function Release(c: Counter, seats: int, wasWholeSpace: bool): (r: Option<Counter>)
    ensures r.None? <==> (|| c.booked < SeatsToRelease(c, seats, wasWholeSpace)
                          || c.available + SeatsToRelease(c, seats, wasWholeSpace) > c.total)
    ensures r.Some? ==> r.value.available == c.available + SeatsToRelease(c, seats, wasWholeSpace)
    ensures r.Some? ==> r.value.booked == c.booked - SeatsToRelease(c, seats, wasWholeSpace)
    ensures r.Some? ==> r.value.total == c.total
    ensures r.Some? ==> r.value.available + r.value.booked == c.available + c.booked
    ensures r.Some? ==> 0 <= r.value.booked && r.value.available <= r.value.total
    ensures r.Some? && Balanced(c) && SeatsToRelease(c, seats, wasWholeSpace) >= 0 ==> Balanced(r.value)
  {
    var seatsToRelease := SeatsToRelease(c, seats, wasWholeSpace);
    if c.booked < seatsToRelease then None
    else if c.available + seatsToRelease > c.total then None
    else Some(Counter(c.available + seatsToRelease, c.booked - seatsToRelease, c.total))
  }

  /** Nothing in the service ever adds to 'Booked Space', so on a freshly
      initialised counter every release of at least one seat, and every
      whole-space release of a positive capacity, fails. */
  lemma FreshCounterRefusesRelease(capacity: int, seats: int, wasWholeSpace: bool)
    requires if wasWholeSpace then capacity > 0 else seats > 0
    ensures Release(Initial(capacity), seats, wasWholeSpace).None?
  {
  }

  /** What `getSpaceStats` reports for a stored counter: a falsy (zero)
      'Available Space' or 'Total Space' reads back as the configured
      capacity, 'Booked Space' as stored. */
  function ReadStats(c: Counter, defaultTotal: int, spaceType: string): (s: SpaceService.SpaceStats)
    ensures s.spaceType == spaceType && s.bookedSpace == c.booked
    ensures c.available != 0 ==> s.availableSpace == c.available
    ensures c.available == 0 ==> s.availableSpace == defaultTotal
    ensures s.totalSpace == (if c.total != 0 then c.total else defaultTotal)
  {
    SpaceService.SpaceStats(
      if c.available != 0 then c.available else defaultTotal,
      c.booked,
      if c.total != 0 then c.total else defaultTotal,
      spaceType)
  }

  /** A full counter (nothing available) reads back as entirely free. */
  lemma FullCounterReadsAsFree(total: int, defaultTotal: int, spaceType: string)
    requires total > 0
    ensures ReadStats(Counter(0, total, total), defaultTotal, spaceType).availableSpace == defaultTotal
  {
  }

  /** The counter document of one space type; `present` says whether it exists. */
  class CounterDoc {
    var present: bool
    var available: int
    var booked: int
    var total: int
    var spaceType: string

    function State(): Counter
      reads this
    {
      Counter(available, booked, total)
    }

    /** A space type whose document has not been written yet. */
    constructor Missing()
      ensures !present
    {
      present := false;
      available, booked, total := 0, 0, 0;
      spaceType := "";
    }

    /** A stored document. */
    constructor Stored(c: Counter, spaceType: string)
      ensures present && State() == c && this.spaceType == spaceType
    {
      present := true;
      available, booked, total := c.available, c.booked, c.total;
      this.spaceType := spaceType;
    }

    /** `initializeSpaceStats`: a merging write of the capacity as available
        and total, no seats booked. */
    method InitializeSpaceStats(spaceType: string, capacity: int)
      modifies this
      ensures present && State() == Initial(capacity) && this.spaceType == spaceType
    {
      present := true;
      available := capacity;
      booked := 0;
      total := capacity;
      this.spaceType := spaceType;
    }

    /** `getSpaceStats`: a missing document is initialised and the defaults
        returned; a stored one is read with falsy fields defaulted. */
    method GetSpaceStats(spaceType: string, defaultTotal: int) returns (s: SpaceService.SpaceStats)
      modifies this
      ensures !old(present) ==> s == SpaceService.SpaceStats(defaultTotal, 0, defaultTotal, spaceType)
      ensures !old(present) ==> present && State() == Initial(defaultTotal) && this.spaceType == spaceType
      ensures old(present) ==> s == ReadStats(old(State()), defaultTotal, spaceType) && unchanged(this)
    {
      if !present {
        InitializeSpaceStats(spaceType, defaultTotal);
        s := SpaceService.SpaceStats(defaultTotal, 0, defaultTotal, spaceType);
        return;
      }
      s := SpaceService.SpaceStats(
        if available != 0 then available else defaultTotal,
        booked,
        if total != 0 then total else defaultTotal,
        spaceType);
    }

    /** `releaseSpace`: fails on a missing document or when `Release` throws,
        leaving the document as it was; otherwise moves the released seats
        from booked to available. */
    method ReleaseSpace(seats: int, wasWholeSpace: bool) returns (ok: bool)
      modifies this
      ensures ok <==> old(present) && Release(old(State()), seats, wasWholeSpace).Some?
      ensures ok ==> State() == Release(old(State()), seats, wasWholeSpace).value
      ensures !ok ==> State() == old(State())
      ensures present == old(present) && spaceType == old(spaceType)
    {
      if !present {
        return false;
      }
      var seatsToRelease := if wasWholeSpace then total else seats;
      if booked < seatsToRelease {
        return false;
      }
      if available + seatsToRelease > total {
        return false;
      }
      available, booked := available + seatsToRelease, booked - seatsToRelease;
      ok := true;
    }
  }
}
