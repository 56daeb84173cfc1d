/** The repositories: read-only collections of one entity kind each, with a
    lookup by identity that yields the first match, and a Save that stands
    in for persistence and always succeeds. */
module Repositories {
  import opened Identifiers
  import opened Entities
  import opened ScreeningAggregate

  /** The position of the first element that `matches` accepts. */
  function FindIndex<T>(items: seq<T>, matches: T -> bool): (r: Option<nat>)
    ensures r.Some? ==> r.value < |items| && matches(items[r.value])
    ensures r.Some? ==> forall j | 0 <= j < r.value :: !matches(items[j])
    ensures r.None? <==> forall j | 0 <= j < |items| :: !matches(items[j])
  {
    if items == [] then None
    else if matches(items[0]) then Some(0)
    else match FindIndex(items[1..], matches)
      case None => None
      case Some(k) => Some(k + 1)
  }

  datatype Customers = Customers(customers: seq<Customer>) {
    function All(): seq<Customer> { customers }

    /** The first customer with this identity, or NotFound(Customer). */
    function ById(customerId: CustomerId): (r: Result<Customer>)
      ensures r.Failure? <==> forall i | 0 <= i < |customers| :: customers[i].id != customerId
      ensures r.Failure? ==> r.error == NotFound(CustomerEntity)
      ensures r.Success? ==> r.value.id == customerId
      ensures r.Success? ==> exists i | 0 <= i < |customers| ::
                customers[i] == r.value && forall j | 0 <= j < i :: customers[j].id != customerId
    {
      match FindIndex(customers, (c: Customer) => c.id.Equal(customerId))
      case Some(i) => Success(customers[i])
      case None => Failure(NotFound(CustomerEntity))
    }

    function Save(customer: Customer): Outcome { Ok }
  }

  datatype Screenings = Screenings(screenings: seq<Screening>) {
    function All(): seq<Screening> { screenings }

    /** The first screening with this identity, or NotFound(Screening). */
    function ById(screeningId: ScreeningId): (r: Result<Screening>)
      ensures r.Failure? <==> forall i | 0 <= i < |screenings| :: screenings[i].id != screeningId
      ensures r.Failure? ==> r.error == NotFound(ScreeningEntity)
      ensures r.Success? ==> r.value in screenings && r.value.id == screeningId
      ensures r.Success? ==> exists i | 0 <= i < |screenings| ::
                screenings[i] == r.value && forall j | 0 <= j < i :: screenings[j].id != screeningId
    {
      match FindIndex(screenings, (s: Screening) => s.id.Equal(screeningId))
      case Some(i) => Success(screenings[i])
      case None => Failure(NotFound(ScreeningEntity))
    }

    function Save(screening: Screening): Outcome { Ok }
  }

  datatype Seats = Seats(seats: seq<Seat>) {
    function All(): seq<Seat> { seats }

    /** The first seat with this identity, or NotFound(Seat). */
    function ById(seatId: SeatId): (r: Result<Seat>)
      ensures r.Failure? <==> forall i | 0 <= i < |seats| :: seats[i].id != seatId
      ensures r.Failure? ==> r.error == NotFound(SeatEntity)
      ensures r.Success? ==> r.value.id == seatId
      ensures r.Success? ==> exists i | 0 <= i < |seats| ::
                seats[i] == r.value && forall j | 0 <= j < i :: seats[j].id != seatId
    {
      match FindIndex(seats, (s: Seat) => s.id.Equal(seatId))
      case Some(i) => Success(seats[i])
      case None => Failure(NotFound(SeatEntity))
    }

    function Save(seat: Seat): Outcome { Ok }
  }
}
