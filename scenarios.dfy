/** The reservation test fixture (three customers, a three-by-three room,
    A3 held by customer1 and C2 by customer2) and what the handler does
    with commands against it, derived from the contracts alone. */
module Scenarios {
  import opened Identifiers
  import opened Entities
  import opened Reservations
  import opened ScreeningAggregate
  import opened Repositories
  import opened Handlers

  const FixtureCustomers: Customers := Customers([
    Customer(CustomerId("customer1"), "Jay"),
    Customer(CustomerId("customer2"), "Silent Bob"),
    Customer(CustomerId("customer3"), "Dante Hicks")
  ])

  const FixtureLayout: seq<Seat> := [
    NewSeat("A", "1"), NewSeat("A", "2"), NewSeat("A", "3"),
    NewSeat("B", "1"), NewSeat("B", "2"), NewSeat("B", "3"),
    NewSeat("C", "1"), NewSeat("C", "2"), NewSeat("C", "3")
  ]

  const FixtureReserved: seq<ReservedSeat> := [
    ReservedSeat(NewSeatId("A", "3"), CustomerId("customer1")),
    ReservedSeat(NewSeatId("C", "2"), CustomerId("customer2"))
  ]

  /** A handler over the fixture's customers and its one screening. */
  method Fixture() returns (handler: ReservationHandler, screening: Screening)
    ensures fresh(screening)
    ensures handler.customers == FixtureCustomers && handler.screenings == Screenings([screening])
    ensures screening.id == ScreeningId("screening1")
    ensures screening.seats == FixtureLayout && screening.reservedSeats == FixtureReserved
  {
    screening := new Screening("screening1", Movie(MovieId("movie1"), "Clerks"), 0, FixtureLayout, FixtureReserved);
    handler := new ReservationHandler(FixtureCustomers, Screenings([screening]));
  }

  /** The fixture's lookups of customer3 and screening1 succeed. */
  lemma FixtureLookups(screening: Screening)
    ensures FixtureCustomers.ById(CustomerId("customer3")).Success?
    ensures Screenings([screening]).ById(screening.id) == Success(screening)
  {
  }

  /** customer3 reserves the free seats A1 and A2: the command succeeds,
      both are appended and neither is available any more. */
  method ReserveFreeSeats() returns (r: Outcome, reserved: seq<ReservedSeat>, available: seq<Seat>)
    ensures r == Ok
    ensures reserved == FixtureReserved + [
      ReservedSeat(NewSeatId("A", "1"), CustomerId("customer3")),
      ReservedSeat(NewSeatId("A", "2"), CustomerId("customer3"))]
    ensures NewSeat("A", "1") !in available && NewSeat("A", "2") !in available
    ensures NewSeat("B", "1") in available
  {
    var handler, screening := Fixture();
    var c3, a1, a2 := CustomerId("customer3"), NewSeatId("A", "1"), NewSeatId("A", "2");
    var ids := [a1, a2];
    FreeSeatsAccepted();
    FixtureLookups(screening);
    ghost var granted;
    r, granted := handler.Handle(Reserve(ScreeningId("screening1"), c3, ids));
    assert screening.seats == FixtureLayout;
    assert granted == 2;
    assert Grants(ids[..2], c3) == [ReservedSeat(a1, c3), ReservedSeat(a2, c3)];
    reserved := screening.reservedSeats;
    available := screening.AvailableSeats();
    FreeSeatsTaken();
  }

  lemma FreeSeatsTaken()
    ensures var reserved := FixtureReserved + [
              ReservedSeat(NewSeatId("A", "1"), CustomerId("customer3")),
              ReservedSeat(NewSeatId("A", "2"), CustomerId("customer3"))];
      && IsReserved(reserved, NewSeatId("A", "1")) && IsReserved(reserved, NewSeatId("A", "2"))
      && !IsReserved(reserved, NewSeatId("B", "1")) && NewSeat("B", "1") in FixtureLayout
  {
    var reserved := FixtureReserved + [
      ReservedSeat(NewSeatId("A", "1"), CustomerId("customer3")),
      ReservedSeat(NewSeatId("A", "2"), CustomerId("customer3"))];
    assert reserved[2].id.Equal(NewSeatId("A", "1")) && reserved[3].id.Equal(NewSeatId("A", "2"));
    assert FixtureLayout[3] == NewSeat("B", "1");
  }

  lemma FreeSeatsAccepted()
    ensures var c3, ids := CustomerId("customer3"), [NewSeatId("A", "1"), NewSeatId("A", "2")];
      && ReserveOutcome(FixtureLayout, FixtureReserved + Grants(ids[..0], c3), ids[0]) == Ok
      && ReserveOutcome(FixtureLayout, FixtureReserved + Grants(ids[..1], c3), ids[1]) == Ok
  {
    var c3, ids := CustomerId("customer3"), [NewSeatId("A", "1"), NewSeatId("A", "2")];
    assert FixtureLayout[0].id.Equal(ids[0]) && FixtureLayout[1].id.Equal(ids[1]);
    assert Grants(ids[..0], c3) == [];
    assert Grants(ids[..1], c3) == [ReservedSeat(ids[0], c3)];
  }

  /** customer3 asks for A3, which customer1 holds: refused as already
      reserved, nothing appended. */
  method ReserveHeldSeat() returns (r: Outcome, reserved: seq<ReservedSeat>)
    ensures r == Failed(SeatAlreadyReserved)
    ensures reserved == FixtureReserved
  {
    var handler, screening := Fixture();
    var c3, ids := CustomerId("customer3"), [NewSeatId("A", "3")];
    FixtureLookups(screening);
    HeldSeatRefused(ids[..0], c3);
    assert Grants(ids[..0], c3) == [];
    ghost var granted;
    r, granted := handler.Handle(Reserve(ScreeningId("screening1"), c3, ids));
    assert screening.seats == FixtureLayout;
    assert granted == 0;
    reserved := screening.reservedSeats;
  }

  /** A3 is refused as already reserved once `before` is appended to the
      fixture's reservations. */
  lemma HeldSeatRefused(before: seq<SeatId>, c: CustomerId)
    ensures ReserveOutcome(FixtureLayout, FixtureReserved + Grants(before, c), NewSeatId("A", "3")) == Failed(SeatAlreadyReserved)
  {
    assert (FixtureReserved + Grants(before, c))[0].id.Equal(NewSeatId("A", "3"));
  }

  /** customer3 asks for D1, which is not in the room: refused as invalid. */
  method ReserveUnknownSeat() returns (r: Outcome, reserved: seq<ReservedSeat>)
    ensures r == Failed(InvalidSeat)
    ensures reserved == FixtureReserved
  {
    var handler, screening := Fixture();
    var c3, ids := CustomerId("customer3"), [NewSeatId("D", "1")];
    FixtureLookups(screening);
    assert Grants(ids[..0], c3) == [];
    assert ReserveOutcome(FixtureLayout, FixtureReserved + Grants(ids[..0], c3), ids[0]) == Failed(InvalidSeat);
    ghost var granted;
    r, granted := handler.Handle(Reserve(ScreeningId("screening1"), c3, ids));
    assert screening.seats == FixtureLayout;
    assert granted == 0;
    reserved := screening.reservedSeats;
  }

  /** customer3 asks for B1 and then A3: B1 is reserved, A3 is refused, and
      B1 stays reserved because nothing is rolled back. */
  method ReservePartly() returns (r: Outcome, reserved: seq<ReservedSeat>)
    ensures r == Failed(SeatAlreadyReserved)
    ensures reserved == FixtureReserved + [ReservedSeat(NewSeatId("B", "1"), CustomerId("customer3"))]
  {
    var handler, screening := Fixture();
    var c3, ids := CustomerId("customer3"), [NewSeatId("B", "1"), NewSeatId("A", "3")];
    FixtureLookups(screening);
    assert FixtureLayout[3].id.Equal(ids[0]);
    assert Grants(ids[..0], c3) == [];
    assert Grants(ids[..1], c3) == [ReservedSeat(ids[0], c3)];
    assert ReserveOutcome(FixtureLayout, FixtureReserved + Grants(ids[..0], c3), ids[0]) == Ok;
    HeldSeatRefused(ids[..1], c3);
    ghost var granted;
    r, granted := handler.Handle(Reserve(ScreeningId("screening1"), c3, ids));
    assert screening.seats == FixtureLayout;
    assert granted == 1;
    reserved := screening.reservedSeats;
  }

  /** An unknown customer is reported before the screening is looked up,
      even when the screening is unknown too; nothing changes. */
  method ReserveAsUnknownCustomer() returns (r: Outcome, reserved: seq<ReservedSeat>)
    ensures r == Failed(NotFound(CustomerEntity))
    ensures reserved == FixtureReserved
  {
    var handler, screening := Fixture();
    var command := Reserve(ScreeningId("screening9"), CustomerId("customer9"), [NewSeatId("A", "1")]);
    assert forall i | 0 <= i < 3 :: FixtureCustomers.customers[i].id.Value()[8] != '9';
    ghost var granted;
    r, granted := handler.Handle(command);
    reserved := screening.reservedSeats;
  }

  /** A known customer and an unknown screening: NotFound(Screening). */
  method ReserveAtUnknownScreening() returns (r: Outcome, reserved: seq<ReservedSeat>)
    ensures r == Failed(NotFound(ScreeningEntity))
    ensures reserved == FixtureReserved
  {
    var handler, screening := Fixture();
    var command := Reserve(ScreeningId("screening9"), CustomerId("customer3"), [NewSeatId("A", "1")]);
    FixtureLookups(screening);
    assert screening.id.Value()[9] != '9';
    ghost var granted;
    r, granted := handler.Handle(command);
    reserved := screening.reservedSeats;
  }
}
