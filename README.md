# Seat reservation for one screening, modelled in Dafny

This project models the domain core of a small cinema-booking example
(`src/domain.ts`). A screening has a seat layout and a growing list of
reservations. A customer reserves seats by sending a `Reserve` command
to the `ReservationHandler`.

- **Identifiers** (`identifiers.dfy`): `CustomerId`, `ScreeningId`,
  `MovieId` and `SeatId` each wrap one string and compare by exact string
  equality. A seat identity is its row label followed by its column label.
  Nothing checks that the pair is a seat of any room.
- **Entities** (`entities.dfy`): `Customer`, `Movie`, `Seat` and
  `ReservedSeat` are plain records. The thrown errors become the values
  `SeatAlreadyReserved`, `InvalidSeat` and `NotFound(kind)`. An operation
  that returns the string `"Ok"` or throws returns an `Outcome` (`Ok` or
  `Failed(error)`). A lookup that returns an entity or throws returns a
  `Result`.
- **Reservation logic** (`reservations.dfy`): these are pure functions over
  the layout and the reservation list. They cover when a seat is reserved
  or in the layout, what `Reserve` reports, and which seats are available.
  The module also defines the two invariants. I1: every reserved seat is in
  the layout. I2: no seat is reserved twice. The lemmas about them are here.
- **Screening aggregate** (`screening.dfy`): the class `Screening` has
  `seats` and `reservedSeats` as mutable fields. Its id, movie and play
  time are constants. `Reserve` is the only mutator. It refuses an
  already reserved seat first, then a seat outside the layout. Otherwise
  it appends one reservation. `AvailableSeats` is the filtered layout.
- **Repositories** (`repositories.dfy`): `Customers`, `Screenings` and
  `Seats` hold read-only collections. `ById` returns the first element
  with the given identity, or fails with `NotFound` of that entity kind.
  `Save` is a stub that always returns `Ok`.
- **Handler** (`handler.dfy`): `Handle` looks up the customer, then the
  screening. It then reserves the requested seats in command order and
  stops at the first refusal. Seats reserved before the refusal stay
  reserved: nothing is rolled back. If every seat succeeds, it returns the
  result of `Save`. The ghost out-parameter `granted` counts the seats
  reserved before the stop.
- **Scenarios** (`scenarios.dfy`): these use the test fixture: customers
  1 to 3, a three-by-three room (A–C × 1–3), A3 held by customer1 and C2
  held by customer2. Each scenario's outcome is derived from the contracts
  alone.

## Model

| member | source | states |
|---|---|---|
| `Identifiers.CustomerId.Equal` | src/domain.ts:13-15 | two customer ids are Equal exactly when they are the same identity (same string) |
| `Identifiers.ScreeningId.Equal` | src/domain.ts:29-31 | two screening ids are Equal exactly when they are the same identity |
| `Identifiers.MovieId.Equal` | src/domain.ts:45-47 | two movie ids are Equal exactly when they are the same identity |
| `Identifiers.SeatId.Equal` | src/domain.ts:62-64 | two seat ids are Equal exactly when they are the same identity |
| `Identifiers.NewSeatId` | src/domain.ts:53-56 | a seat id's value is the row label followed by the column label, with no validation |
| `Identifiers.SeatIdIgnoresLabelBoundary` | src/domain.ts:53-56 | the boundary between the labels is lost: moving a character from the column to the row gives the same seat (`("A","11")` equals `("A1","1")`) |
| `Reservations.IsReservedAfterAppend` | src/domain.ts:169-175 | after appending a reservation, a seat is reserved iff it was reserved before or is the appended seat |
| `Reservations.ReserveKeepsConsistent` | src/domain.ts:168-177 | a reservation that Reserve accepts keeps I1 (reserved seats are in the layout) and I2 (no seat is reserved twice) |
| `Reservations.ReservedSeatIsRefused` | src/domain.ts:169-175 | once a seat has been reserved, reserving it again fails with SeatAlreadyReserved |
| `Reservations.AvailableMembership` | src/domain.ts:161-166 | a seat is available iff it is in the layout and not reserved, so available and reserved seats are disjoint and together cover the layout |
| `Reservations.AvailableConcat` | src/domain.ts:161-166 | availability filters each part of the layout on its own, so the layout order is kept |
| `Reservations.AvailableWithoutReservations` | src/domain.ts:161-166 | with no reservations the whole layout is available, in order |
| `Reservations.AvailableAfterReserve` | src/domain.ts:161-175 | appending a reservation removes exactly that seat from the available seats, keeps the others in order, and leaves no available seat with that id |
| `Reservations.AcceptedInOrder` | src/domain.ts:280-282 | seats the handler's loop accepted one after another were in the layout, were free beforehand and are pairwise distinct, and appending them keeps I1 and I2 |
| `Reservations.GrantedSeatsUnavailable` | src/domain.ts:280-282 | no seat granted to a customer is available afterwards |
| `ScreeningAggregate.Screening.constructor` | src/domain.ts:141-147 | stores the id, movie, play time, layout and reservations as given, without checking I1 or I2 |
| `ScreeningAggregate.Screening.AvailableSeats` | src/domain.ts:161-166 | the result holds exactly the layout's seats that no reservation holds |
| `ScreeningAggregate.Screening.Reserve` | src/domain.ts:168-177 | an already reserved seat fails with SeatAlreadyReserved, and this check comes before the layout check; otherwise a seat outside the layout fails with InvalidSeat; a failure leaves the reservations unchanged, so repeating it fails the same way; otherwise it returns Ok and appends exactly `ReservedSeat(seatId, customerId)`; the layout never changes; I1 and I2 are preserved; the seat is no longer available |
| `Repositories.FindIndex` | src/domain.ts:193 | returns the position of the first element that matches, and None iff no element matches |
| `Repositories.Screenings.ById` | src/domain.ts:192-198 | returns the first screening with the id and fails with NotFound(Screening) iff there is none |
| `Repositories.Customers.ById` | src/domain.ts:216-222 | returns the first customer with the id and fails with NotFound(Customer) iff there is none |
| `Repositories.Seats.ById` | src/domain.ts:240-246 | returns the first seat with the id and fails with NotFound(Seat) iff there is none |
| `Handlers.ReservationHandler.constructor` | src/domain.ts:271-274 | the handler keeps the two repositories it is given |
| `Handlers.ReservationHandler.Handle` | src/domain.ts:277-284 | a missing customer fails with NotFound(Customer) whatever the screening is; otherwise a missing screening fails with NotFound(Screening); neither failure changes any screening. Otherwise the screening's reservations become the old ones plus the first `granted` requested seats, in command order, each accepted against the state its predecessors left. The result is Ok iff every seat was reserved; otherwise it is the refusal of seat number `granted`, and later seats are not attempted or rolled back. No layout and no other screening changes, and I1 and I2 are preserved |
| `Scenarios.Fixture` | test/domain/reservation_test.test.ts:19-45 | builds a fresh handler over the fixture's customers and its single screening |
| `Scenarios.ReserveFreeSeats` | test/domain/reservation_test.test.ts:48-57 | customer3 reserving A1 and A2 gets Ok, both are appended in order, and neither is available afterwards while B1 still is |
| `Scenarios.ReserveHeldSeat` | test/domain/reservation_test.test.ts:59-66 | customer3 asking for A3 gets SeatAlreadyReserved and nothing is appended |
| `Scenarios.ReserveUnknownSeat` | src/domain.ts:172-174 | customer3 asking for D1, which is outside the room, gets InvalidSeat and nothing is appended |
| `Scenarios.ReservePartly` | src/domain.ts:280-282 | customer3 asking for B1 then A3 gets SeatAlreadyReserved, and B1 stays reserved |
| `Scenarios.ReserveAsUnknownCustomer` | src/domain.ts:278-279 | an unknown customer gets NotFound(Customer) even when the screening is unknown too, and nothing changes |
| `Scenarios.ReserveAtUnknownScreening` | src/domain.ts:279 | a known customer at an unknown screening gets NotFound(Screening), and nothing changes |

## Left out

- Shared arrays: the `Screening` constructor keeps the caller's arrays by reference (`src/domain.ts:145-146`). The test fixture's reservation array is shared between the fixture and the screening. Here the layout and the reservations are sequence values that the screening owns, so changes are not visible through another reference.
- Test order: the test cases share one fixture, which the first case changes. Each scenario here starts from a fresh fixture.
- `Save` (`src/domain.ts:200-202`, `224-226`, `248-250`): modelled as the stub it is, always `Ok`, with no persistence.
- `playTime` is an opaque integer timestamp. `Movie.Title`, `Customer.Name`, `MovieTitle()`, `PlayTime()` and the `Id()` getters have no logic. They are kept as plain fields.
- Error messages: the thrown strings become error kinds. `NotFound` records the entity kind but not the missing id, as the thrown errors do.
- Concurrency: the core is single-threaded and has no locking, so concurrent `Reserve` calls are not modelled.
- Room-layout validation of `SeatId` is not implemented in the source and is not added here.
- The "Seat not valid" test (`test/domain/reservation_test.test.ts:68-75`) uses A3, a seat that is already reserved. It also calls `Handle` outside the throw matcher. It is not evidence for the invalid-seat path, which `Scenarios.ReserveUnknownSeat` covers instead.
- The `Reserve` command class and the `All()` accessors only store and return their fields. They are a datatype and plain functions here.
