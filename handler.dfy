/** The Reserve command and its handler: look up the customer, then the
    screening, reserve the requested seats one by one in command order,
    and save the screening. A failing seat ends the command; the seats
    reserved before it stay reserved. */
module Handlers {
  import opened Identifiers
  import opened Entities
  import opened Reservations
  import opened ScreeningAggregate
  import opened Repositories

  /** A customer's request for some seats of one screening. */
  datatype Reserve = Reserve(screeningId: ScreeningId, customerId: CustomerId, seats: seq<SeatId>)

  class ReservationHandler {
    const customers: Customers
    const screenings: Screenings

    constructor (customers: Customers, screenings: Screenings)
      ensures this.customers == customers && this.screenings == screenings
    {
      this.customers := customers;
      this.screenings := screenings;
    }

    /** Handles one Reserve command. `granted` counts the seats reserved
        before the first refused one (all of them when the result is Ok). */
    method Handle(command: Reserve) returns (r: Outcome, ghost granted: nat)
      modifies screenings.All()
      ensures customers.ById(command.customerId).Failure? ==> r == Failed(NotFound(CustomerEntity))
      ensures customers.ById(command.customerId).Success? && screenings.ById(command.screeningId).Failure? ==>
                r == Failed(NotFound(ScreeningEntity))
      ensures customers.ById(command.customerId).Failure? || screenings.ById(command.screeningId).Failure? ==>
                forall s | s in screenings.All() :: s.reservedSeats == old(s.reservedSeats)
      ensures forall s | s in screenings.All() :: s.seats == old(s.seats)
      ensures customers.ById(command.customerId).Success? && screenings.ById(command.screeningId).Success? ==>
                var s := screenings.ById(command.screeningId).value;
                var ids := command.seats;
                && granted <= |ids|
                && s.reservedSeats == old(s.reservedSeats) + Grants(ids[..granted], command.customerId)
                && (forall j | 0 <= j < granted ::
                      ReserveOutcome(s.seats, old(s.reservedSeats) + Grants(ids[..j], command.customerId), ids[j]) == Ok)
                && (r == Ok <==> granted == |ids|)
                && (granted < |ids| ==> r == ReserveOutcome(s.seats, s.reservedSeats, ids[granted]))
                && (old(s.Valid()) ==> s.Valid())
                && (forall t | t in screenings.All() && t != s :: t.reservedSeats == old(t.reservedSeats))
    {
      granted := 0;
      var customer := customers.ById(command.customerId);
      if customer.Failure? {
        return Failed(customer.error), 0;
      }
      var found := screenings.ById(command.screeningId);
      if found.Failure? {
        return Failed(found.error), 0;
      }
      var screening := found.value;
      var customerId := customer.value.id;
      var ids := command.seats;
      ghost var layout := screening.seats;
      ghost var start := screening.reservedSeats;
      var i := 0;
      while i < |ids|
        invariant 0 <= i <= |ids|
        invariant screening.seats == layout
        invariant screening.reservedSeats == start + Grants(ids[..i], customerId)
        invariant forall j {:trigger ReserveOutcome(layout, start + Grants(ids[..j], customerId), ids[j])} | 0 <= j < i :: ReserveOutcome(layout, start + Grants(ids[..j], customerId), ids[j]) == Ok
        invariant forall s | s in screenings.All() :: s.seats == old(s.seats)
        invariant forall t | t in screenings.All() && t != screening :: t.reservedSeats == old(t.reservedSeats)
        invariant old(screening.Valid()) ==> screening.Valid()
      {
        var outcome := screening.Reserve(ids[i], customerId);
        if outcome.Failed? {
          return outcome, i;
        }
        assert ReserveOutcome(layout, start + Grants(ids[..i], customerId), ids[i]) == Ok;
        assert Grants(ids[..i + 1], customerId) == Grants(ids[..i], customerId) + [ReservedSeat(ids[i], customerId)];
        i := i + 1;
      }
      granted := i;
      assert ids[..i] == ids;
      r := screenings.Save(screening);
    }
  }
}
