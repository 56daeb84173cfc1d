/** The Screening aggregate: one showing of a movie, its seat layout and
    the reservations made so far. Reserve is the only operation that
    changes it, and it only ever appends one reservation. */
module ScreeningAggregate {
  import opened Identifiers
  import opened Entities
  import opened Reservations

  class Screening {
    const id: ScreeningId
    const movie: Movie
    /** The play time, an opaque timestamp the core never inspects. */
    const playTime: int
    var seats: seq<Seat>
    var reservedSeats: seq<ReservedSeat>

    /** I1 and I2. The constructor does not establish them: it stores
        whatever layout and reservations it is given. */
    ghost predicate Valid()
      reads this
    {
      Consistent(seats, reservedSeats)
    }

    constructor (id: string, movie: Movie, playTime: int, allSeats: seq<Seat>, reservedSeats: seq<ReservedSeat>)
      ensures this.id == ScreeningId(id) && this.movie == movie && this.playTime == playTime
      ensures seats == allSeats && this.reservedSeats == reservedSeats
    {
      this.id := ScreeningId(id);
      this.movie := movie;
      this.playTime := playTime;
      this.seats := allSeats;
      this.reservedSeats := reservedSeats;
    }

    /** The seats of the layout, in layout order, that nobody has reserved. */
    function AvailableSeats(): (r: seq<Seat>)
      reads this
      ensures forall x :: x in r <==> x in seats && !IsReserved(reservedSeats, x.id)
    {
      AvailableMembership(seats, reservedSeats);
      Available(seats, reservedSeats)
    }

    /** Reserves one seat for one customer: refuses a seat that is already
        reserved, then a seat outside the layout, and otherwise appends the
        reservation. Nothing but the reservation list changes. */
    method Reserve(seatId: SeatId, customerId: CustomerId) returns (r: Outcome)
      modifies this`reservedSeats
      ensures r == ReserveOutcome(seats, old(reservedSeats), seatId)
      ensures IsReserved(old(reservedSeats), seatId) ==> r == Failed(SeatAlreadyReserved)
      ensures !IsReserved(old(reservedSeats), seatId) && !InLayout(seats, seatId) ==> r == Failed(InvalidSeat)
      ensures r == Ok <==> !IsReserved(old(reservedSeats), seatId) && InLayout(seats, seatId)
      ensures r.Failed? ==> reservedSeats == old(reservedSeats)
      ensures r == Ok ==> reservedSeats == old(reservedSeats) + [ReservedSeat(seatId, customerId)]
      ensures seats == old(seats)
      ensures old(Valid()) ==> Valid()
      ensures r == Ok ==> forall x :: x in AvailableSeats() ==> x.id != seatId
    {
      if IsReserved(reservedSeats, seatId) {
        return Failed(SeatAlreadyReserved);
      }
      if !InLayout(seats, seatId) {
        return Failed(InvalidSeat);
      }
      ghost var before := reservedSeats;
      reservedSeats := reservedSeats + [ReservedSeat(seatId, customerId)];
      if old(Valid()) {
        ReserveKeepsConsistent(seats, before, seatId, customerId);
      }
      AvailableAfterReserve(seats, before, ReservedSeat(seatId, customerId));
      r := Ok;
    }
  }
}
