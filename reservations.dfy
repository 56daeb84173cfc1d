/** The reservation logic of one screening, stated over its seat layout and
    its list of reservations as values. The Screening class keeps these two
    lists as fields and is specified by the functions here. */
module Reservations {
  import opened Identifiers
  import opened Entities

  /** Some reservation holds the seat. */
  predicate IsReserved(reserved: seq<ReservedSeat>, seatId: SeatId)
  {
    exists i | 0 <= i < |reserved| :: reserved[i].id.Equal(seatId)
  }

  /** The seat belongs to the layout. */
  predicate InLayout(seats: seq<Seat>, seatId: SeatId)
  {
    exists i | 0 <= i < |seats| :: seats[i].id.Equal(seatId)
  }

  /** I1: every reserved seat is part of the layout. */
  ghost predicate AllInLayout(seats: seq<Seat>, reserved: seq<ReservedSeat>)
  {
    forall i | 0 <= i < |reserved| :: InLayout(seats, reserved[i].id)
  }

  /** I2: no seat is reserved twice. */
  ghost predicate DistinctSeats(reserved: seq<ReservedSeat>)
  {
    forall i, j | 0 <= i < j < |reserved| :: reserved[i].id != reserved[j].id
  }

  ghost predicate Consistent(seats: seq<Seat>, reserved: seq<ReservedSeat>)
  {
    AllInLayout(seats, reserved) && DistinctSeats(reserved)
  }

  /** What reserving `seatId` reports: an already reserved seat is refused
      before the layout is consulted. */
  function ReserveOutcome(seats: seq<Seat>, reserved: seq<ReservedSeat>, seatId: SeatId): Outcome
  {
    if IsReserved(reserved, seatId) then Failed(SeatAlreadyReserved)
    else if !InLayout(seats, seatId) then Failed(InvalidSeat)
    else Ok
  }

  /** The reservations a customer gets for `ids`, in order. */
  function Grants(ids: seq<SeatId>, customerId: CustomerId): seq<ReservedSeat>
  {
    seq(|ids|, i requires 0 <= i < |ids| => ReservedSeat(ids[i], customerId))
  }

  /** The seats of the layout, in layout order, that no reservation holds. */
  function Available(seats: seq<Seat>, reserved: seq<ReservedSeat>): seq<Seat>
  {
    if seats == [] then []
    else (if IsReserved(reserved, seats[0].id) then [] else [seats[0]]) + Available(seats[1..], reserved)
  }

  lemma IsReservedAfterAppend(reserved: seq<ReservedSeat>, g: ReservedSeat, seatId: SeatId)
    ensures IsReserved(reserved + [g], seatId) <==> IsReserved(reserved, seatId) || g.id == seatId
  {
    var all := reserved + [g];
    if IsReserved(reserved, seatId) {
      var i :| 0 <= i < |reserved| && reserved[i].id.Equal(seatId);
      assert all[i] == reserved[i];
    }
    if g.id == seatId {
      assert all[|reserved|].id.Equal(seatId);
    }
    if IsReserved(all, seatId) {
      var i :| 0 <= i < |all| && all[i].id.Equal(seatId);
      if i < |reserved| {
        assert reserved[i] == all[i];
      }
    }
  }

  /** A successful reservation keeps both invariants. */
  lemma ReserveKeepsConsistent(seats: seq<Seat>, reserved: seq<ReservedSeat>, seatId: SeatId, customerId: CustomerId)
    requires Consistent(seats, reserved)
    requires ReserveOutcome(seats, reserved, seatId) == Ok
    ensures Consistent(seats, reserved + [ReservedSeat(seatId, customerId)])
  {
  }

  /** Once reserved, the same seat is refused as already reserved, whoever
      asks for it. */
  lemma ReservedSeatIsRefused(seats: seq<Seat>, reserved: seq<ReservedSeat>, seatId: SeatId, customerId: CustomerId)
    requires ReserveOutcome(seats, reserved, seatId) == Ok
    ensures ReserveOutcome(seats, reserved + [ReservedSeat(seatId, customerId)], seatId) == Failed(SeatAlreadyReserved)
  {
    IsReservedAfterAppend(reserved, ReservedSeat(seatId, customerId), seatId);
  }

  /** A seat is available iff it is in the layout and no reservation holds
      it: the available seats and the reserved ones are disjoint, and
      together they cover the layout. */
  lemma {:induction false} AvailableMembership(seats: seq<Seat>, reserved: seq<ReservedSeat>)
    ensures forall x :: x in Available(seats, reserved) <==> x in seats && !IsReserved(reserved, x.id)
  {
    if seats != [] {
      AvailableMembership(seats[1..], reserved);
      assert seats == [seats[0]] + seats[1..];
    }
  }

  /** Available filters each part of the layout on its own, so it keeps the
      layout order. */
  lemma {:induction false} AvailableConcat(a: seq<Seat>, b: seq<Seat>, reserved: seq<ReservedSeat>)
    ensures Available(a + b, reserved) == Available(a, reserved) + Available(b, reserved)
  {
    if a == [] {
      assert a + b == b;
    } else {
      assert (a + b)[0] == a[0];
      assert (a + b)[1..] == a[1..] + b;
      AvailableConcat(a[1..], b, reserved);
    }
  }

  /** With no reservations, the whole layout is available. */
  lemma {:induction false} AvailableWithoutReservations(seats: seq<Seat>)
    ensures Available(seats, []) == seats
  {
    if seats != [] {
      AvailableWithoutReservations(seats[1..]);
      assert seats == [seats[0]] + seats[1..];
    }
  }

  /** Adding a reservation for a seat removes exactly that seat, wherever
      it occurs, from the available seats and keeps the order of the rest. */
  lemma {:induction false} AvailableAfterReserve(seats: seq<Seat>, reserved: seq<ReservedSeat>, g: ReservedSeat)
    ensures Available(seats, reserved + [g]) == Available(Available(seats, reserved), [g])
    ensures forall x :: x in Available(seats, reserved + [g]) ==> x.id != g.id
  {
    if seats != [] {
      AvailableAfterReserve(seats[1..], reserved, g);
      IsReservedAfterAppend(reserved, g, seats[0].id);
      IsReservedAfterAppend([], g, seats[0].id);
      var head := if IsReserved(reserved, seats[0].id) then [] else [seats[0]];
      AvailableConcat(head, Available(seats[1..], reserved), [g]);
      if head != [] {
        assert head[1..] == [];
      }
    }
  }

  /** Seats accepted one after another, each against the reservations left
      by the previous ones, were all in the layout and free beforehand and
      pairwise distinct, and appending them keeps both invariants. */
  lemma {:induction false} AcceptedInOrder(seats: seq<Seat>, before: seq<ReservedSeat>, ids: seq<SeatId>, c: CustomerId, k: nat)
    requires k <= |ids|
    requires forall j | 0 <= j < k :: ReserveOutcome(seats, before + Grants(ids[..j], c), ids[j]) == Ok
    ensures forall j | 0 <= j < k :: InLayout(seats, ids[j]) && !IsReserved(before, ids[j])
    ensures forall i, j | 0 <= i < j < k :: ids[i] != ids[j]
    ensures Consistent(seats, before) ==> Consistent(seats, before + Grants(ids[..k], c))
  {
    if k > 0 {
      AcceptedInOrder(seats, before, ids, c, k - 1);
      var prev := before + Grants(ids[..k - 1], c);
      assert ReserveOutcome(seats, prev, ids[k - 1]) == Ok;
      assert Grants(ids[..k], c) == Grants(ids[..k - 1], c) + [ReservedSeat(ids[k - 1], c)];
      assert before + Grants(ids[..k], c) == prev + [ReservedSeat(ids[k - 1], c)];
      forall i | 0 <= i < k - 1
        ensures ids[i] != ids[k - 1]
      {
        assert prev[|before| + i] == ReservedSeat(ids[i], c);
        assert !prev[|before| + i].id.Equal(ids[k - 1]);
      }
      forall i | 0 <= i < |before|
        ensures !before[i].id.Equal(ids[k - 1])
      {
        assert prev[i] == before[i];
      }
      if Consistent(seats, before) {
        ReserveKeepsConsistent(seats, prev, ids[k - 1], c);
      }
    }
  }

  /** None of the seats a customer has been granted is available. */
  lemma GrantedSeatsUnavailable(seats: seq<Seat>, before: seq<ReservedSeat>, ids: seq<SeatId>, c: CustomerId)
    ensures forall x | x in Available(seats, before + Grants(ids, c)) :: x.id !in ids
  {
    var all := before + Grants(ids, c);
    AvailableMembership(seats, all);
    forall j | 0 <= j < |ids|
      ensures IsReserved(all, ids[j])
    {
      assert all[|before| + j].id.Equal(ids[j]);
    }
  }
}
