/** The plain records of the reservation domain and the values that stand
    for its thrown errors. */
module Entities {
  import opened Identifiers

  datatype Customer = Customer(id: CustomerId, name: string)

  datatype Movie = Movie(id: MovieId, title: string)

  /** A slot of a screening's seat layout. */
  datatype Seat = Seat(id: SeatId)

  function NewSeat(row: string, col: string): Seat {
    Seat(NewSeatId(row, col))
  }

  /** Binds one seat of a screening to the customer who reserved it. */
  datatype ReservedSeat = ReservedSeat(id: SeatId, reservedBy: CustomerId)

  /** The repository whose lookup failed. */
  datatype EntityKind = ScreeningEntity | CustomerEntity | SeatEntity

  /** The errors the core throws, as matchable kinds. */
  datatype Error = SeatAlreadyReserved | InvalidSeat | NotFound(kind: EntityKind)

  /** What an operation returning the string "Ok" or throwing yields. */
  datatype Outcome = Ok | Failed(error: Error)

  /** What a lookup returning an entity or throwing yields. */
  datatype Result<T> = Success(value: T) | Failure(error: Error)

  datatype Option<T> = None | Some(value: T)
}
