/** Identity values of the reservation domain. Each wraps one string and
    compares by exact, case-sensitive string equality; identifiers of
    different kinds are different types and cannot be compared. */
module Identifiers {

  /** Identity of a customer. */
  datatype CustomerId = CustomerId(id: string) {
    function Value(): string { id }

    /** Equality of the wrapped strings is identity of the customer. */
    function Equal(other: CustomerId): (b: bool)
      ensures b <==> this == other
    {
      id == other.Value()
    }
  }

  /** Identity of a screening. */
  datatype ScreeningId = ScreeningId(id: string) {
    function Value(): string { id }

    function Equal(other: ScreeningId): (b: bool)
      ensures b <==> this == other
    {
      id == other.Value()
    }
  }

  /** Identity of a movie. */
  datatype MovieId = MovieId(id: string) {
    function Value(): string { id }

    function Equal(other: MovieId): (b: bool)
      ensures b <==> this == other
    {
      id == other.Value()
    }
  }

  /** Identity of a seat: the row label followed by the column label. */
  datatype SeatId = SeatId(id: string) {
    function Value(): string { id }

    function Equal(other: SeatId): (b: bool)
      ensures b <==> this == other
    {
      id == other.Value()
    }
  }

  /** Builds a seat identity from a row and a column label, with no check
      that the pair names a seat of any room: the row is the prefix of the
      value and the column the rest of it. */
  function NewSeatId(row: string, col: string): (s: SeatId)
    ensures |s.Value()| == |row| + |col|
    ensures s.Value()[..|row|] == row && s.Value()[|row|..] == col
  {
    SeatId(row + col)
  }

  /** Since nothing separates the two labels, moving the first character of
      the column to the end of the row names the same seat
      (row "A", column "11" and row "A1", column "1" are one seat). */
  lemma SeatIdIgnoresLabelBoundary(row: string, col: string)
    requires |col| > 0
    ensures NewSeatId(row, col) == NewSeatId(row + col[..1], col[1..])
  {
  }
}
