/**
 * Board coordinates (src/utilities/chess.ts): a cell is a (row, col) pair with
 * row 0 at the top (rank 8) and col 0 on the a-file; a square is its algebraic
 * name such as "e4".
 */
module Squares {
  import Decimal

  /** The algebraic name of one of the 64 squares (chess.js's `Square` type). */
  predicate IsSquare(s: string) {
    |s| == 2 && 'a' <= s[0] <= 'h' && '1' <= s[1] <= '8'
  }

  type Square = s: string | IsSquare(s) witness "a1"

  /** A cell of the board (`CellPosition`). */
  datatype Position = Position(row: int, col: int)

  predicate OnBoard(p: Position) {
    0 <= p.row < 8 && 0 <= p.col < 8
  }

  /** The file letter ('a'..'h') and rank number (1..8) a square names. */
  function FileIndex(s: Square): (f: int)
    ensures 0 <= f < 8
  {
    s[0] as int - 'a' as int
  }

  function Rank(s: Square): (r: int)
    ensures 1 <= r <= 8
  {
    Decimal.DigitValue(s[1])
  }

  /** `positionToAlgebraic`: the file is 'a' + col, the rank is the text of 8 - row. */
  function PositionToAlgebraic(p: Position): (s: Square)
    requires OnBoard(p)
    ensures FileIndex(s) == p.col
    ensures Rank(s) == 8 - p.row
  {
    var file := ('a' as int + p.col) as char;
    var rank := Decimal.NatToString(8 - p.row);
    assert rank == [Decimal.DigitChar(8 - p.row)];
    [file] + rank
  }

  /** `algebraicToPosition`: col is the file letter minus 'a', row is 8 minus the parsed rank digit. */
  function AlgebraicToPosition(s: Square): (p: Position)
    ensures OnBoard(p)
    ensures p.col == FileIndex(s) && p.row == 8 - Rank(s)
  {
    // parseInt of the single rank character is the value of that digit
    Position(8 - Decimal.DigitValue(s[1]), s[0] as int - 'a' as int)
  }

  /** Every cell of the board survives the trip to its algebraic name and back. */
  lemma PositionRoundTrip(p: Position)
    requires OnBoard(p)
    ensures AlgebraicToPosition(PositionToAlgebraic(p)) == p
  {
  }

  /** Every square a1..h8 survives the trip to its cell and back. */
  lemma SquareRoundTrip(s: Square)
    ensures PositionToAlgebraic(AlgebraicToPosition(s)) == s
  {
    var t := PositionToAlgebraic(AlgebraicToPosition(s));
    assert t[0] == s[0];
    assert t[1] == s[1];
  }
}
