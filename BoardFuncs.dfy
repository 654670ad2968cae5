/**
 * The board component's helpers (src/components/chess/board/ChessBoardBase.funcs.ts):
 * whether a square is a highlighted destination, and the checkerboard colours.
 */
module BoardFuncs {
  import opened Squares
  import opened ChessReducer

  /** `isValidMove`: the `some` over the highlighted destinations, scanned from the front. */
  function IsValidMove(state: GameState, to: Square): (b: bool)
    ensures b <==> exists i :: 0 <= i < |state.validMoves| && state.validMoves[i].to == to
  {
    AnyTo(state.validMoves, to)
  }

  function AnyTo(moves: seq<ValidMove>, to: Square): (b: bool)
    ensures b <==> exists i :: 0 <= i < |moves| && moves[i].to == to
    decreases |moves|
  {
    if |moves| == 0 then false
    else if moves[0].to == to then true
    else
      var rest := AnyTo(moves[1..], to);
      assert forall i :: 0 < i < |moves| ==> moves[i] == moves[1..][i - 1];
      rest
  }

  /** Only the highlighted destinations decide `isValidMove`. */
  lemma IsValidMoveReadsOnlyValidMoves(s: GameState, t: GameState, to: Square)
    requires s.validMoves == t.validMoves
    ensures IsValidMove(s, to) == IsValidMove(t, to)
  {
  }

  /** JavaScript's `%`: the remainder has the sign of the dividend (Dafny's is never negative). */
  function JsRem(a: int, b: int): (r: int)
    requires b != 0
    ensures a >= 0 ==> r == a % (if b < 0 then -b else b)
    ensures a < 0 ==> r == -((-a) % (if b < 0 then -b else b))
  {
    var m := if b < 0 then -b else b;
    if a >= 0 then a % m else -((-a) % m)
  }

  /** Halving a negative sum: the truncated remainder is zero exactly for even sums. */
  lemma JsRemTwo(a: int)
    ensures JsRem(a, 2) == 0 <==> a % 2 == 0
    ensures JsRem(a, 2) != 0 ==> JsRem(a, 2) == 1 || JsRem(a, 2) == -1
  {
  }

  function GetCellColor(row: int, col: int): (cls: string)
    ensures cls == "bg-lightCell" || cls == "bg-darkCell"
  {
    if JsRem(row + col, 2) == 0 then "bg-lightCell" else "bg-darkCell"
  }

  function GetTextColor(row: int, col: int): (cls: string)
    ensures cls == "text-darkText" || cls == "text-lightText"
  {
    if JsRem(row + col, 2) == 0 then "text-darkText" else "text-lightText"
  }

  /** A cell is light exactly when its row and column add up to an even number, negative
      sums included. */
  lemma LightIffEven(row: int, col: int)
    ensures GetCellColor(row, col) == "bg-lightCell" <==> (row + col) % 2 == 0
  {
    JsRemTwo(row + col);
  }

  /** Orthogonal neighbours always have different colours. */
  lemma NeighboursDiffer(row: int, col: int)
    ensures GetCellColor(row, col) != GetCellColor(row + 1, col)
    ensures GetCellColor(row, col) != GetCellColor(row, col + 1)
  {
    LightIffEven(row, col);
    LightIffEven(row + 1, col);
    LightIffEven(row, col + 1);
  }

  /** The label text contrasts with its cell: dark text on light cells, light text on dark ones. */
  lemma TextContrastsWithCell(row: int, col: int)
    ensures GetTextColor(row, col) == "text-darkText" <==> GetCellColor(row, col) == "bg-lightCell"
  {
  }

  /** On the board, the cell of a square is light exactly when its file index (a = 0)
      and its rank add up to an even number: a8 and h1 are light, a1 and h8 dark. */
  lemma SquareColor(s: Square)
    ensures GetCellColor(AlgebraicToPosition(s).row, AlgebraicToPosition(s).col) == "bg-lightCell"
            <==> (FileIndex(s) + Rank(s)) % 2 == 0
  {
    var p := AlgebraicToPosition(s);
    LightIffEven(p.row, p.col);
    assert p.row + p.col == 8 + FileIndex(s) - Rank(s);
  }
}
