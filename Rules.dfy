/**
 * The chess rules library (chess.js) as an injected capability: the system never
 * computes chess rules itself, it asks an engine. An `Engine` value is any
 * collection of (total) functions over positions; every property proved in this
 * project holds for every engine.
 */
module Rules {
  import opened Wrappers
  import opened Squares

  /** A side: `PlayerColor` ("white" | "black") on the server, `PieceColor` ("w" | "b") on the client. */
  datatype Color = White | Black

  function Opposite(c: Color): (o: Color)
    ensures o != c
  {
    if c == White then Black else White
  }

  /** Taking the opposite side twice gives the side back. */
  lemma OppositeInvolutive(c: Color)
    ensures Opposite(Opposite(c)) == c
  {
  }

  datatype PieceType = Pawn | Knight | Bishop | Rook | Queen | King

  /** The one-letter name the rules library uses for a piece type. */
  function PieceLetter(t: PieceType): (s: string)
    ensures |s| == 1
  {
    match t
    case Pawn => "p"
    case Knight => "n"
    case Bishop => "b"
    case Rook => "r"
    case Queen => "q"
    case King => "k"
  }

  /** A piece as the library reports it on a square: type and colour. */
  datatype Piece = Piece(kind: PieceType, color: Color)

  /** A serialized position (FEN). */
  type Fen = string

  /** What the library reports about one move: the moved piece and its colour,
      the origin and destination, the flag letters, SAN, the captured piece type
      and the position after the move. */
  datatype MoveDetails = MoveDetails(
    piece: PieceType,
    color: Color,
    from: Square,
    to: Square,
    flags: string,
    san: string,
    captured: Option<PieceType>,
    after: Fen)

  /**
   * The library's operations on a position:
   *   turn        -- `chess.turn()`, the side to move
   *   move        -- `chess.move({from, to, promotion})`; None when the move is rejected
   *   moves       -- `chess.moves({square, verbose: true})`
   *   pieceAt     -- `chess.get(square)`
   *   load        -- `chess.load(fen)` then `chess.fen()`; None when the text is refused
   *   board       -- `chess.board()`, rows from rank 8 down, files a..h
   *   isCheck, isCheckmate, isDraw
   */
  datatype Engine = Engine(
    turn: Fen -> Color,
    move: (Fen, Square, Square, Option<string>) -> Option<MoveDetails>,
    moves: (Fen, Square) -> seq<MoveDetails>,
    pieceAt: (Fen, Square) -> Option<Piece>,
    load: Fen -> Option<Fen>,
    board: Fen -> seq<seq<Option<Piece>>>,
    isCheck: Fen -> bool,
    isCheckmate: Fen -> bool,
    isDraw: Fen -> bool)

  /** The library's default starting position. */
  const InitialFen: Fen := "rnbqkbnr/pppppppp/8/8/8/8/PPPPPPPP/RNBQKBNR w KQkq - 0 1"
}
