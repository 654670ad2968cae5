/**
 * The client game reducer (src/context/ChessContext.tsx): the board state the
 * local UI keeps, and how each action changes it. The rules library is the
 * injected `Engine`; `getCapturedPieces`, which `SET_POSITION` calls, is an
 * injected function too.
 */
module ChessReducer {
  import opened Wrappers
  import opened Squares
  import opened Rules

  datatype MoveType = Normal | Castling | EnPassant | Promotion | Capture

  /** A piece on the board view, with the cell it stands on. */
  datatype ChessPiece = ChessPiece(kind: PieceType, color: Color, position: Position)

  /** One animated displacement of a move (the animation duration is a UI constant). */
  datatype PieceMovement = PieceMovement(pieceType: PieceType, color: Color, from: Position, to: Position)

  datatype ChessMove = ChessMove(
    kind: MoveType,
    movements: seq<PieceMovement>,
    notation: string,
    from: Position,
    to: Position,
    capturedPiece: Option<ChessPiece>)

  /** A highlighted destination of the selected piece. */
  datatype ValidMove = ValidMove(to: Square, isCapture: bool)

  /** The captured pieces, one list per colour of the captured side. */
  datatype CapturedPieces = CapturedPieces(w: seq<ChessPiece>, b: seq<ChessPiece>) {
    function Of(c: Color): seq<ChessPiece> {
      if c == White then w else b
    }
  }

  /** A pawn move waiting for the promotion choice (the modal position is not modelled). */
  datatype PendingPromotion = PendingPromotion(from: Square, to: Square)

  datatype GameState = GameState(
    board: seq<seq<Option<ChessPiece>>>,
    currentTurn: Color,
    moveHistory: seq<ChessMove>,
    isCheck: bool,
    isCheckmate: bool,
    isDraw: bool,
    selectedPiece: Option<ChessPiece>,
    validMoves: seq<ValidMove>,
    capturedPieces: CapturedPieces,
    currentMove: Option<ChessMove>,
    fenString: Fen,
    pendingPromotion: Option<PendingPromotion>,
    fenHistory: seq<Fen>)

  datatype Action =
    | SelectPiece(piece: Option<ChessPiece>)
    | MakeMove(from: Square, to: Square)
    | AnimationComplete(key: string)
    | ResetGame
    | UndoMove
    | SetPosition(fen: string)
    | SetPendingPromotion(pending: Option<PendingPromotion>)
    | CompletePromotion(promotion: PieceType)

  /** `getMoveType`: the flag letters are tested in a fixed priority order. */
  function GetMoveType(flags: string): (t: MoveType)
    ensures t == Castling <==> 'k' in flags || 'q' in flags
    ensures t == EnPassant <==> 'e' in flags && 'k' !in flags && 'q' !in flags
    ensures t == Promotion <==> 'p' in flags && 'k' !in flags && 'q' !in flags && 'e' !in flags
    ensures t == Capture <==> 'c' in flags && 'k' !in flags && 'q' !in flags && 'e' !in flags && 'p' !in flags
  {
    if 'k' in flags || 'q' in flags then Castling
    else if 'e' in flags then EnPassant
    else if 'p' in flags then Promotion
    else if 'c' in flags then Capture
    else Normal
  }

  /** `isPawnPromotion`: a pawn of the side on `from` reaching its last rank. */
  function IsPawnPromotion(engine: Engine, fen: Fen, from: Square, to: Square): (b: bool)
    ensures b <==>
      var piece := engine.pieceAt(fen, from);
      piece.Some? && piece.value.kind == Pawn && Rank(to) == (if piece.value.color == White then 8 else 1)
  {
    var piece := engine.pieceAt(fen, from);
    if piece.None? || piece.value.kind != Pawn then false
    else
      var rank := to[1];
      (piece.value.color == White && rank == '8') || (piece.value.color == Black && rank == '1')
  }

  /** The rook's displacement that goes with a castling king: h to f on the king side,
      a to d on the queen side, on the mover's home rank. */
  function CastlingRook(color: Color, kingside: bool): (m: PieceMovement)
    ensures m.pieceType == Rook && m.color == color
    ensures m.from.row == m.to.row == (if color == White then 7 else 0)
    ensures m.from.col == (if kingside then 7 else 0) && m.to.col == (if kingside then 5 else 3)
  {
    var rookFrom: Square := if kingside then (if color == White then "h1" else "h8") else (if color == White then "a1" else "a8");
    var rookTo: Square := if kingside then (if color == White then "f1" else "f8") else (if color == White then "d1" else "d8");
    PieceMovement(Rook, color, AlgebraicToPosition(rookFrom), AlgebraicToPosition(rookTo))
  }

  /** The cell of the piece a move captures: the destination, except en passant, where the
      captured pawn stands one row behind the destination as the mover sees it. */
  function VictimPosition(mover: Color, to: Square, enPassant: bool): (p: Position)
    ensures !enPassant ==> p == AlgebraicToPosition(to)
    ensures enPassant ==>
      p.col == AlgebraicToPosition(to).col && p.row == AlgebraicToPosition(to).row + (if mover == White then 1 else -1)
  {
    var capturedColor := Opposite(mover);
    var target := AlgebraicToPosition(to);
    if enPassant then Position(target.row + (if capturedColor == White then -1 else 1), target.col)
    else target
  }

  /** The piece a move takes, if any: of the other colour, on its victim cell. */
  function TakenPiece(d: MoveDetails, to: Square, enPassant: bool): (p: Option<ChessPiece>)
    ensures p.Some? <==> d.captured.Some?
    ensures p.Some? ==> p.value.color == Opposite(d.color) && p.value.kind == d.captured.value
  {
    if d.captured.Some? then Some(ChessPiece(d.captured.value, Opposite(d.color), VictimPosition(d.color, to, enPassant)))
    else None
  }

  /** Appends a captured piece to the list of its colour. */
  function AddCaptured(cp: CapturedPieces, p: Option<ChessPiece>): (r: CapturedPieces)
    ensures p.None? ==> r == cp
    ensures p.Some? ==> r.Of(p.value.color) == cp.Of(p.value.color) + [p.value]
    ensures p.Some? ==> r.Of(Opposite(p.value.color)) == cp.Of(Opposite(p.value.color))
  {
    if p.None? then cp
    else if p.value.color == White then cp.(w := cp.w + [p.value])
    else cp.(b := cp.b + [p.value])
  }

  /** The cell of the engine's board at (row, col), as a view piece; a board that is not
      8 by 8 reads as empty outside its bounds. */
  function Cell(chessBoard: seq<seq<Option<Piece>>>, row: int, col: int): (p: Option<ChessPiece>)
    ensures p.Some? ==> p.value.position == Position(row, col)
  {
    if 0 <= row < |chessBoard| && 0 <= col < |chessBoard[row]| && chessBoard[row][col].Some? then
      Some(ChessPiece(chessBoard[row][col].value.kind, chessBoard[row][col].value.color, Position(row, col)))
    else None
  }

  /** The view board `parseBoard` builds: 8 rows of 8 cells. */
  function BoardOf(chessBoard: seq<seq<Option<Piece>>>): (b: seq<seq<Option<ChessPiece>>>)
    ensures |b| == 8 && forall r :: 0 <= r < 8 ==> |b[r]| == 8
    ensures forall r, c :: 0 <= r < 8 && 0 <= c < 8 ==> b[r][c] == Cell(chessBoard, r, c)
  {
    seq(8, r => seq(8, c => Cell(chessBoard, r, c)))
  }

  /** `parseBoard`: fills an 8 by 8 grid row by row from the engine's board. */
  method ParseBoard(chessBoard: seq<seq<Option<Piece>>>) returns (board: array2<Option<ChessPiece>>)
    ensures fresh(board) && board.Length0 == 8 && board.Length1 == 8
    ensures forall r, c :: 0 <= r < 8 && 0 <= c < 8 ==> board[r, c] == BoardOf(chessBoard)[r][c]
  {
    board := new Option<ChessPiece>[8, 8]((_, _) => None);
    for row := 0 to 8
      invariant forall r, c :: 0 <= r < row && 0 <= c < 8 ==> board[r, c] == Cell(chessBoard, r, c)
      invariant forall r, c :: row <= r < 8 && 0 <= c < 8 ==> board[r, c] == None
    {
      for col := 0 to 8
        invariant forall r, c :: 0 <= r < row && 0 <= c < 8 ==> board[r, c] == Cell(chessBoard, r, c)
        invariant forall c :: 0 <= c < col ==> board[row, c] == Cell(chessBoard, row, c)
        invariant forall c :: col <= c < 8 ==> board[row, c] == None
        invariant forall r, c :: row < r < 8 && 0 <= c < 8 ==> board[r, c] == None
      {
        if row < |chessBoard| && col < |chessBoard[row]| && chessBoard[row][col].Some? {
          var square := chessBoard[row][col].value;
          board[row, col] := Some(ChessPiece(square.kind, square.color, Position(row, col)));
        }
      }
    }
  }

  /** The history bookkeeping every reachable state keeps: one position per move plus the
      starting one, the last of which is the position shown. */
  predicate Consistent(s: GameState) {
    |s.fenHistory| == |s.moveHistory| + 1 && s.fenString == s.fenHistory[|s.fenHistory| - 1]
  }

  /** `createInitialState`: the library's starting position, white to move, empty histories. */
  function CreateInitialState(engine: Engine): (s: GameState)
    ensures Consistent(s)
    ensures s.fenString == InitialFen && s.fenHistory == [InitialFen] && s.moveHistory == []
    ensures s.currentTurn == White && s.selectedPiece.None? && s.validMoves == [] && s.pendingPromotion.None?
  {
    GameState(BoardOf(engine.board(InitialFen)), White, [], engine.isCheck(InitialFen), engine.isCheckmate(InitialFen),
              engine.isDraw(InitialFen), None, [], CapturedPieces([], []), None, InitialFen, None, [InitialFen])
  }

  /** The fields recomputed from the position after a move, an undo or a load. */
  function Showing(engine: Engine, s: GameState, fen: Fen): GameState {
    s.(fenString := fen, board := BoardOf(engine.board(fen)), currentTurn := engine.turn(fen),
       isCheck := engine.isCheck(fen), isCheckmate := engine.isCheckmate(fen), isDraw := engine.isDraw(fen),
       selectedPiece := None, validMoves := [])
  }

  /** The first move of `moves` whose destination is `to`. */
  function FirstTo(moves: seq<MoveDetails>, to: Square): Option<MoveDetails> {
    if |moves| == 0 then None
    else if moves[0].to == to then Some(moves[0])
    else FirstTo(moves[1..], to)
  }

  function Destinations(moves: seq<MoveDetails>): set<Square> {
    set m | m in moves :: m.to
  }

  /** The `reduce` that keeps one move per destination, the first seen, in order; `seen`
      holds the destinations already kept. */
  function KeepFirst(moves: seq<MoveDetails>, seen: set<Square>): (r: seq<MoveDetails>)
    ensures |r| <= |moves|
  {
    if |moves| == 0 then []
    else if moves[0].to in seen then KeepFirst(moves[1..], seen)
    else [moves[0]] + KeepFirst(moves[1..], seen + {moves[0].to})
  }

  /** The destinations kept are exactly those not seen before. */
  lemma {:induction false} KeepFirstDestinations(moves: seq<MoveDetails>, seen: set<Square>)
    ensures Destinations(KeepFirst(moves, seen)) == Destinations(moves) - seen
    decreases |moves|
  {
    if |moves| > 0 {
      var tail := moves[1..];
      assert moves == [moves[0]] + tail;
      assert Destinations(moves) == {moves[0].to} + Destinations(tail);
      if moves[0].to in seen {
        KeepFirstDestinations(tail, seen);
      } else {
        KeepFirstDestinations(tail, seen + {moves[0].to});
        var rest := KeepFirst(tail, seen + {moves[0].to});
        assert Destinations([moves[0]] + rest) == {moves[0].to} + Destinations(rest);
      }
    }
  }

  /** No destination is kept twice. */
  lemma {:induction false} KeepFirstDistinct(moves: seq<MoveDetails>, seen: set<Square>)
    ensures var r := KeepFirst(moves, seen); forall i, j :: 0 <= i < j < |r| ==> r[i].to != r[j].to
    decreases |moves|
  {
    if |moves| > 0 {
      var tail := moves[1..];
      if moves[0].to in seen {
        KeepFirstDistinct(tail, seen);
        assert KeepFirst(moves, seen) == KeepFirst(tail, seen);
      } else {
        var seen' := seen + {moves[0].to};
        KeepFirstDistinct(tail, seen');
        KeepFirstDestinations(tail, seen');
        var rest := KeepFirst(tail, seen');
        var r := [moves[0]] + rest;
        forall i, j | 0 <= i < j < |r| ensures r[i].to != r[j].to {
          if i == 0 {
            assert r[j] in rest;
            assert r[j].to in Destinations(rest);
          }
        }
      }
    }
  }

  /** The move kept for each destination is the first move to it. */
  lemma {:induction false} KeepFirstIsFirst(moves: seq<MoveDetails>, seen: set<Square>)
    ensures var r := KeepFirst(moves, seen); forall k :: 0 <= k < |r| ==> FirstTo(moves, r[k].to) == Some(r[k])
    decreases |moves|
  {
    if |moves| > 0 {
      var tail := moves[1..];
      var seen' := if moves[0].to in seen then seen else seen + {moves[0].to};
      KeepFirstIsFirst(tail, seen');
      KeepFirstDestinations(tail, seen');
      var rest := KeepFirst(tail, seen');
      var r := KeepFirst(moves, seen);
      forall k | 0 <= k < |r| ensures FirstTo(moves, r[k].to) == Some(r[k]) {
        var m := if moves[0].to in seen then rest[k] else if k == 0 then moves[0] else rest[k - 1];
        assert r[k] == m;
        if m != moves[0] || moves[0].to in seen {
          assert m in rest;
          assert m.to in Destinations(rest);
        }
      }
    }
  }

  /** The highlights of SELECT_PIECE: one per destination, marked when that move captures. */
  function ValidMovesOf(moves: seq<MoveDetails>): (vm: seq<ValidMove>)
    ensures |vm| == |KeepFirst(moves, {})|
  {
    var kept := KeepFirst(moves, {});
    seq(|kept|, i requires 0 <= i < |kept| => ValidMove(kept[i].to, kept[i].captured.Some?))
  }

  /** SELECT_PIECE. */
  function Select(engine: Engine, s: GameState, piece: Option<ChessPiece>): (r: GameState)
    ensures Consistent(s) ==> Consistent(r)
    ensures piece.None? || piece.value.color != s.currentTurn ==> r == s.(selectedPiece := None, validMoves := [])
  {
    if piece.None? || piece.value.color != s.currentTurn then s.(selectedPiece := None, validMoves := [])
    else
      // a piece whose cell is off the board names no square; the library lists no moves for it
      var moves := if OnBoard(piece.value.position) then engine.moves(s.fenString, PositionToAlgebraic(piece.value.position)) else [];
      s.(selectedPiece := piece, validMoves := ValidMovesOf(moves))
  }

  /** The state after the engine accepted a move: the new position shown, the move and the
      position appended to the histories, the taken piece filed by colour. */
  function Played(engine: Engine, s: GameState, m: ChessMove, newFen: Fen, pending: Option<PendingPromotion>): GameState {
    Showing(engine, s, newFen).(moveHistory := s.moveHistory + [m], capturedPieces := AddCaptured(s.capturedPieces, m.capturedPiece),
                                currentMove := Some(m), pendingPromotion := pending, fenHistory := s.fenHistory + [newFen])
  }

  /** The record MAKE_MOVE keeps of an accepted move; a castling move also moves the rook. */
  function MoveRecord(d: MoveDetails, from: Square, to: Square): (m: ChessMove)
    ensures m.kind == GetMoveType(d.flags)
    ensures |m.movements| == if m.kind == Castling then 2 else 1
    ensures m.movements[0] == PieceMovement(d.piece, d.color, AlgebraicToPosition(from), AlgebraicToPosition(to))
    ensures m.kind == Castling ==> m.movements[1] == CastlingRook(d.color, 'k' in d.flags)
    ensures m.capturedPiece == TakenPiece(d, to, m.kind == EnPassant)
  {
    var moveType := GetMoveType(d.flags);
    var first := PieceMovement(d.piece, d.color, AlgebraicToPosition(from), AlgebraicToPosition(to));
    var movements := if moveType == Castling then [first, CastlingRook(d.color, 'k' in d.flags)] else [first];
    ChessMove(moveType, movements, d.san, AlgebraicToPosition(from), AlgebraicToPosition(to),
              TakenPiece(d, to, moveType == EnPassant))
  }

  /** MAKE_MOVE: a pawn reaching its last rank only opens the promotion choice; otherwise
      the move is asked of the engine without promotion, and a refusal changes nothing. */
  function Move(engine: Engine, s: GameState, from: Square, to: Square): (r: GameState)
    ensures Consistent(s) ==> Consistent(r)
    ensures IsPawnPromotion(engine, s.fenString, from, to) ==> r == s.(pendingPromotion := Some(PendingPromotion(from, to)))
    ensures !IsPawnPromotion(engine, s.fenString, from, to) && engine.move(s.fenString, from, to, None).None? ==> r == s
    ensures !IsPawnPromotion(engine, s.fenString, from, to) && engine.move(s.fenString, from, to, None).Some? ==>
      var d := engine.move(s.fenString, from, to, None).value;
      var m := MoveRecord(d, from, to);
      && r.moveHistory == s.moveHistory + [m] && r.currentMove == Some(m)
      && r.fenHistory == s.fenHistory + [d.after] && r.fenString == d.after
      && r.currentTurn == engine.turn(d.after)
      && r.capturedPieces == AddCaptured(s.capturedPieces, m.capturedPiece)
      && r.selectedPiece.None? && r.validMoves == [] && r.pendingPromotion == s.pendingPromotion
  {
    if IsPawnPromotion(engine, s.fenString, from, to) then s.(pendingPromotion := Some(PendingPromotion(from, to)))
    else
      var moveDetails := engine.move(s.fenString, from, to, None);
      if moveDetails.None? then s
      else Played(engine, s, MoveRecord(moveDetails.value, from, to), moveDetails.value.after, s.pendingPromotion)
  }

  /** COMPLETE_PROMOTION: plays the pending move with the chosen piece; it has no castling
      rook, and its capture is on the destination. */
  function Promote(engine: Engine, s: GameState, promotion: PieceType): (r: GameState)
    ensures Consistent(s) ==> Consistent(r)
    ensures s.pendingPromotion.None? ==> r == s
    ensures s.pendingPromotion.Some? ==> r.pendingPromotion.None?
    ensures s.pendingPromotion.Some? ==>
      var p := s.pendingPromotion.value;
      var moveDetails := engine.move(s.fenString, p.from, p.to, Some(PieceLetter(promotion)));
      moveDetails.Some? ==>
        var d := moveDetails.value;
        && r.fenHistory == s.fenHistory + [d.after] && r.fenString == d.after
        && |r.moveHistory| == |s.moveHistory| + 1 && r.moveHistory[..|s.moveHistory|] == s.moveHistory
        && r.currentMove == Some(r.moveHistory[|s.moveHistory|])
        && r.currentMove.value.kind == GetMoveType(d.flags)
        && r.currentMove.value.movements == [PieceMovement(d.piece, d.color, AlgebraicToPosition(p.from), AlgebraicToPosition(p.to))]
        && r.currentMove.value.capturedPiece == TakenPiece(d, p.to, false)
        && r.capturedPieces == AddCaptured(s.capturedPieces, TakenPiece(d, p.to, false))
  {
    if s.pendingPromotion.None? then s
    else
      var from := s.pendingPromotion.value.from;
      var to := s.pendingPromotion.value.to;
      var moveDetails := engine.move(s.fenString, from, to, Some(PieceLetter(promotion)));
      if moveDetails.None? then s.(pendingPromotion := None)
      else
        var d := moveDetails.value;
        var moveType := GetMoveType(d.flags);
        var m := ChessMove(moveType, [PieceMovement(d.piece, d.color, AlgebraicToPosition(from), AlgebraicToPosition(to))],
                           d.san, AlgebraicToPosition(from), AlgebraicToPosition(to), TakenPiece(d, to, false));
        Played(engine, s, m, d.after, None)
  }

  /** The `filter` of UNDO_MOVE: the first |list| - k entries (none when k exceeds the length). */
  function KeepBelow(list: seq<ChessPiece>, k: nat): (r: seq<ChessPiece>)
    ensures |r| == if k <= |list| then |list| - k else 0
    ensures r == list[..|r|]
  {
    if k <= |list| then list[..|list| - k] else []
  }

  /** Whether the last recorded move captured a piece of colour `c`. */
  predicate LastTook(s: GameState, c: Color) {
    |s.moveHistory| > 0 && s.moveHistory[|s.moveHistory| - 1].capturedPiece.Some?
    && s.moveHistory[|s.moveHistory| - 1].capturedPiece.value.color == c
  }

  /** UNDO_MOVE: goes back to the previous position of the history. */
  function Undo(engine: Engine, s: GameState): (r: GameState)
    ensures Consistent(s) ==> Consistent(r)
    ensures |s.moveHistory| == 0 || |s.fenHistory| <= 1 ==> r == s
    ensures |s.moveHistory| > 0 && |s.fenHistory| > 1 ==>
      && r.moveHistory == s.moveHistory[..|s.moveHistory| - 1]
      && r.fenHistory == s.fenHistory[..|s.fenHistory| - 1]
      && r.fenString == r.fenHistory[|r.fenHistory| - 1]
      && r.pendingPromotion.None? && r.currentMove.None?
  {
    if |s.moveHistory| == 0 || |s.fenHistory| <= 1 then s
    else
      var previousFenHistory := s.fenHistory[..|s.fenHistory| - 1];
      var previousFen := previousFenHistory[|previousFenHistory| - 1];
      Showing(engine, s, previousFen).(
        moveHistory := s.moveHistory[..|s.moveHistory| - 1],
        capturedPieces := CapturedPieces(
          KeepBelow(s.capturedPieces.w, if LastTook(s, White) then 1 else 0),
          KeepBelow(s.capturedPieces.b, if LastTook(s, Black) then 1 else 0)),
        currentMove := None,
        pendingPromotion := None,
        fenHistory := previousFenHistory)
  }

  /** SET_POSITION: a position the library refuses leaves the state as it is; an accepted
      one starts a fresh history from the library's rendering of it. */
  function Load(engine: Engine, capturedOf: Fen -> CapturedPieces, s: GameState, fen: string): (r: GameState)
    ensures Consistent(s) ==> Consistent(r)
    ensures engine.load(fen).None? ==> r == s
    ensures engine.load(fen).Some? ==>
      r.fenString == engine.load(fen).value && r.fenHistory == [r.fenString] && r.moveHistory == []
      && r.pendingPromotion.None? && r.capturedPieces == capturedOf(r.fenString)
  {
    match engine.load(fen)
    case None => s
    case Some(newFen) =>
      Showing(engine, s, newFen).(moveHistory := [], capturedPieces := capturedOf(newFen), currentMove := None,
                                  pendingPromotion := None, fenHistory := [newFen])
  }

  /** `chessReducer`: every action keeps the history bookkeeping. */
  function Reduce(engine: Engine, capturedOf: Fen -> CapturedPieces, s: GameState, a: Action): (r: GameState)
    ensures Consistent(s) ==> Consistent(r)
  {
    match a
    case SelectPiece(piece) => Select(engine, s, piece)
    case MakeMove(from, to) => Move(engine, s, from, to)
    case SetPendingPromotion(pending) => s.(pendingPromotion := pending)
    case CompletePromotion(promotion) => Promote(engine, s, promotion)
    case ResetGame => CreateInitialState(engine)
    case UndoMove => Undo(engine, s)
    case SetPosition(fen) => Load(engine, capturedOf, s, fen)
    case AnimationComplete(_) => s
  }

  /** Every state reached from the initial one by a sequence of actions. */
  function ReduceAll(engine: Engine, capturedOf: Fen -> CapturedPieces, s: GameState, actions: seq<Action>): (r: GameState)
    ensures Consistent(s) ==> Consistent(r)
    decreases |actions|
  {
    if |actions| == 0 then s
    else ReduceAll(engine, capturedOf, Reduce(engine, capturedOf, s, actions[0]), actions[1..])
  }

  /** The bookkeeping holds in every state the reducer can reach. */
  lemma ReachableConsistent(engine: Engine, capturedOf: Fen -> CapturedPieces, actions: seq<Action>)
    ensures Consistent(ReduceAll(engine, capturedOf, CreateInitialState(engine), actions))
  {
  }

  /** UNDO_MOVE drops at most the last captured piece, and only from the list of the colour
      the undone move captured. */
  lemma UndoDropsOnlyLastCapture(engine: Engine, s: GameState, c: Color)
    requires |s.moveHistory| > 0 && |s.fenHistory| > 1
    ensures var r := Undo(engine, s);
      r.capturedPieces.Of(c) ==
        if LastTook(s, c) && |s.capturedPieces.Of(c)| > 0 then s.capturedPieces.Of(c)[..|s.capturedPieces.Of(c)| - 1]
        else s.capturedPieces.Of(c)
  {
  }

  /**
   * Undoing an accepted MAKE_MOVE restores the position, both histories and
   * the captured pieces, and leaves no selection, highlight or pending
   * promotion behind.
   */
  lemma UndoRevertsMove(engine: Engine, capturedOf: Fen -> CapturedPieces, s: GameState, from: Square, to: Square)
    requires Consistent(s)
    requires !IsPawnPromotion(engine, s.fenString, from, to) && engine.move(s.fenString, from, to, None).Some?
    ensures var u := Reduce(engine, capturedOf, Reduce(engine, capturedOf, s, MakeMove(from, to)), UndoMove);
      && u.fenString == s.fenString && u.fenHistory == s.fenHistory && u.moveHistory == s.moveHistory
      && u.capturedPieces == s.capturedPieces
      && u.board == BoardOf(engine.board(s.fenString)) && u.currentTurn == engine.turn(s.fenString)
      && u.selectedPiece.None? && u.validMoves == [] && u.pendingPromotion.None? && u.currentMove.None?
  {
    var d := engine.move(s.fenString, from, to, None).value;
    var t := Reduce(engine, capturedOf, s, MakeMove(from, to));
    var m := MoveRecord(d, from, to);
    assert t == Played(engine, s, m, d.after, s.pendingPromotion);
    assert t.moveHistory[|t.moveHistory| - 1] == m;
    assert t.fenHistory[..|t.fenHistory| - 1] == s.fenHistory;
    assert t.moveHistory[..|t.moveHistory| - 1] == s.moveHistory;
    var u := Undo(engine, t);
    if m.capturedPiece.Some? {
      var c := m.capturedPiece.value.color;
      assert LastTook(t, c) && !LastTook(t, Opposite(c));
      assert t.capturedPieces.Of(c) == s.capturedPieces.Of(c) + [m.capturedPiece.value];
      assert u.capturedPieces.Of(c) == s.capturedPieces.Of(c);
      assert u.capturedPieces.Of(Opposite(c)) == s.capturedPieces.Of(Opposite(c));
      assert u.capturedPieces.w == s.capturedPieces.w && u.capturedPieces.b == s.capturedPieces.b;
    } else {
      assert !LastTook(t, White) && !LastTook(t, Black);
    }
  }

  /** A capture is filed under the colour the mover does not play, on the destination, or
      for en passant on the cell behind it. */
  lemma CaptureFiled(engine: Engine, s: GameState, from: Square, to: Square)
    requires !IsPawnPromotion(engine, s.fenString, from, to)
    requires engine.move(s.fenString, from, to, None).Some? && engine.move(s.fenString, from, to, None).value.captured.Some?
    ensures var d := engine.move(s.fenString, from, to, None).value;
      var r := Move(engine, s, from, to);
      var taken := r.currentMove.value.capturedPiece.value;
      && r.currentMove.Some? && r.currentMove.value.capturedPiece.Some?
      && taken.color == Opposite(d.color)
      && r.capturedPieces.Of(Opposite(d.color)) == s.capturedPieces.Of(Opposite(d.color)) + [taken]
      && r.capturedPieces.Of(d.color) == s.capturedPieces.Of(d.color)
      && (GetMoveType(d.flags) != EnPassant ==> taken.position == AlgebraicToPosition(to))
  {
    var d := engine.move(s.fenString, from, to, None).value;
    OppositeInvolutive(d.color);
  }

  /** A promotion choice the engine refuses clears only the pending promotion. */
  lemma RefusedPromotionClearsPending(engine: Engine, s: GameState, promotion: PieceType)
    requires s.pendingPromotion.Some?
    requires engine.move(s.fenString, s.pendingPromotion.value.from, s.pendingPromotion.value.to, Some(PieceLetter(promotion))).None?
    ensures Promote(engine, s, promotion) == s.(pendingPromotion := None)
  {
  }

  /** A listed destination is highlighted exactly once, with the capture mark of the first
      move the library lists to it. */
  lemma SelectHighlights(engine: Engine, s: GameState, piece: ChessPiece, to: Square)
    requires piece.color == s.currentTurn && OnBoard(piece.position)
    ensures var moves := engine.moves(s.fenString, PositionToAlgebraic(piece.position));
      var vm := Select(engine, s, Some(piece)).validMoves;
      && (forall i, j :: 0 <= i < j < |vm| ==> vm[i].to != vm[j].to)
      && (FirstTo(moves, to).Some? <==> exists k :: 0 <= k < |vm| && vm[k].to == to)
      && (forall k :: 0 <= k < |vm| && vm[k].to == to ==> vm[k].isCapture == FirstTo(moves, to).value.captured.Some?)
  {
    var moves := engine.moves(s.fenString, PositionToAlgebraic(piece.position));
    var kept := KeepFirst(moves, {});
    KeepFirstDestinations(moves, {});
    KeepFirstDistinct(moves, {});
    KeepFirstIsFirst(moves, {});
    FirstToDestination(moves, to);
    var vm := Select(engine, s, Some(piece)).validMoves;
    assert vm == ValidMovesOf(moves);
    if FirstTo(moves, to).Some? {
      assert to in Destinations(kept);
      var m :| m in kept && m.to == to;
      var k :| 0 <= k < |kept| && kept[k] == m;
      assert vm[k].to == to;
    }
    forall k | 0 <= k < |vm| && vm[k].to == to ensures FirstTo(moves, to).Some? {
      assert kept[k].to == to;
    }
  }

  /** A destination has a first move exactly when some listed move goes there. */
  lemma {:induction false} FirstToDestination(moves: seq<MoveDetails>, to: Square)
    ensures FirstTo(moves, to).Some? <==> to in Destinations(moves)
    ensures FirstTo(moves, to).Some? ==> FirstTo(moves, to).value in moves && FirstTo(moves, to).value.to == to
    decreases |moves|
  {
    if |moves| > 0 {
      assert moves == [moves[0]] + moves[1..];
      assert Destinations(moves) == {moves[0].to} + Destinations(moves[1..]);
      FirstToDestination(moves[1..], to);
    }
  }
}
