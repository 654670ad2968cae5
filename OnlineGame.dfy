/**
 * The online-game hook (src/hooks/useOnlineGame.ts): how a poll or move
 * response is folded into the client's view of the game, the side to move
 * read from the FEN, the replay of the opponent's move on the local board,
 * the token the client keeps, and the guard in front of a move request.
 * The network exchange itself is a parameter: the response, or the failure,
 * of the request.
 */
module OnlineGame {
  import opened Wrappers
  import opened Squares
  import opened Rules
  import opened PlayerAuth
  import CR = ChessReducer

  /** The last move a response reports. */
  datatype LastMove = LastMove(from: Square, to: Square, promotion: Option<PieceType>)

  /** `LongPollResponse`, the fields the hook reads; an absent field is None. */
  datatype PollResponse = PollResponse(
    success: bool,
    gameStatus: Option<string>,
    fenPosition: Option<string>,
    lastMove: Option<LastMove>,
    error: Option<string>,
    playerTurn: Option<bool>,
    checkmate: Option<bool>,
    draw: Option<bool>,
    winner: Option<string>,
    newToken: Option<string>,
    opponentConnected: Option<bool>)

  /** `OnlineGameState`. */
  datatype ViewState = ViewState(
    status: string,
    playerColor: Option<Color>,
    playerRole: Role,
    isPlayerTurn: bool,
    currentTurn: Color,
    lastMove: Option<LastMove>,
    opponentConnected: bool,
    error: Option<string>,
    isCheckmate: bool,
    isDraw: bool,
    winner: Option<string>,
    playerId: Option<string>)

  const InitialView := ViewState("connecting", Some(White), Spectator, false, White, None, false, None, false, false, None, None)

  /** A string field is truthy when present and not empty. */
  predicate Truthy(o: Option<string>) {
    o.Some? && o.value != ""
  }

  /** The position of the first `sep` in `s`. */
  function IndexOf(s: string, sep: char): (i: nat)
    requires sep in s
    ensures i < |s| && s[i] == sep && sep !in s[..i]
  {
    if s[0] == sep then 0
    else
      assert sep in s[1..] by { var k :| 0 <= k < |s| && s[k] == sep; assert s[1..][k - 1] == sep; }
      var j := IndexOf(s[1..], sep);
      assert s[..j + 1] == [s[0]] + s[1..][..j];
      j + 1
  }

  /** Puts the parts back together with `sep` between them. */
  function Join(parts: seq<string>, sep: char): string
    requires |parts| >= 1
    decreases |parts|
  {
    if |parts| == 1 then parts[0] else parts[0] + [sep] + Join(parts[1..], sep)
  }

  /** `String.prototype.split` on one character: every piece between separators, empty
      pieces included, so there is always at least one. */
  function Split(s: string, sep: char): (parts: seq<string>)
    ensures |parts| >= 1
    ensures forall i :: 0 <= i < |parts| ==> sep !in parts[i]
    ensures Join(parts, sep) == s
    decreases |s|
  {
    if sep !in s then [s]
    else
      var i := IndexOf(s, sep);
      var rest := Split(s[i + 1..], sep);
      assert s == s[..i] + [sep] + s[i + 1..];
      [s[..i]] + rest
  }

  /** Splitting undoes joining pieces free of the separator. */
  lemma {:induction false} SplitJoin(parts: seq<string>, sep: char)
    requires |parts| >= 1 && forall i :: 0 <= i < |parts| ==> sep !in parts[i]
    ensures Split(Join(parts, sep), sep) == parts
    decreases |parts|
  {
    if |parts| > 1 {
      var tail := Join(parts[1..], sep);
      var s := parts[0] + [sep] + tail;
      assert s[|parts[0]|] == sep;
      assert sep in s;
      FirstSeparator(parts[0], sep, tail);
      assert s[..|parts[0]|] == parts[0];
      assert s[|parts[0]| + 1..] == tail;
      SplitJoin(parts[1..], sep);
      assert parts == [parts[0]] + parts[1..];
    }
  }

  lemma FirstSeparator(a: string, sep: char, b: string)
    requires sep !in a
    ensures sep in a + [sep] + b && IndexOf(a + [sep] + b, sep) == |a|
  {
    var s := a + [sep] + b;
    assert s[|a|] == sep;
    assert s[..|a|] == a;
  }

  /** The side to move the hook shows: white unless the FEN has a second space-separated
      field, and then white exactly when that field is "w". */
  function SideToMove(fenPosition: Option<string>): (c: Color)
    ensures !Truthy(fenPosition) ==> c == White
    ensures Truthy(fenPosition) ==>
      var parts := Split(fenPosition.value, ' ');
      c == if |parts| > 1 && parts[1] != "w" then Black else White
  {
    if !Truthy(fenPosition) then White
    else
      var fenParts := Split(fenPosition.value, ' ');
      if |fenParts| > 1 then (if fenParts[1] == "w" then White else Black)
      else White
  }

  /** A FEN whose fields carry no space reads as its second field, the active colour, says. */
  lemma SideToMoveOfFen(fields: seq<string>)
    requires |fields| >= 2 && fields[0] != ""
    requires forall i :: 0 <= i < |fields| ==> ' ' !in fields[i]
    ensures SideToMove(Some(Join(fields, ' '))) == if fields[1] == "w" then White else Black
  {
    SplitJoin(fields, ' ');
    var fen := Join(fields, ' ');
    assert fen == fields[0] + [' '] + Join(fields[1..], ' ');
    SideToMoveOfSplit(fen, fields);
  }

  lemma SideToMoveOfSplit(fen: string, parts: seq<string>)
    requires fen != "" && Split(fen, ' ') == parts && |parts| > 1
    ensures SideToMove(Some(fen)) == if parts[1] == "w" then White else Black
  {
  }

  /** A position string without a space (or no position at all) shows white to move. */
  lemma SideToMoveWithoutFields(fenPosition: Option<string>)
    requires fenPosition.Some? ==> ' ' !in fenPosition.value
    ensures SideToMove(fenPosition) == White
  {
  }

  /** The `setGameState` updater of `handleGameUpdate`. */
  function Merge(prev: ViewState, data: PollResponse): (next: ViewState)
    ensures next.playerColor == prev.playerColor && next.playerRole == prev.playerRole && next.playerId == prev.playerId
    ensures next.currentTurn == SideToMove(data.fenPosition)
  {
    prev.(
      status := if Truthy(data.gameStatus) then data.gameStatus.value else prev.status,
      lastMove := if data.lastMove.Some? then data.lastMove else prev.lastMove,
      isPlayerTurn := data.playerTurn.GetOr(prev.isPlayerTurn),
      currentTurn := SideToMove(data.fenPosition),
      opponentConnected := data.opponentConnected.GetOr(prev.opponentConnected),
      error := if Truthy(data.error) then data.error else None,
      isCheckmate := data.checkmate == Some(true),
      isDraw := data.draw == Some(true),
      winner := if Truthy(data.winner) then data.winner else None)
  }

  /** Status, last move, turn flag and opponent presence keep their previous value when the
      response does not carry them. */
  lemma MergeFallsBack(prev: ViewState, data: PollResponse)
    ensures !Truthy(data.gameStatus) ==> Merge(prev, data).status == prev.status
    ensures data.lastMove.None? ==> Merge(prev, data).lastMove == prev.lastMove
    ensures data.playerTurn.None? ==> Merge(prev, data).isPlayerTurn == prev.isPlayerTurn
    ensures data.opponentConnected.None? ==> Merge(prev, data).opponentConnected == prev.opponentConnected
  {
  }

  /** Error, mate, draw and winner are reset when the response does not carry them. */
  lemma MergeResets(prev: ViewState, data: PollResponse)
    ensures !Truthy(data.error) ==> Merge(prev, data).error.None?
    ensures data.checkmate != Some(true) ==> !Merge(prev, data).isCheckmate
    ensures data.draw != Some(true) ==> !Merge(prev, data).isDraw
    ensures !Truthy(data.winner) ==> Merge(prev, data).winner.None?
  {
  }

  /** A field the response does carry wins over the previous value. */
  lemma MergeTakesPresent(prev: ViewState, data: PollResponse)
    ensures Truthy(data.gameStatus) ==> Merge(prev, data).status == data.gameStatus.value
    ensures data.lastMove.Some? ==> Merge(prev, data).lastMove == data.lastMove
    ensures data.playerTurn.Some? ==> Merge(prev, data).isPlayerTurn == data.playerTurn.value
    ensures data.opponentConnected.Some? ==> Merge(prev, data).opponentConnected == data.opponentConnected.value
    ensures Truthy(data.error) ==> Merge(prev, data).error == data.error
    ensures Truthy(data.winner) ==> Merge(prev, data).winner == data.winner
    ensures data.checkmate == Some(true) ==> Merge(prev, data).isCheckmate
    ensures data.draw == Some(true) ==> Merge(prev, data).isDraw
  {
  }

  /** Delivering the same response twice changes nothing the second time. */
  lemma MergeIdempotent(prev: ViewState, data: PollResponse)
    ensures Merge(Merge(prev, data), data) == Merge(prev, data)
  {
  }

  /** The chess-context dispatches of `handleGameUpdate`: the reported move is played on the
      local board only when the response says it is now this player's turn, that is, when
      the opponent made it; a promotion choice follows as a second action. */
  function Replay(engine: Engine, capturedOf: Fen -> CR.CapturedPieces, board: CR.GameState, data: PollResponse): (r: CR.GameState)
    ensures !(data.lastMove.Some? && data.playerTurn == Some(true)) ==> r == board
    ensures CR.Consistent(board) ==> CR.Consistent(r)
  {
    if data.lastMove.Some? && data.playerTurn == Some(true) then
      var lastMove := data.lastMove.value;
      var moved := CR.Reduce(engine, capturedOf, board, CR.Action.MakeMove(lastMove.from, lastMove.to));
      if lastMove.promotion.Some? then CR.Reduce(engine, capturedOf, moved, CR.Action.CompletePromotion(lastMove.promotion.value))
      else moved
    else board
  }

  /** A promoting opponent move ends with no promotion left pending on the local board. */
  lemma ReplayedPromotionSettles(engine: Engine, capturedOf: Fen -> CR.CapturedPieces, board: CR.GameState, data: PollResponse)
    requires data.lastMove.Some? && data.playerTurn == Some(true) && data.lastMove.value.promotion.Some?
    requires CR.IsPawnPromotion(engine, board.fenString, data.lastMove.value.from, data.lastMove.value.to)
    ensures Replay(engine, capturedOf, board, data).pendingPromotion.None?
  {
    var moved := CR.Reduce(engine, capturedOf, board, CR.Action.MakeMove(data.lastMove.value.from, data.lastMove.value.to));
    assert moved.pendingPromotion.Some?;
  }

  /** How a move request ended: a response, or a thrown value (an `Error` carries its message). */
  datatype MoveReply = Answered(response: PollResponse) | Thrown(message: Option<string>)

  /** The error the hook shows after a failed move request. */
  function FailureMessage(reply: MoveReply): (msg: string)
    ensures reply.Answered? && Truthy(reply.response.error) ==> msg == reply.response.error.value
    ensures reply.Answered? && !Truthy(reply.response.error) ==> msg == "Failed to make move"
    ensures reply.Thrown? && reply.message.Some? ==> msg == reply.message.value
    ensures reply.Thrown? && reply.message.None? ==> msg == "Failed to make move"
  {
    match reply
    case Answered(response) => if Truthy(response.error) then response.error.value else "Failed to make move"
    case Thrown(message) => message.GetOr("Failed to make move")
  }

  /** The hook's state: the view, the token it holds, and the chess context it dispatches into. */
  class Client {
    var view: ViewState
    var playerToken: Option<Token>
    var board: CR.GameState

    constructor(engine: Engine)
      ensures view == InitialView && playerToken.None? && board == CR.CreateInitialState(engine)
    {
      view := InitialView;
      playerToken := None;
      board := CR.CreateInitialState(engine);
    }

    /** The guard of `makeMove`: a token to send and the player's turn. */
    predicate MaySend()
      reads this
    {
      Truthy(playerToken) && view.isPlayerTurn
    }

    /** `handleGameUpdate`: replay, merge, then take a new token when one is given. */
    method HandleGameUpdate(engine: Engine, capturedOf: Fen -> CR.CapturedPieces, data: PollResponse)
      modifies this
      ensures board == Replay(engine, capturedOf, old(board), data)
      ensures view == Merge(old(view), data)
      ensures playerToken == if Truthy(data.newToken) then data.newToken else old(playerToken)
    {
      board := Replay(engine, capturedOf, board, data);
      view := Merge(view, data);
      if Truthy(data.newToken) {
        playerToken := data.newToken;
      }
    }

    /**
     * `makeMove`: refused without a request when there is no token or it is not
     * the player's turn. A successful reply is merged as not this player's turn,
     * so the move is not replayed on the local board; a failure gives the turn
     * back and shows the error.
     */
    method MakeMove(engine: Engine, capturedOf: Fen -> CR.CapturedPieces, reply: MoveReply) returns (sent: bool)
      modifies this
      ensures !old(MaySend()) ==> !sent && unchanged(this)
      ensures old(MaySend()) && reply.Answered? && reply.response.success ==>
        && sent
        && view == Merge(old(view), reply.response.(playerTurn := Some(false)))
        && !view.isPlayerTurn
        && board == old(board)
        && playerToken == if Truthy(reply.response.newToken) then reply.response.newToken else old(playerToken)
      ensures old(MaySend()) && !(reply.Answered? && reply.response.success) ==>
        && !sent
        && view == old(view).(isPlayerTurn := true, error := Some(FailureMessage(reply)))
        && board == old(board) && playerToken == old(playerToken)
    {
      if !Truthy(playerToken) || !view.isPlayerTurn {
        return false;
      }
      if reply.Answered? && reply.response.success {
        HandleGameUpdate(engine, capturedOf, reply.response.(playerTurn := Some(false)));
        return true;
      }
      view := view.(isPlayerTurn := true, error := Some(FailureMessage(reply)));
      return false;
    }
  }
}
