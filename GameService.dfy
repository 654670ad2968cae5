/**
 * The game session service (src/lib/game/chess-game-service.ts): creating,
 * joining and spectating games, and the guarded move operation. The rules
 * engine, the token signer, fresh identifiers and the clock are parameters;
 * the store is the `GameStore.Store` object the operations update.
 */
module GameService {
  import opened Wrappers
  import opened Squares
  import opened Rules
  import opened PlayerAuth
  import opened GameStore

  datatype NewGame = NewGame(gameId: string, playerToken: Token, playerId: string)

  datatype Joined = Joined(playerToken: Token, playerId: string)

  /** The answers of `makeMove`: a rejection with its error, a loss on time, an accepted
      move, or an exception that escapes it. */
  datatype MoveOutcome =
    | Rejected(error: string)
    | TimeExpired(expiredResult: Winner)
    | Accepted(newFen: Fen, isGameOver: bool, gameResult: Option<Winner>, newToken: Token)
    | Raised(message: string)

  /** The seconds added to the time control when the mover's token is rotated. */
  const MoveTimeBuffer: int := 1

  /** `secondPlayerId` is truthy: present and not empty. */
  predicate HasSecondPlayer(g: GameData) {
    g.secondPlayerId.Some? && g.secondPlayerId.value != ""
  }

  /** The winner when the clock has run out: the colour opposite the token's, white when the
      token carries none. */
  function ExpiryWinner(loser: Option<Color>): (w: Color)
    ensures loser.Some? ==> w == Opposite(loser.value)
    ensures loser.None? ==> w == White
  {
    if loser == Some(White) then Black else White
  }

  /** The result of the position after a move: the mover wins on checkmate, else a draw
      ends the game, else it goes on. */
  function GameResult(engine: Engine, after: Fen, mover: Color): Option<Winner> {
    if engine.isCheckmate(after) then Some(Won(mover))
    else if engine.isDraw(after) then Some(Draw)
    else None
  }

  /** The record after a move ends (or does not end) the game, as `updateGameStatus`
      then `updateGameFen` leave it. */
  function AfterMove(g: GameData, after: Fen, result: Option<Winner>, nowMs: int): GameData {
    if result.Some? then g.(status := Completed, winner := result, endDate := Some(nowMs), currentFen := after)
    else g.(currentFen := after)
  }

  /** What `makeMove` decides before it writes anything. */
  datatype Verdict =
    | Refuse(error: string)
    | Expire(gameId: string, winner: Color)
    | Apply(gameId: string, mover: Color, after: Fen, result: Option<Winner>)

  /** The guards of `makeMove` that read the stored game: it exists, it is active, the
      token's colour is the side to move, and the engine accepts the move. */
  predicate Playable(games: map<string, GameData>, engine: Engine, claims: Claims,
                     from: string, to: string, promotion: Option<string>) {
    && claims.gameId in games
    && games[claims.gameId].status == Active
    && claims.playerColor == Some(engine.turn(games[claims.gameId].currentFen))
    && IsSquare(from) && IsSquare(to)
    && engine.move(games[claims.gameId].currentFen, from, to, promotion).Some?
  }

  /** All the conditions under which `makeMove` applies a move. */
  predicate Admits(games: map<string, GameData>, s: Signer, engine: Engine, token: Token,
                   from: string, to: string, promotion: Option<string>, nowMs: nat) {
    && VerifyPlayerToken(s, token).Some?
    && !HasMoveTimeExpired(s, token, nowMs)
    && Playable(games, engine, VerifyPlayerToken(s, token).value, from, to, promotion)
  }

  /** The part of the guard chain after the clock: the game's existence, its status,
      the side to move, and the rules engine. */
  function Rule(games: map<string, GameData>, engine: Engine, claims: Claims,
                from: string, to: string, promotion: Option<string>): (v: Verdict)
    ensures !v.Expire?
    ensures claims.gameId !in games ==> v == Refuse("Game not found")
    ensures claims.gameId in games && games[claims.gameId].status != Active ==>
      v == Refuse("Game is not active")
    ensures claims.gameId in games && games[claims.gameId].status == Active
            && claims.playerColor != Some(engine.turn(games[claims.gameId].currentFen)) ==>
      v == Refuse("Not your turn")
    ensures claims.gameId in games && games[claims.gameId].status == Active
            && claims.playerColor == Some(engine.turn(games[claims.gameId].currentFen))
            && !Playable(games, engine, claims, from, to, promotion) ==>
      v == Refuse("Invalid move")
    ensures v.Apply? <==> Playable(games, engine, claims, from, to, promotion)
    ensures v.Apply? ==>
      var game := games[claims.gameId];
      && v.gameId == claims.gameId
      && v.mover == engine.turn(game.currentFen)
      && v.after == engine.move(game.currentFen, from, to, promotion).value.after
      && v.result == GameResult(engine, v.after, v.mover)
  {
    var gameId := claims.gameId;
    if gameId !in games then Refuse("Game not found")
    else if games[gameId].status != Active then Refuse("Game is not active")
    else
      var currentTurn := engine.turn(games[gameId].currentFen);
      if claims.playerColor != Some(currentTurn) then Refuse("Not your turn")
      else if !IsSquare(from) || !IsSquare(to) then Refuse("Invalid move")
      else
        var moveResult := engine.move(games[gameId].currentFen, from, to, promotion);
        if moveResult.None? then Refuse("Invalid move")
        else Apply(gameId, currentTurn, moveResult.value.after, GameResult(engine, moveResult.value.after, currentTurn))
  }

  /**
   * The chain of guards of `makeMove`: the token, then the clock (before the
   * store is consulted), then `Rule`.
   */
  function Judge(games: map<string, GameData>, s: Signer, engine: Engine, token: Token,
                 from: string, to: string, promotion: Option<string>, nowMs: nat): (v: Verdict)
    ensures VerifyPlayerToken(s, token).None? ==> v == Refuse("Invalid token")
    ensures v.Expire? <==> VerifyPlayerToken(s, token).Some? && HasMoveTimeExpired(s, token, nowMs)
    ensures v.Expire? ==>
      v == Expire(VerifyPlayerToken(s, token).value.gameId, ExpiryWinner(VerifyPlayerToken(s, token).value.playerColor))
    ensures v.Apply? <==> Admits(games, s, engine, token, from, to, promotion, nowMs)
    ensures v.Apply? ==>
      var claims := VerifyPlayerToken(s, token).value;
      var game := games[claims.gameId];
      && v.gameId == claims.gameId
      && v.mover == engine.turn(game.currentFen)
      && v.after == engine.move(game.currentFen, from, to, promotion).value.after
      && v.result == GameResult(engine, v.after, v.mover)
  {
    var tokenData := VerifyPlayerToken(s, token);
    if tokenData.None? then Refuse("Invalid token")
    else if HasMoveTimeExpired(s, token, nowMs) then
      Expire(tokenData.value.gameId, ExpiryWinner(tokenData.value.playerColor))
    else Rule(games, engine, tokenData.value, from, to, promotion)
  }

  /** The clock is checked before the store is read: an expired token gets the same
      verdict whatever the stored games are. */
  lemma ClockBeforeStore(games1: map<string, GameData>, games2: map<string, GameData>, s: Signer, engine: Engine,
                         token: Token, from: string, to: string, promotion: Option<string>, nowMs: nat)
    requires HasMoveTimeExpired(s, token, nowMs)
    ensures Judge(games1, s, engine, token, from, to, promotion, nowMs) == Judge(games2, s, engine, token, from, to, promotion, nowMs)
  {
  }

  /**
   * At most one accepted move per turn: when the engine passes the turn after
   * a move, a second request that carries the same colour (the same token, or
   * its rotation) is refused once the first move is stored.
   */
  lemma OneMovePerTurn(games: map<string, GameData>, s: Signer, engine: Engine, token: Token,
                       from: string, to: string, promotion: Option<string>, nowMs: nat,
                       token2: Token, from2: string, to2: string, promotion2: Option<string>, nowMs2: nat)
    requires Judge(games, s, engine, token, from, to, promotion, nowMs).Apply?
    requires
      var v := Judge(games, s, engine, token, from, to, promotion, nowMs);
      engine.turn(v.after) == Opposite(v.mover)
    requires VerifyPlayerToken(s, token2).Some?
    requires VerifyPlayerToken(s, token2).value.gameId == VerifyPlayerToken(s, token).value.gameId
    requires VerifyPlayerToken(s, token2).value.playerColor == VerifyPlayerToken(s, token).value.playerColor
    ensures
      var v := Judge(games, s, engine, token, from, to, promotion, nowMs);
      var stored := games[v.gameId := AfterMove(games[v.gameId], v.after, v.result, nowMs)];
      !Judge(stored, s, engine, token2, from2, to2, promotion2, nowMs2).Apply?
  {
    var v := Judge(games, s, engine, token, from, to, promotion, nowMs);
    var stored := games[v.gameId := AfterMove(games[v.gameId], v.after, v.result, nowMs)];
    OppositeInvolutive(v.mover);
    assert stored[v.gameId].currentFen == v.after;
  }

  /**
   * `createNewGame`: stores a waiting game at the initial position with the
   * first player's fresh id, no second player, winner or end date, and
   * returns a role-first token with the creator's colour and the whole
   * time-control budget.
   */
  method CreateNewGame(store: Store, s: Signer, timeControl: int, firstPlayerId: string, gameId: string,
                       nowMs: nat, firstPlayerColor: Color := White) returns (r: NewGame)
    requires store.Valid() && s.Sound() && gameId !in store.games
    modifies store
    ensures store.Valid() && (old(store.Tracks()) ==> store.Tracks())
    ensures r.gameId == gameId && r.playerId == firstPlayerId
    ensures store.games == old(store.games)[gameId :=
              GameData(gameId, InitialFen, nowMs, None, firstPlayerColor, Some(firstPlayerId), None, Waiting, None, timeControl)]
    ensures store.gamesList == [gameId] + old(store.gamesList)
    ensures store.waiting == old(store.waiting) + {gameId} && store.active == old(store.active)
    ensures store.completed == old(store.completed) && store.turns == old(store.turns) && store.turnIndex == old(store.turnIndex)
    ensures VerifyPlayerToken(s, r.playerToken) ==
              Some(Claims(gameId, firstPlayerId, Some(firstPlayerColor), First, Seconds(nowMs), Some(timeControl),
                          None, Some(Seconds(nowMs) + TokenLifetime)))
  {
    var gameData := GameData("", InitialFen, nowMs, None, firstPlayerColor, Some(firstPlayerId), None, Waiting, None, timeControl);
    var id := store.CreateGame(gameData, gameId);
    assert store.active == old(store.active);
    var playerToken := GeneratePlayerJoinToken(s, id, true, timeControl, firstPlayerColor, firstPlayerId, nowMs);
    r := NewGame(id, playerToken, firstPlayerId);
  }

  /**
   * `joinGame`: refuses a missing game, a game that is not waiting and a game
   * that already has a second player, changing nothing; otherwise records the
   * fresh second player, makes the game active and returns a role-second
   * token with the colour opposite the creator's.
   */
  method JoinGame(store: Store, s: Signer, gameId: string, secondPlayerId: string, nowMs: nat)
    returns (r: Result<Joined, string>)
    requires store.Valid() && s.Sound()
    modifies store
    ensures store.Valid() && (old(store.Tracks()) ==> store.Tracks())
    ensures gameId !in old(store.games) ==> r == Failure("Game not found") && unchanged(store)
    ensures gameId in old(store.games) && old(store.games)[gameId].status != Waiting ==>
              r == Failure("Game is not in waiting status") && unchanged(store)
    ensures gameId in old(store.games) && old(store.games)[gameId].status == Waiting && HasSecondPlayer(old(store.games)[gameId]) ==>
              r == Failure("Game already has a second player") && unchanged(store)
    ensures r.Success? <==>
              gameId in old(store.games) && old(store.games)[gameId].status == Waiting && !HasSecondPlayer(old(store.games)[gameId])
    ensures r.Success? ==>
      var g := old(store.games)[gameId];
      && r.value.playerId == secondPlayerId
      && store.games == old(store.games)[gameId := g.(secondPlayerId := Some(secondPlayerId), status := Active)]
      && store.waiting == old(store.waiting) - {gameId} && store.active == old(store.active) + {gameId}
      && store.completed == old(store.completed) && store.gamesList == old(store.gamesList)
      && store.turns == old(store.turns) && store.turnIndex == old(store.turnIndex)
      && VerifyPlayerToken(s, r.value.playerToken) ==
           Some(Claims(gameId, secondPlayerId, Some(Opposite(g.firstPlayerColor)), Second, Seconds(nowMs),
                       Some(g.timeControl), None, Some(Seconds(nowMs) + TokenLifetime)))
  {
    var game := store.GetGame(gameId);
    if game.None? {
      return Failure("Game not found");
    }
    if game.value.status != Waiting {
      return Failure("Game is not in waiting status");
    }
    if HasSecondPlayer(game.value) {
      return Failure("Game already has a second player");
    }
    var _ := store.UpdateGame(gameId, GamePatch(None, Some(secondPlayerId), Some(Active)), nowMs);
    assert store.waiting == old(store.waiting) - {gameId};
    assert store.active == old(store.active) + {gameId};
    assert store.completed == old(store.completed);
    var playerToken := GeneratePlayerJoinToken(s, gameId, false, game.value.timeControl, game.value.firstPlayerColor, secondPlayerId, nowMs);
    r := Success(Joined(playerToken, secondPlayerId));
  }

  /** `spectateGame`: a spectator token for an existing game, "Game not found" otherwise. */
  method SpectateGame(store: Store, s: Signer, gameId: string, spectatorId: string, nowMs: nat)
    returns (r: Result<Token, string>)
    requires s.Sound()
    ensures gameId !in store.games ==> r == Failure("Game not found")
    ensures gameId in store.games ==>
      r.Success? && VerifyPlayerToken(s, r.value) ==
        Some(Claims(gameId, spectatorId, None, Spectator, Seconds(nowMs), None, None, Some(Seconds(nowMs) + TokenLifetime)))
  {
    var game := store.GetGame(gameId);
    if game.None? {
      return Failure("Game not found");
    }
    r := Success(GenerateSpectatorToken(s, gameId, spectatorId, nowMs));
  }

  /** The store after a loss on time: the game is completed with `winner` and ended now,
      it has left the waiting or active set it was in and joined the completed set, and
      nothing else has changed. */
  twostate predicate Forfeited(store: Store, gameId: string, winner: Color, nowMs: nat)
    reads store
  {
    && gameId in old(store.games)
    && var g := old(store.games)[gameId];
    && store.games == old(store.games)[gameId := g.(status := Completed, winner := Some(Won(winner)), endDate := Some(nowMs))]
    && store.waiting == Moved(old(store.waiting), gameId, g.status == Waiting, false)
    && store.active == Moved(old(store.active), gameId, g.status == Active, false)
    && store.completed == old(store.completed) + {gameId}
    && store.gamesList == old(store.gamesList) && store.turns == old(store.turns) && store.turnIndex == old(store.turnIndex)
  }

  /** The store after an accepted move: the game holds the new position (and is completed
      when `result` ends it), exactly one turn by `mover` was added under `turnId` and
      indexed for that game only, and nothing else has changed. */
  twostate predicate Recorded(store: Store, gameId: string, mover: Color, after: Fen, result: Option<Winner>,
                              from: string, to: string, promotion: Option<string>, turnId: string, nowMs: nat)
    reads store
  {
    && gameId in old(store.games)
    && store.games == old(store.games)[gameId := AfterMove(old(store.games)[gameId], after, result, nowMs)]
    && store.turns == old(store.turns)[turnId := TurnData(turnId, gameId, from, to, nowMs, mover, promotion)]
    && Members(store.IndexOf(gameId)) == Members(old(store.IndexOf(gameId))) + {turnId}
    && (forall id :: id != gameId ==> store.IndexOf(id) == old(store.IndexOf(id)))
    && store.gamesList == old(store.gamesList)
    && (result.Some? ==>
          store.waiting == old(store.waiting) && store.active == old(store.active) - {gameId}
          && store.completed == old(store.completed) + {gameId})
    && (result.None? ==>
          store.waiting == old(store.waiting) && store.active == old(store.active)
          && store.completed == old(store.completed))
  }

  /**
   * `makeMove`, proved against the guard chain of `Judge` (the token, the
   * clock, then `Rule`): a refusal changes nothing; a loss on
   * time completes the token's game with the opponent as winner (or lets the
   * store's "not found" error escape); an applied move finishes the game on
   * checkmate or draw, stores the new position, records exactly one turn for
   * the mover under the fresh id `turnId`, and returns the mover's token
   * rotated with the time control plus the buffer.
   */
  method MakeMove(store: Store, s: Signer, engine: Engine, token: Token, from: string, to: string,
                  promotion: Option<string>, turnId: string, nowMs: nat) returns (r: MoveOutcome)
    requires store.Valid() && s.Sound() && turnId !in store.turns
    modifies store
    ensures store.Valid() && (old(store.Tracks()) ==> store.Tracks())
    ensures VerifyPlayerToken(s, token).None? ==> r == Rejected("Invalid token") && unchanged(store)
    ensures VerifyPlayerToken(s, token).Some? && HasMoveTimeExpired(s, token, nowMs) ==>
      var claims := VerifyPlayerToken(s, token).value;
      if claims.gameId !in old(store.games) then
        r == Raised("Game with ID " + claims.gameId + " not found") && unchanged(store)
      else
        r == TimeExpired(Won(ExpiryWinner(claims.playerColor))) && Forfeited(store, claims.gameId, ExpiryWinner(claims.playerColor), nowMs)
    ensures VerifyPlayerToken(s, token).Some? && !HasMoveTimeExpired(s, token, nowMs) ==>
      match Rule(old(store.games), engine, VerifyPlayerToken(s, token).value, from, to, promotion)
      case Refuse(error) =>
        r == Rejected(error) && unchanged(store)
      case Expire(_, _) => false
      case Apply(gameId, mover, after, result) =>
        && r == Accepted(after, result.Some?, result,
                         UpdatePlayerMoveTime(s, token, old(store.games)[gameId].timeControl + MoveTimeBuffer, nowMs).value)
        && Recorded(store, gameId, mover, after, result, from, to, promotion, turnId, nowMs)
  {
    var tokenData := VerifyPlayerToken(s, token);
    if tokenData.None? {
      return Rejected("Invalid token");
    }
    var claims := tokenData.value;

    if HasMoveTimeExpired(s, token, nowMs) {
      r := ForfeitOnTime(store, claims.gameId, ExpiryWinner(claims.playerColor), nowMs);
      return;
    }

    r := PlayInGame(store, s, engine, token, from, to, promotion, turnId, nowMs);
  }

  /**
   * The steps of `makeMove` after the clock, proved against `Rule`: a refusal
   * changes nothing; an applied move is recorded by `RecordMove`, and the
   * mover's token is rotated with the time control of the game as it was read
   * before any write.
   */
  method PlayInGame(store: Store, s: Signer, engine: Engine, token: Token, from: string, to: string,
                    promotion: Option<string>, turnId: string, nowMs: nat) returns (r: MoveOutcome)
    requires store.Valid() && s.Sound() && turnId !in store.turns && VerifyPlayerToken(s, token).Some?
    modifies store
    ensures store.Valid() && (old(store.Tracks()) ==> store.Tracks())
    ensures
      match Rule(old(store.games), engine, VerifyPlayerToken(s, token).value, from, to, promotion)
      case Refuse(error) =>
        r == Rejected(error) && unchanged(store)
      case Expire(_, _) => false
      case Apply(gameId, mover, after, result) =>
        && r == Accepted(after, result.Some?, result,
                         UpdatePlayerMoveTime(s, token, old(store.games)[gameId].timeControl + MoveTimeBuffer, nowMs).value)
        && Recorded(store, gameId, mover, after, result, from, to, promotion, turnId, nowMs)
  {
    var claims := VerifyPlayerToken(s, token).value;
    var gameId := claims.gameId;
    var game := store.GetGame(gameId);
    if game.None? {
      return Rejected("Game not found");
    }
    if game.value.status != Active {
      return Rejected("Game is not active");
    }
    var currentTurn := engine.turn(game.value.currentFen);
    if claims.playerColor != Some(currentTurn) {
      return Rejected("Not your turn");
    }
    if !IsSquare(from) || !IsSquare(to) {
      return Rejected("Invalid move");
    }
    var moveResult := engine.move(game.value.currentFen, from, to, promotion);
    if moveResult.None? {
      return Rejected("Invalid move");
    }
    var newFen := moveResult.value.after;
    var gameResult := GameResult(engine, newFen, currentTurn);
    RecordMove(store, gameId, from, to, promotion, currentTurn, newFen, gameResult, turnId, nowMs);
    var newToken := UpdatePlayerMoveTime(s, token, game.value.timeControl + MoveTimeBuffer, nowMs);
    r := Accepted(newFen, gameResult.Some?, gameResult, newToken.value);
  }

  /**
   * The loss on time: `updateGameStatus` completes the game with the
   * opponent as winner; its "not found" error is not caught.
   */
  method ForfeitOnTime(store: Store, gameId: string, winner: Color, nowMs: nat) returns (r: MoveOutcome)
    requires store.Valid()
    modifies store
    ensures store.Valid() && (old(store.Tracks()) ==> store.Tracks())
    ensures gameId !in old(store.games) ==> r == Raised("Game with ID " + gameId + " not found") && unchanged(store)
    ensures gameId in old(store.games) ==> r == TimeExpired(Won(winner)) && Forfeited(store, gameId, winner, nowMs)
  {
    var status := store.UpdateGameStatus(gameId, Completed, Some(Won(winner)), nowMs);
    if status.Fail? {
      return Raised(status.error);
    }
    assert store.completed == old(store.completed) + {gameId};
    r := TimeExpired(Won(winner));
  }

  /**
   * The writes of an accepted move: completing the game when the move ends it
   * (`updateGameStatus`), storing the new position (`updateGameFen`) and
   * recording the turn (`createTurn`).
   */
  method RecordMove(store: Store, gameId: string, from: string, to: string, promotion: Option<string>,
                    mover: Color, after: Fen, result: Option<Winner>, turnId: string, nowMs: nat)
    requires store.Valid() && gameId in store.games && store.games[gameId].status == Active && turnId !in store.turns
    modifies store
    ensures store.Valid() && (old(store.Tracks()) ==> store.Tracks())
    ensures Recorded(store, gameId, mover, after, result, from, to, promotion, turnId, nowMs)
  {
    EndIfOver(store, gameId, result, nowMs);
    StorePosition(store, gameId, after, TurnData("", gameId, from, to, nowMs, mover, promotion), turnId);
  }

  /** `updateGameFen` then `createTurn` for the game of the turn. */
  method StorePosition(store: Store, gameId: string, after: Fen, turnData: TurnData, turnId: string)
    requires store.Valid() && gameId in store.games && turnData.gameId == gameId && turnId !in store.turns
    modifies store
    ensures store.Valid() && (old(store.Tracks()) ==> store.Tracks())
    ensures store.games == old(store.games)[gameId := old(store.games)[gameId].(currentFen := after)]
    ensures store.turns == old(store.turns)[turnId := turnData.(id := turnId)]
    ensures Members(store.IndexOf(gameId)) == Members(old(store.IndexOf(gameId))) + {turnId}
    ensures forall id :: id != gameId ==> store.IndexOf(id) == old(store.IndexOf(id))
    ensures store.gamesList == old(store.gamesList)
    ensures store.waiting == old(store.waiting) && store.active == old(store.active) && store.completed == old(store.completed)
  {
    store.UpdateGameFen(gameId, after);
    var _ := store.CreateTurn(turnData, turnId);
    MembersInsert(old(store.IndexOf(gameId)), Entry(turnData.createTime, turnId));
  }

  /** The `updateGameStatus` call of an accepted move, made only when the move ends the game. */
  method EndIfOver(store: Store, gameId: string, result: Option<Winner>, nowMs: nat)
    requires store.Valid() && gameId in store.games && store.games[gameId].status == Active
    modifies store
    ensures store.Valid() && (old(store.Tracks()) ==> store.Tracks())
    ensures result.None? ==> unchanged(store)
    ensures result.Some? ==>
      && store.games == old(store.games)[gameId := old(store.games)[gameId].(status := Completed, winner := result, endDate := Some(nowMs))]
      && store.waiting == old(store.waiting) && store.active == old(store.active) - {gameId}
      && store.completed == old(store.completed) + {gameId}
      && store.gamesList == old(store.gamesList) && store.turns == old(store.turns) && store.turnIndex == old(store.turnIndex)
  {
    if result.Some? {
      var _ := store.UpdateGameStatus(gameId, Completed, result, nowMs);
      assert store.waiting == old(store.waiting) && store.active == old(store.active) - {gameId};
      assert store.completed == old(store.completed) + {gameId};
    }
  }

  /** `findAvailableGames`: the answer of `getWaitingGames`. */
  method FindAvailableGames(store: Store) returns (r: seq<Option<GameData>>, ghost ids: seq<string>)
    ensures NoDuplicates(ids) && (forall id :: id in ids <==> id in store.waiting)
    ensures |r| == |ids| && forall i :: 0 <= i < |r| ==> r[i] == store.Lookup(ids[i])
    ensures store.Tracks() ==> forall i :: 0 <= i < |r| ==> r[i].Some? && r[i].value.status == Waiting
  {
    r, ids := store.GetWaitingGames();
  }
}
