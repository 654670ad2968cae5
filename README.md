# Online chess: a verified model of the game session core

This project models the server and client core of a two-player online chess
application written in TypeScript.

**Server side**
- Players hold signed session tokens that carry their game, colour, role and a per-move time budget (`PlayerAuth`).
- Games and turns are kept in a key-value store with status sets, a games list and one sorted turn index per game (`GameStore.Store`).
- Events are published to a per-game history that long-polling clients read (`EventLog.EventStore`).
- The game service creates, joins and spectates games (`GameService`). It accepts or refuses moves through a fixed chain of guards: the token, the move clock, the game's existence and status, the side to move, and the rules engine.

**Client side**
- A reducer keeps the local board, histories and captured pieces (`ChessReducer`).
- Helpers test highlighted destinations and colour the checkerboard (`BoardFuncs`).
- A hook folds server responses into the view, replays the opponent's move and guards move requests (`OnlineGame`).

**Injected parts**
- The chess rules library is an injected `Rules.Engine`: a record of total functions for the side to move, move application, move lists, piece lookup, loading, the board, check, mate and draw.
- JWT signing is an injected `PlayerAuth.Signer`, whose only law is that verifying a signed payload returns it.
- Fresh identifiers (`crypto.randomUUID`) are parameters required to be unused.
- The clock is a `nowMs` parameter in milliseconds since the epoch.

Module layout follows the source:

| module | source |
|---|---|
| `Squares` | src/utilities/chess.ts |
| `PlayerAuth` | src/lib/auth/player-auth.ts |
| `GameStore` | src/lib/redis/redis-setup.ts |
| `EventLog` | src/lib/redis/redis-pubsub.ts |
| `GameService` | src/lib/game/chess-game-service.ts |
| `ChessReducer` | src/context/ChessContext.tsx |
| `BoardFuncs` | src/components/chess/board/ChessBoardBase.funcs.ts |
| `OnlineGame` | src/hooks/useOnlineGame.ts |
| `Rules`, `Wrappers`, `Decimal` | shared: colours and the rules-engine interface, Option/Result, decimal text of timestamps |

**Imperative code.** The store, the event log and the hook's token and view are classes whose methods update fields. A service operation is a method that `modifies` the store. The cleanup sweep and `parseBoard` are loops with invariants.

**Pure code.** Token logic, square conversion, the reducer's actions, the response merge and the board helpers are functions. Each has lemmas relating it to the others.

**Behaviour of the code worth noting:**
- `createTurn` publishes no `move_made` event.
- `updateGameStatus` never removes a game from the completed set.
- `createGame` never adds one to it.
- `makeMove` asks the rules library about the move before it records anything. A clock that has run out is checked before the game is read.
- On an expired token, `makeMove` completes the game without looking at its status, and `updateGameStatus` has no status guard either. A game that is already completed or aborted is completed again with a new winner and end date: the winner of a checkmated game who later sends a move on an expired token hands the win to the opponent. `GameService.Forfeited` and `GameService.ClockBeforeStore` model this as written.
- `updateGame`, which `joinGame` imports, is not defined among the store functions. It is modelled as a partial field merge that maintains the status sets the way `updateGameStatus` does.

## Model

| member | source | states |
|---|---|---|
| Squares.PositionToAlgebraic | src/utilities/chess.ts:4-8 | for an on-board cell, the square's file index is the column and its rank is 8 minus the row |
| Squares.AlgebraicToPosition | src/utilities/chess.ts:10-14 | the cell of a square is on the board, with column = file index and row = 8 - rank |
| Squares.PositionRoundTrip | src/utilities/chess.ts:4-14 | converting an on-board cell to a square and back gives the cell |
| Squares.SquareRoundTrip | src/utilities/chess.ts:4-14 | converting a square a1..h8 to a cell and back gives the square |
| Rules.Opposite | src/lib/auth/player-auth.ts:97-104 | the opposite colour differs from the given one |
| Rules.OppositeInvolutive | src/lib/auth/player-auth.ts:97-104 | taking the opposite colour twice gives the colour back |
| Rules.PieceLetter | src/types/chess-game.ts:6 | every piece kind is named by one letter, the promotion argument of the rules library |
| Decimal.ParseInt | src/lib/redis/redis-pubsub.ts:55-59 | on text without leading blanks or a sign, which is all the store writes, `parseInt` fails exactly when the text does not start with a digit |
| Decimal.ParseIntOfDigits | src/lib/redis/redis-pubsub.ts:55-59 | a non-empty digit string parses to the number it denotes |
| Decimal.ParseIntOfNatToString | src/lib/redis/redis-pubsub.ts:55-70 | a timestamp written as text by `setLastEventTimestamp` reads back unchanged with `parseInt` |
| PlayerAuth.CreatePlayerToken | src/lib/auth/player-auth.ts:27-35 | the token verifies to the payload; its expiry is kept when present, else set 12 hours after now |
| PlayerAuth.VerifyPlayerToken | src/lib/auth/player-auth.ts:40-48 | a signed payload verifies to itself; failure is None, never an exception |
| PlayerAuth.UpdatePlayerMoveTime | src/lib/auth/player-auth.ts:53-71 | fails with "Invalid token" exactly when the token does not verify; else the new token keeps every claim except the move budget and issue time, sets those two to the new budget and now, and keeps an existing expiry |
| PlayerAuth.HasMoveTimeExpired | src/lib/auth/player-auth.ts:76-85 | never true for a token that does not verify or has no budget; otherwise true exactly when the whole seconds since issue strictly exceed the budget |
| PlayerAuth.GeneratePlayerJoinToken | src/lib/auth/player-auth.ts:90-116 | the claims: role first with the creator's colour or role second with the opposite colour, the time control as budget, issued now, expiring in 12 hours |
| PlayerAuth.GenerateSpectatorToken | src/lib/auth/player-auth.ts:121-134 | the claims: role spectator, no colour, no move budget |
| PlayerAuth.JoinTokensHaveOppositeColors | src/lib/auth/player-auth.ts:97-104 | the first and second players' tokens of a game carry different colours |
| PlayerAuth.SpectatorTokenNeverExpires | src/lib/auth/player-auth.ts:76-85 | a spectator token's clock never runs out |
| PlayerAuth.JoinTokenExpiry | src/lib/auth/player-auth.ts:76-116 | a join token has expired exactly when more than the time control has elapsed in whole seconds; elapsed time equal to the budget is still in time |
| PlayerAuth.RotatedTokenExpiry | src/lib/auth/player-auth.ts:53-85 | a rotated token's clock restarts at the rotation with the new budget |
| GameStore.Store.CreateGame | src/lib/redis/redis-setup.ts:45-64 | stores the record under the fresh id, prepends the id to the games list and adds it to the waiting or active set by status; turns and the completed set are untouched; the store invariant and status tracking are kept |
| GameStore.Store.ListNewGame | src/lib/redis/redis-setup.ts:55-61 | a new id joins the waiting set exactly for status waiting and the active set exactly for status active |
| GameStore.Store.GetGame | src/lib/redis/redis-setup.ts:66-69 | the stored record, or None exactly when no game has the id |
| GameStore.Store.UpdateGameStatus | src/lib/redis/redis-setup.ts:71-103 | fails with "Game with ID <id> not found" and changes nothing for an unknown id; else sets status and winner, sets the end date only for completed or aborted, moves the id between the status sets and adds it to the completed set only for completed |
| GameStore.Store.MoveStatusSets | src/lib/redis/redis-setup.ts:82-102 | the id leaves the set of its old status and joins the set of its new one |
| GameStore.Store.UpdateGame | src/lib/game/chess-game-service.ts:13 | fails for an unknown id; else overwrites exactly the given fields and keeps the status sets in step with a new status |
| GameStore.Store.UpdateGameFen | src/lib/redis/redis-setup.ts:105-110 | only the stored FEN of the game changes |
| GameStore.Store.CreateTurn | src/lib/redis/redis-setup.ts:112-128 | stores the turn under the fresh id and inserts it into its game's index in time order; other games' indexes are untouched |
| GameStore.Store.TurnsOfGame | src/lib/redis/redis-setup.ts:112-128 | a game's index holds exactly the ids of the stored turns of that game |
| GameStore.Store.GetGameTurns | src/lib/redis/redis-setup.ts:130-149 | every turn of the game, with no turn id twice, in nondecreasing time order |
| GameStore.Store.GetLatestTurn | src/lib/redis/redis-setup.ts:151-164 | None exactly when the game has no turn; else a turn of the game no older than any other |
| GameStore.Store.GetWaitingGames | src/lib/redis/redis-setup.ts:166-181 | one record lookup per member of the waiting set, each id once; with status tracking every result is a waiting game |
| GameStore.Store.DeleteGame | src/lib/redis/redis-setup.ts:199-212 | removes the game, its turns, its index and its entries in the completed set and games list, and nothing else |
| GameStore.Store.CleanupStep | src/lib/redis/redis-setup.ts:192-216 | deletes a completed game exactly when it has an end date before the cutoff |
| GameStore.Store.CleanupOldGames | src/lib/redis/redis-setup.ts:183-220 | deletes exactly the completed games that ended before the cutoff, with their turns, and returns their number; waiting and active games are untouched |
| EventLog.KeysInjective | src/lib/redis/redis-pubsub.ts:43-47 | each key builder gives different keys to different games |
| EventLog.KeysDistinct | src/lib/redis/redis-pubsub.ts:43-47 | a channel, a history key and a timestamp key never coincide |
| EventLog.Stamp | src/lib/redis/redis-pubsub.ts:110-113 | the stamped event carries the publisher's fields and the current time |
| EventLog.StampUnstamp | src/lib/redis/redis-pubsub.ts:110-113 | stamping is undone by dropping the timestamp |
| EventLog.InsertByTime | src/lib/redis/redis-pubsub.ts:75-80 | the history stays in time order, grows by one and holds exactly the old events and the new one |
| EventLog.AddEvent | src/lib/redis/redis-pubsub.ts:75-80 | adding an event already present changes nothing; otherwise it is inserted in time order; histories stay free of duplicates |
| EventLog.Since | src/lib/redis/redis-pubsub.ts:85-101 | exactly the events strictly later than the given time, in the history's order |
| EventLog.SinceIsSuffix | src/lib/redis/redis-pubsub.ts:85-101 | in an ordered history the events after a time form a suffix |
| EventLog.SinceInsert | src/lib/redis/redis-pubsub.ts:75-101 | after an insertion a poll sees the new event exactly when it asked about an earlier time; other answers are unchanged |
| EventLog.SinceAdd | src/lib/redis/redis-pubsub.ts:75-101 | the same for the add that ignores an event already present |
| EventLog.EventStore.GetLastEventTimestamp | src/lib/redis/redis-pubsub.ts:55-59 | 0 for a game without a recorded event, else the stored number |
| EventLog.EventStore.SetLastEventTimestamp | src/lib/redis/redis-pubsub.ts:64-70 | stores the decimal text of the time, which reads back as that time |
| EventLog.EventStore.StoreEventInHistory | src/lib/redis/redis-pubsub.ts:75-80 | adds the event to its own game's history only |
| EventLog.EventStore.GetEventsSince | src/lib/redis/redis-pubsub.ts:85-101 | the game's events later than the time, all of that game, in time order |
| EventLog.EventStore.PublishGameEvent | src/lib/redis/redis-pubsub.ts:106-133 | sends the stamped event on the game's channel, adds it to the game's history and records its time; other games' histories and timestamps are unchanged |
| EventLog.EventStore.PublishPlayerJoined | src/lib/redis/redis-pubsub.ts:227-240 | publishes a player-joined event with the player's id and role |
| EventLog.EventStore.PublishMoveMade | src/lib/redis/redis-pubsub.ts:243-262 | publishes a move-made event with the turn's id, squares, colour and FEN |
| EventLog.EventStore.PublishGameStatusChanged | src/lib/redis/redis-pubsub.ts:265-278 | publishes a status-changed event with the status and winner |
| GameService.ExpiryWinner | src/lib/game/chess-game-service.ts:164-165 | the winner on time is the colour opposite the token's, white when the token carries none |
| GameService.Rule | src/lib/game/chess-game-service.ts:181-211 | the guards run in order: an unknown game is refused with "Game not found", a present game that is not active with "Game is not active", an active game whose side to move is not the token's colour with "Not your turn", and a move the engine rejects with "Invalid move"; a move is applied exactly when all guards pass, by the side to move, to the engine's resulting position, with mate as a win for the mover and otherwise a draw or no result |
| GameService.Judge | src/lib/game/chess-game-service.ts:155-225 | "Invalid token" for a token that does not verify; an expired clock gives a win to the other colour exactly when the token verifies, before the game is read; otherwise the rule's verdict |
| GameService.ClockBeforeStore | src/lib/game/chess-game-service.ts:161-183 | the verdict on an expired token does not depend on the stored games |
| GameService.OneMovePerTurn | src/lib/game/chess-game-service.ts:194-199 | once a move is stored and the engine passes the turn, a second request with the same colour is not applied |
| GameService.CreateNewGame | src/lib/game/chess-game-service.ts:26-66 | stores a waiting game at the initial position with the fresh first player id and the creator's colour, and returns the id, that player id and a first-player token with the full time budget |
| GameService.JoinGame | src/lib/game/chess-game-service.ts:71-117 | "Game not found", "Game is not in waiting status" and "Game already has a second player" leave the store unchanged; otherwise the game becomes active with the fresh second player and the token has the opposite colour and role second |
| GameService.SpectateGame | src/lib/game/chess-game-service.ts:122-136 | "Game not found" for an unknown id; else a spectator token for the game |
| GameService.MakeMove | src/lib/game/chess-game-service.ts:141-262 | "Invalid token" changes nothing; an expired clock completes the game with the other colour as winner; a refused move changes nothing; an accepted move stores the new FEN, records exactly one turn of the mover, completes the game on mate or draw, and returns the mover's token rotated to the time control plus one second |
| GameService.PlayInGame | src/lib/game/chess-game-service.ts:181-255 | the same outcomes after the clock check, decided by `Rule` on the stored game |
| GameService.ForfeitOnTime | src/lib/game/chess-game-service.ts:162-179 | completes the game with the winner and an end date, or raises the store's not-found error |
| GameService.RecordMove | src/lib/game/chess-game-service.ts:213-242 | ends the game when the move ends it, then stores the position and the turn |
| GameService.EndIfOver | src/lib/game/chess-game-service.ts:213-225 | completes the game with the result when there is one; otherwise changes nothing |
| GameService.StorePosition | src/lib/game/chess-game-service.ts:227-242 | stores the FEN and inserts one turn into the game's index |
| GameService.FindAvailableGames | src/lib/game/chess-game-service.ts:267-269 | the records of the waiting games |
| ChessReducer.GetMoveType | src/context/ChessContext.tsx:30-36 | castling exactly for k or q; en passant for e without those; promotion for p without those; capture for c without those; otherwise normal |
| ChessReducer.IsPawnPromotion | src/context/ChessContext.tsx:86-95 | true exactly for a pawn on the source square moving to rank 8 if white or rank 1 if black |
| ChessReducer.CastlingRook | src/context/ChessContext.tsx:179-208 | the rook of the mover's colour moves on row 7 for white or row 0 for black, from column 7 to 5 on the king side, from 0 to 3 on the queen side |
| ChessReducer.VictimPosition | src/context/ChessContext.tsx:219-230 | the captured piece is on the destination, except en passant where it is one row behind it as the mover sees it |
| ChessReducer.TakenPiece | src/context/ChessContext.tsx:219-237 | a piece is taken exactly when the engine reports a capture, of the kind captured and the opposite colour |
| ChessReducer.AddCaptured | src/context/ChessContext.tsx:239-243 | a taken piece is appended to its colour's list; the other list is unchanged |
| ChessReducer.BoardOf | src/context/ChessContext.tsx:38-59 | an 8 by 8 grid whose cells are the engine's pieces, each with its own row and column |
| ChessReducer.ParseBoard | src/context/ChessContext.tsx:38-59 | the nested loops fill a new 8 by 8 array with the cells of `BoardOf` |
| ChessReducer.CreateInitialState | src/context/ChessContext.tsx:61-84 | the initial position, white to move, one-entry position history, empty move history; the history invariant holds |
| ChessReducer.KeepFirstDestinations | src/context/ChessContext.tsx:118-130 | the grouped moves cover exactly the destinations listed |
| ChessReducer.KeepFirstDistinct | src/context/ChessContext.tsx:118-130 | no destination is kept twice |
| ChessReducer.KeepFirstIsFirst | src/context/ChessContext.tsx:118-130 | the move kept for a destination is the first one listed to it |
| ChessReducer.Select | src/context/ChessContext.tsx:104-137 | a null or off-turn piece clears the selection and highlights |
| ChessReducer.SelectHighlights | src/context/ChessContext.tsx:104-137 | highlights are distinct, cover exactly the piece's destinations, and mark a capture as the first listed move to that square does |
| ChessReducer.MoveRecord | src/context/ChessContext.tsx:167-217 | the recorded move has the flags' type, the piece's own movement first, the rook's movement second exactly for castling, and the taken piece |
| ChessReducer.Move | src/context/ChessContext.tsx:139-271 | a promoting pawn move only records the pending promotion; a move the engine refuses changes nothing; an accepted move appends its record and the new position to the histories, shows that position with its side to move, files the taken piece, clears selection and highlights and keeps any pending promotion; the history invariant is kept |
| ChessReducer.CaptureFiled | src/context/ChessContext.tsx:219-243 | an accepted capture is filed under the opposite colour's list only, on the destination unless en passant |
| ChessReducer.Promote | src/context/ChessContext.tsx:280-362 | without a pending promotion nothing changes; otherwise none is left pending, and an accepted promotion appends one record with the piece's movement only and a capture on the destination, and the new position; the history invariant is kept |
| ChessReducer.RefusedPromotionClearsPending | src/context/ChessContext.tsx:288-295 | a promotion the engine refuses clears only the pending promotion |
| ChessReducer.KeepBelow | src/context/ChessContext.tsx:395-413 | the filter keeps a prefix that is k entries shorter, or empty |
| ChessReducer.Undo | src/context/ChessContext.tsx:368-420 | a no-op without moves or with one position; otherwise both histories lose their last entry, the previous position is shown, and nothing stays pending |
| ChessReducer.UndoDropsOnlyLastCapture | src/context/ChessContext.tsx:395-413 | undo drops the last captured piece only from the list of the colour the undone move took |
| ChessReducer.UndoRevertsMove | src/context/ChessContext.tsx:139-420 | undoing an accepted move restores position, both histories and captured pieces, with nothing selected or pending |
| ChessReducer.Load | src/context/ChessContext.tsx:422-449 | a position the engine refuses changes nothing; an accepted one restarts both histories from it |
| ChessReducer.Reduce | src/context/ChessContext.tsx:97-454 | every action keeps the history invariant: one more position than moves, and the shown position is the last |
| ChessReducer.ReduceAll | src/context/ChessContext.tsx:97-454 | any sequence of actions keeps the invariant |
| BoardFuncs.IsValidMove | src/components/chess/board/ChessBoardBase.funcs.ts:4-6 | true exactly when some highlight has the square as destination |
| BoardFuncs.IsValidMoveReadsOnlyValidMoves | src/components/chess/board/ChessBoardBase.funcs.ts:4-6 | states with the same highlights give the same answer |
| BoardFuncs.JsRemTwo | src/components/chess/board/ChessBoardBase.funcs.ts:9 | the truncating remainder by 2 is zero exactly for even numbers, negative ones included |
| BoardFuncs.LightIffEven | src/components/chess/board/ChessBoardBase.funcs.ts:8-10 | a cell is light exactly when row plus column is even |
| BoardFuncs.NeighboursDiffer | src/components/chess/board/ChessBoardBase.funcs.ts:8-10 | orthogonally adjacent cells have different colours |
| BoardFuncs.TextContrastsWithCell | src/components/chess/board/ChessBoardBase.funcs.ts:8-14 | dark text exactly on light cells |
| BoardFuncs.SquareColor | src/components/chess/board/ChessBoardBase.funcs.ts:8-10 | the cell of any square a1..h8 is light exactly when its file index (a = 0) plus its rank is even, so a8 and h1 are light and a1 is dark |
| OnlineGame.Split | src/hooks/useOnlineGame.ts:78 | `split(" ")` gives at least one piece, none containing a space, that join back to the text |
| OnlineGame.SplitJoin | src/hooks/useOnlineGame.ts:78 | splitting undoes joining pieces without spaces |
| OnlineGame.SideToMove | src/hooks/useOnlineGame.ts:76-82 | white without a position; otherwise black exactly when there is a second field and it is not "w" |
| OnlineGame.SideToMoveOfFen | src/hooks/useOnlineGame.ts:76-82 | a FEN reads as white exactly when its active-colour field is "w" |
| OnlineGame.SideToMoveWithoutFields | src/hooks/useOnlineGame.ts:76-82 | a position without a second field shows white to move |
| OnlineGame.Merge | src/hooks/useOnlineGame.ts:92-104 | colour, role and player id are never changed; the side to move is read from the FEN |
| OnlineGame.MergeFallsBack | src/hooks/useOnlineGame.ts:92-104 | status, last move, turn flag and opponent presence keep their previous values when absent |
| OnlineGame.MergeResets | src/hooks/useOnlineGame.ts:92-104 | error, mate, draw and winner reset when absent |
| OnlineGame.MergeTakesPresent | src/hooks/useOnlineGame.ts:92-104 | fields the response carries replace the previous ones; `checkmate` or `draw` true sets the flag |
| OnlineGame.MergeIdempotent | src/hooks/useOnlineGame.ts:92-104 | merging the same response twice equals merging it once |
| OnlineGame.Replay | src/hooks/useOnlineGame.ts:84-90 | the local board changes only when the response has a last move and says it is the player's turn; the history invariant is kept |
| OnlineGame.ReplayedPromotionSettles | src/hooks/useOnlineGame.ts:84-90 | a replayed promoting move leaves no promotion pending |
| OnlineGame.FailureMessage | src/hooks/useOnlineGame.ts:227-243 | a failed response shows the server's error when it is truthy and "Failed to make move" otherwise; a thrown `Error` shows its own message; any other thrown value shows "Failed to make move" |
| OnlineGame.Client.HandleGameUpdate | src/hooks/useOnlineGame.ts:73-113 | the board is replayed, the view merged, and the token replaced exactly when a new one is given |
| OnlineGame.Client.MakeMove | src/hooks/useOnlineGame.ts:213-248 | without a token or turn nothing happens and false is returned; a success is merged as not the player's turn, so the board is not replayed; a failure gives the turn back with the error |

## Left out

- Pub/sub waiting (`subscribeToGameEvents`, `waitForGameEvent`, `hasSubscribers`): callbacks, timers and concurrent waiters are not modelled; the model records the messages sent on each channel.
- Key expiry (the one-hour TTL on event histories and last-timestamp keys): time-based eviction by the store is not modelled.
- JWT internals: signing and the signature check are the injected `Signer`. The model carries the `exp` claim but never enforces it: a signed token verifies at any time. In the source, `jwt.verify` rejects a token past its 12-hour `exp`, and `makeMove` then answers "Invalid token".
- PlayerAuth.CreatePlayerToken: `jwt.sign` sets `iat` to the current time when the payload has none; the model passes `iat` through unchanged. Nothing reads `iat`.
- PlayerAuth.HasMoveTimeExpired: describes the source only while the token's 12-hour JWT expiry has not passed; after it the source answers false.
- PlayerAuth.JoinTokenExpiry: holds for the source only before the token's 12-hour JWT expiry.
- PlayerAuth.RotatedTokenExpiry: holds for the source only before the token's 12-hour JWT expiry.
- GameService.Judge: describes the source only before the token's 12-hour JWT expiry; after it the source refuses with "Invalid token" where the model may forfeit the game on time.
- Decimal.ParseInt: JavaScript's `parseInt` skips leading whitespace and reads a sign, which the model treats as not a number. The store reads back only digit text that it wrote, so this does not arise.
- Store failures: every Redis command can reject, and `publishGameEvent` logs and rethrows. A failure after `publish` leaves an event sent on the channel but missing from the history. The model's store never fails.
- `crypto.randomUUID`: fresh ids are parameters required to be unused in the store.
- Wall-clock time: every timestamp of one operation is the same `nowMs`; ISO date strings are integers in milliseconds.
- GameStore.Store.CleanupOldGames: the cutoff is `nowMs` minus whole 24-hour days; a calendar `setDate` across a daylight-saving change differs by an hour.
- EventLog.InsertByTime: events with equal timestamps keep insertion order; Redis would order them by their JSON text.
- EventLog: the JSON encoding of events is the identity, and each event is one value.
- MakeMove exceptions from the rules library: chess.js reports an illegal move by throwing, and the source turns that into "Move error: …". The model's engine returns None for an illegal move, which gives the source's "Invalid move" branch.
- ChessReducer.Move: the same applies on the client, where the reducer does not catch that exception.
- GameStore.Store.UpdateGameFen: on an unknown id Redis would create a partial record; the model leaves the store unchanged.
- `getCapturedPieces`, which SET_POSITION calls, is not part of this model; it is the `capturedOf` parameter of `ChessReducer.Reduce`.
- The `animatingPieces` map, the promotion modal's pixel position and the movement `animationDuration` are presentational: a float cell size and a UI constant.
- ChessReducer.Select: a selected piece whose cell is off the board has no moves in the model; the source would convert it to a malformed square.
- ChessReducer.Cell: the engine's board is read as empty outside 8 by 8; chess.js always returns 8 by 8, and the source would throw on a shorter one.
- The rules library's draw, check and mate are functions of the position text. Repetition-based draws, which chess.js tracks in its history, are not modelled separately.
- `localStorage`, the React effects of the hook and the long-polling client (`longPollingService.ts`): browser storage, effects, retry timers and fetch are not modelled. A move request's outcome is the `MoveReply` parameter.
- OnlineGame.Client.MakeMove: the contents of the move request are not modelled, only the guard and the handling of the reply.
- The poll and join HTTP route handlers and the UI components are not part of this model.
