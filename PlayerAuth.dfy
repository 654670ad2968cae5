/**
 * Session tokens (src/lib/auth/player-auth.ts). A token is a signed bundle of
 * claims: game, player, colour, role, the time it was issued and the remaining
 * move budget. Signing is foreign; it is injected as a `Signer`, a sign/verify
 * pair whose only law is that verifying a signed payload gives that payload.
 * Times are passed in as `nowMs`, milliseconds since the epoch.
 */
module PlayerAuth {
  import opened Wrappers
  import opened Rules

  datatype Role = First | Second | Spectator

  /** `PlayerTokenPayload`; `iat` and `exp` are the optional registered claims. */
  datatype Claims = Claims(
    gameId: string,
    playerId: string,
    playerColor: Option<Color>,     // None for spectators
    playerRole: Role,
    issuedAt: int,                  // seconds
    moveTimeRemaining: Option<int>, // seconds, None for spectators
    iat: Option<int>,
    exp: Option<int>)

  type Token = string

  /** The signing library: `jwt.sign` and `jwt.verify` under the server secret. */
  datatype Signer = Signer(sign: Claims -> Token, verify: Token -> Option<Claims>) {
    /** Verifying what was signed gives back exactly the signed claims. */
    ghost predicate Sound() {
      forall c :: verify(sign(c)) == Some(c)
    }
  }

  /** `TOKEN_EXPIRATION` = "12h", in seconds. */
  const TokenLifetime: int := 12 * 60 * 60

  /** `Math.floor(Date.now() / 1000)` */
  function Seconds(nowMs: nat): nat {
    nowMs / 1000
  }

  /** `payload.exp` is truthy: present and not zero. */
  predicate HasExp(p: Claims) {
    p.exp.Some? && p.exp.value != 0
  }

  /**
   * `createPlayerToken`: signs the payload, asking for the 12-hour expiry only
   * when it carries no `exp`; a payload that already has one keeps it.
   */
  function CreatePlayerToken(s: Signer, p: Claims, nowMs: nat): (t: Token)
    requires s.Sound()
    ensures s.verify(t).Some?
    ensures s.verify(t).value.(exp := p.exp) == p
    ensures HasExp(p) ==> s.verify(t).value.exp == p.exp
    ensures !HasExp(p) ==> s.verify(t).value.exp == Some(Seconds(nowMs) + TokenLifetime)
  {
    if !HasExp(p) then s.sign(p.(exp := Some(Seconds(nowMs) + TokenLifetime)))
    else s.sign(p)
  }

  /** `verifyPlayerToken`: the claims of a token, or None (never an exception) when it does not verify. */
  function VerifyPlayerToken(s: Signer, t: Token): (r: Option<Claims>)
    ensures s.Sound() ==> forall c :: t == s.sign(c) ==> r == Some(c)
  {
    s.verify(t)
  }

  /**
   * `updatePlayerMoveTime`: re-signs the token's claims with a new move budget
   * and a fresh issue time; fails with "Invalid token" when it does not verify.
   */
  function UpdatePlayerMoveTime(s: Signer, t: Token, timeRemaining: int, nowMs: nat): (r: Result<Token, string>)
    requires s.Sound()
    ensures r.Failure? <==> VerifyPlayerToken(s, t).None?
    ensures r.Failure? ==> r.error == "Invalid token"
    ensures r.Success? ==>
      var before := VerifyPlayerToken(s, t).value;
      var after := VerifyPlayerToken(s, r.value);
      && after.Some?
      && after.value.(moveTimeRemaining := before.moveTimeRemaining, issuedAt := before.issuedAt, exp := before.exp) == before
      && after.value.moveTimeRemaining == Some(timeRemaining)
      && after.value.issuedAt == Seconds(nowMs)
      && (HasExp(before) ==> after.value.exp == before.exp)
  {
    match VerifyPlayerToken(s, t)
    case None => Failure("Invalid token")
    case Some(payload) =>
      var newPayload := payload.(moveTimeRemaining := Some(timeRemaining), issuedAt := Seconds(nowMs));
      Success(CreatePlayerToken(s, newPayload, nowMs))
  }

  /**
   * `hasMoveTimeExpired`: a token that does not verify, or that carries no move
   * budget, never expires; otherwise it has expired once the whole seconds
   * elapsed since it was issued exceed the budget.
   */
  function HasMoveTimeExpired(s: Signer, t: Token, nowMs: nat): (expired: bool)
    ensures expired ==> VerifyPlayerToken(s, t).Some? && VerifyPlayerToken(s, t).value.moveTimeRemaining.Some?
    ensures VerifyPlayerToken(s, t).Some? && VerifyPlayerToken(s, t).value.moveTimeRemaining.Some? ==>
      (expired <==> Seconds(nowMs) - VerifyPlayerToken(s, t).value.issuedAt > VerifyPlayerToken(s, t).value.moveTimeRemaining.value)
  {
    var payload := VerifyPlayerToken(s, t);
    if payload.None? || payload.value.moveTimeRemaining.None? then false
    else
      var secondsElapsed := Seconds(nowMs) - payload.value.issuedAt;
      secondsElapsed > payload.value.moveTimeRemaining.value
  }

  /**
   * `generatePlayerJoinToken`: the first player gets role `first` and the
   * creator's colour; anyone else gets role `second` and the other colour.
   * The move budget is the game's time control, issued now.
   */
  function GeneratePlayerJoinToken(
    s: Signer, gameId: string, isFirstPlayer: bool, timeControl: int,
    firstPlayerColor: Color, playerId: string, nowMs: nat): (t: Token)
    requires s.Sound()
    ensures VerifyPlayerToken(s, t) == Some(Claims(
      gameId, playerId,
      Some(if isFirstPlayer then firstPlayerColor else Opposite(firstPlayerColor)),
      if isFirstPlayer then First else Second,
      Seconds(nowMs), Some(timeControl), None, Some(Seconds(nowMs) + TokenLifetime)))
  {
    var playerRole := if isFirstPlayer then First else Second;
    var playerColor :=
      if isFirstPlayer then firstPlayerColor
      else if firstPlayerColor == White then Black else White;
    var payload := Claims(gameId, playerId, Some(playerColor), playerRole, Seconds(nowMs), Some(timeControl), None, None);
    CreatePlayerToken(s, payload, nowMs)
  }

  /**
   * `generateSpectatorToken`: role `spectator`, no colour and no move budget;
   * `spectatorId` is the fresh identifier (`crypto.randomUUID()`).
   */
  function GenerateSpectatorToken(s: Signer, gameId: string, spectatorId: string, nowMs: nat): (t: Token)
    requires s.Sound()
    ensures VerifyPlayerToken(s, t) == Some(Claims(
      gameId, spectatorId, None, Spectator, Seconds(nowMs), None, None, Some(Seconds(nowMs) + TokenLifetime)))
  {
    var payload := Claims(gameId, spectatorId, None, Spectator, Seconds(nowMs), None, None, None);
    CreatePlayerToken(s, payload, nowMs)
  }

  /** The two players of one game always play opposite colours. */
  lemma JoinTokensHaveOppositeColors(
    s: Signer, gameId: string, timeControl: int, firstPlayerColor: Color,
    firstId: string, secondId: string, firstMs: nat, secondMs: nat)
    requires s.Sound()
    ensures
      var first := VerifyPlayerToken(s, GeneratePlayerJoinToken(s, gameId, true, timeControl, firstPlayerColor, firstId, firstMs)).value;
      var second := VerifyPlayerToken(s, GeneratePlayerJoinToken(s, gameId, false, timeControl, firstPlayerColor, secondId, secondMs)).value;
      first.playerColor.Some? && second.playerColor.Some? && first.playerColor != second.playerColor
  {
  }

  /** A spectator token never runs out of time. */
  lemma SpectatorTokenNeverExpires(s: Signer, gameId: string, spectatorId: string, issuedMs: nat, nowMs: nat)
    requires s.Sound()
    ensures !HasMoveTimeExpired(s, GenerateSpectatorToken(s, gameId, spectatorId, issuedMs), nowMs)
  {
  }

  /**
   * A join token issued at `issuedMs` has expired at `nowMs` exactly when
   * more than `timeControl` whole seconds have passed; a delay equal to the
   * budget is still in time.
   */
  lemma JoinTokenExpiry(
    s: Signer, gameId: string, isFirstPlayer: bool, timeControl: int,
    firstPlayerColor: Color, playerId: string, issuedMs: nat, nowMs: nat)
    requires s.Sound()
    ensures HasMoveTimeExpired(s, GeneratePlayerJoinToken(s, gameId, isFirstPlayer, timeControl, firstPlayerColor, playerId, issuedMs), nowMs)
            <==> Seconds(nowMs) - Seconds(issuedMs) > timeControl
  {
  }

  /** A rotated token keeps identity, role and colour, and its clock restarts from the new budget. */
  lemma RotatedTokenExpiry(s: Signer, t: Token, timeRemaining: int, rotatedMs: nat, nowMs: nat)
    requires s.Sound()
    requires UpdatePlayerMoveTime(s, t, timeRemaining, rotatedMs).Success?
    ensures HasMoveTimeExpired(s, UpdatePlayerMoveTime(s, t, timeRemaining, rotatedMs).value, nowMs)
            <==> Seconds(nowMs) - Seconds(rotatedMs) > timeRemaining
  {
  }
}
