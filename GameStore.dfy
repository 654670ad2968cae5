/**
 * The game store (src/lib/redis/redis-setup.ts): game records, turn records,
 * a per-game turn index ordered by score, the list of all games and three
 * status sets. The Redis keyspace is modelled as fields of one object:
 *   games      -- `game:{id}` hashes
 *   turns      -- `turn:{id}` hashes
 *   turnIndex  -- `game:{id}:turns` sorted sets (member = turn id, score = createTime)
 *   gamesList  -- the `games:list` list
 *   waiting, active, completed -- the `games:waiting|active|completed` sets
 * Dates are integer milliseconds; fresh identifiers are passed in.
 */
module GameStore {
  import opened Wrappers
  import opened Rules

  datatype GameStatus = Waiting | Active | Completed | Aborted

  predicate IsTerminal(s: GameStatus) {
    s == Completed || s == Aborted
  }

  /** `Winner` without its null: one of the colours, or a draw. */
  datatype Winner = Won(color: Color) | Draw

  datatype GameData = GameData(
    id: string,
    currentFen: Fen,
    startDate: int,
    endDate: Option<int>,
    firstPlayerColor: Color,
    firstPlayerId: Option<string>,
    secondPlayerId: Option<string>,
    status: GameStatus,
    winner: Option<Winner>,
    timeControl: int)

  datatype TurnData = TurnData(
    id: string,
    gameId: string,
    from: string,
    to: string,
    createTime: int,
    color: Color,
    promotion: Option<string>)

  /** The fields `updateGame` may overwrite; an absent field is left as it is. */
  datatype GamePatch = GamePatch(
    currentFen: Option<Fen>,
    secondPlayerId: Option<string>,
    status: Option<GameStatus>)

  /** `cleanupOldGames`' default retention, and one day in milliseconds. */
  const DefaultMaxAgeInDays: int := 30
  const MsPerDay: int := 24 * 60 * 60 * 1000

  function Cutoff(nowMs: int, maxAgeInDays: int): int {
    nowMs - maxAgeInDays * MsPerDay
  }

  // ----- Redis sorted-set order: by score, equal scores by member text -----

  /** Lexicographic order on member text (Redis compares the bytes). */
  predicate StrLess(a: string, b: string) {
    if |a| == 0 then |b| > 0
    else |b| > 0 && (a[0] < b[0] || (a[0] == b[0] && StrLess(a[1..], b[1..])))
  }

  lemma {:induction false} StrLessIrreflexive(a: string)
    ensures !StrLess(a, a)
  {
    if |a| > 0 {
      StrLessIrreflexive(a[1..]);
    }
  }

  lemma {:induction false} StrLessTransitive(a: string, b: string, c: string)
    requires StrLess(a, b) && StrLess(b, c)
    ensures StrLess(a, c)
  {
    if |a| > 0 && a[0] == b[0] && b[0] == c[0] {
      StrLessTransitive(a[1..], b[1..], c[1..]);
    }
  }

  lemma {:induction false} StrLessTotal(a: string, b: string)
    requires a != b
    ensures StrLess(a, b) || StrLess(b, a)
  {
    if |a| > 0 && |b| > 0 && a[0] == b[0] {
      assert a == [a[0]] + a[1..] && b == [b[0]] + b[1..];
      StrLessTotal(a[1..], b[1..]);
    }
  }

  datatype Entry = Entry(score: int, member: string)

  predicate EntryLess(x: Entry, y: Entry) {
    x.score < y.score || (x.score == y.score && StrLess(x.member, y.member))
  }

  lemma EntryLessTransitive(x: Entry, y: Entry, z: Entry)
    requires EntryLess(x, y) && EntryLess(y, z)
    ensures EntryLess(x, z)
  {
    if x.score == y.score == z.score {
      StrLessTransitive(x.member, y.member, z.member);
    }
  }

  lemma EntryLessTotal(x: Entry, y: Entry)
    requires x.member != y.member
    ensures EntryLess(x, y) || EntryLess(y, x)
  {
    StrLessTotal(x.member, y.member);
  }

  /** Strictly ascending in the sorted-set order (so no member occurs twice). */
  predicate Sorted(s: seq<Entry>) {
    forall i, j :: 0 <= i < j < |s| ==> EntryLess(s[i], s[j])
  }

  function Members(s: seq<Entry>): set<string> {
    set e | e in s :: e.member
  }

  lemma SortedCons(x: Entry, s: seq<Entry>)
    requires Sorted(s) && forall y :: y in s ==> EntryLess(x, y)
    ensures Sorted([x] + s)
  {
    var r := [x] + s;
    forall i, j | 0 <= i < j < |r|
      ensures EntryLess(r[i], r[j])
    {
      if i == 0 {
        assert r[j] == s[j - 1] && s[j - 1] in s;
      } else {
        assert r[i] == s[i - 1] && r[j] == s[j - 1];
      }
    }
  }

  lemma SortedTail(s: seq<Entry>)
    requires Sorted(s) && s != []
    ensures Sorted(s[1..]) && forall y :: y in s[1..] ==> EntryLess(s[0], y)
  {
    forall y | y in s[1..]
      ensures EntryLess(s[0], y)
    {
      var k :| 0 <= k < |s[1..]| && s[1..][k] == y;
      assert s[k + 1] == y;
    }
  }

  lemma BelowAll(x: Entry, s: seq<Entry>)
    requires Sorted(s) && s != [] && EntryLess(x, s[0])
    ensures forall y :: y in s ==> EntryLess(x, y)
  {
    forall y | y in s
      ensures EntryLess(x, y)
    {
      var k :| 0 <= k < |s| && s[k] == y;
      if k > 0 {
        EntryLessTransitive(x, s[0], s[k]);
      }
    }
  }

  /** `ZADD` of a new member: the entry goes to its place in the order. */
  function Insert(s: seq<Entry>, e: Entry): (r: seq<Entry>)
    requires Sorted(s) && e.member !in Members(s)
    ensures Sorted(r) && |r| == |s| + 1
    ensures forall x :: x in r <==> x in s || x == e
  {
    if s == [] then [e]
    else if EntryLess(e, s[0]) then
      BelowAll(e, s);
      SortedCons(e, s);
      [e] + s
    else
      assert s[0] in s;
      EntryLessTotal(e, s[0]);
      SortedTail(s);
      assert forall x :: x in s[1..] ==> x in s;
      var rest := Insert(s[1..], e);
      SortedCons(s[0], rest);
      assert forall x :: x in s ==> x == s[0] || x in s[1..];
      [s[0]] + rest
  }

  lemma MembersInsert(s: seq<Entry>, e: Entry)
    requires Sorted(s) && e.member !in Members(s)
    ensures Members(Insert(s, e)) == Members(s) + {e.member}
  {
    var r := Insert(s, e);
    forall m | m in Members(r)
      ensures m in Members(s) + {e.member}
    {
      var x :| x in r && x.member == m;
    }
    forall m | m in Members(s)
      ensures m in Members(r)
    {
      var x :| x in s && x.member == m;
      assert x in r;
    }
    assert e in r;
  }

  // ----- sequences of identifiers -----

  predicate NoDuplicates(s: seq<string>) {
    forall i, j :: 0 <= i < j < |s| ==> s[i] != s[j]
  }

  /** `LREM list 0 x` for every x of `xs`: drop every occurrence, keep the order. */
  function Without(s: seq<string>, xs: set<string>): (r: seq<string>)
    ensures forall x :: x in r <==> x in s && x !in xs
    ensures NoDuplicates(s) ==> NoDuplicates(r)
  {
    if s == [] then []
    else if s[0] in xs then Without(s[1..], xs)
    else
      assert forall x :: x in s[1..] ==> x in s;
      [s[0]] + Without(s[1..], xs)
  }

  lemma {:induction false} WithoutTwice(s: seq<string>, xs: set<string>, ys: set<string>)
    ensures Without(Without(s, xs), ys) == Without(s, xs + ys)
  {
    if s != [] {
      WithoutTwice(s[1..], xs, ys);
    }
  }

  /** The turn records that do not belong to any of the games `gs`. */
  function TurnsOutside(m: map<string, TurnData>, gs: set<string>): map<string, TurnData> {
    map t | t in m && m[t].gameId !in gs :: m[t]
  }

  /** A status set after `SREM id` (when `leave`) and then `SADD id` (when `join`). */
  function Moved(s: set<string>, id: string, leave: bool, join: bool): (r: set<string>)
    ensures forall x :: x != id ==> (x in r <==> x in s)
    ensures id in r <==> join || (id in s && !leave)
  {
    s - (if leave then {id} else {}) + (if join then {id} else {})
  }

  /** The status sets track the records: waiting and active hold exactly the games with that
      status, and the completed set holds only finished games. */
  ghost predicate Tracking(games: map<string, GameData>, waiting: set<string>, active: set<string>, completed: set<string>) {
    && (forall id :: id in waiting <==> id in games && games[id].status == Waiting)
    && (forall id :: id in active <==> id in games && games[id].status == Active)
    && (forall id :: id in completed ==> id in games && IsTerminal(games[id].status))
  }

  /** Moving one game between the status sets as `updateGameStatus` does keeps the tracking,
      unless a game already in the completed set is given a status that is not final. */
  lemma RetrackStatusChange(games: map<string, GameData>, waiting: set<string>, active: set<string>,
                            completed: set<string>, gameId: string, g: GameData)
    requires Tracking(games, waiting, active, completed) && gameId in games
    requires gameId in completed ==> IsTerminal(g.status)
    ensures
      var s := games[gameId].status;
      Tracking(games[gameId := g],
               Moved(waiting, gameId, s == Waiting, g.status == Waiting),
               Moved(active, gameId, s == Active, g.status == Active),
               Moved(completed, gameId, false, g.status == Completed))
  {
  }

  /** Rewriting a record without changing its status keeps the tracking. */
  lemma RetrackSameStatus(games: map<string, GameData>, waiting: set<string>, active: set<string>,
                          completed: set<string>, gameId: string, g: GameData)
    requires Tracking(games, waiting, active, completed) && gameId in games
    requires g.status == games[gameId].status
    ensures Tracking(games[gameId := g], waiting, active, completed)
  {
  }

  /** Deleting a game of the completed set keeps the tracking. */
  lemma RetrackDelete(games: map<string, GameData>, waiting: set<string>, active: set<string>,
                      completed: set<string>, gameId: string)
    requires Tracking(games, waiting, active, completed) && gameId in completed
    ensures Tracking(games - {gameId}, waiting, active, completed - {gameId})
  {
  }

  lemma MinusTwice<K, V>(m: map<K, V>, xs: set<K>, ys: set<K>)
    ensures (m - xs) - ys == m - (xs + ys)
  {
  }

  lemma SetMinusTwice<K>(m: set<K>, xs: set<K>, ys: set<K>)
    ensures (m - xs) - ys == m - (xs + ys)
  {
  }

  /** The members of `completed` whose record has an end date before `cutoff`. */
  ghost function Expired(games: map<string, GameData>, completed: set<string>, cutoff: int): set<string> {
    set id | id in completed && id in games && Ended(games[id], cutoff)
  }

  predicate Ended(g: GameData, cutoff: int) {
    g.endDate.Some? && g.endDate.value < cutoff
  }

  /** `cleanupOldGames` has visited all of `c0` but `rest`, deleting the games `done`:
      exactly the expired ones among those visited. */
  ghost predicate Progress(g0: map<string, GameData>, c0: set<string>, cutoff: int,
                           rest: set<string>, done: set<string>, count: int) {
    && rest <= c0
    && done !! rest
    && done <= Expired(g0, c0, cutoff) <= done + rest
    && count == |done|
  }

  lemma ProgressStep(g0: map<string, GameData>, c0: set<string>, cutoff: int,
                     rest: set<string>, done: set<string>, count: int, gameId: string,
                     games: map<string, GameData>)
    requires Progress(g0, c0, cutoff, rest, done, count) && gameId in rest && games == g0 - done
    ensures gameId in c0 - done
    ensures gameId in games && Ended(games[gameId], cutoff) ==>
              Progress(g0, c0, cutoff, rest - {gameId}, done + {gameId}, count + 1)
    ensures !(gameId in games && Ended(games[gameId], cutoff)) ==>
              Progress(g0, c0, cutoff, rest - {gameId}, done, count)
  {
  }

  /** When every member has been visited, exactly the expired games were deleted. */
  lemma ProgressDone(g0: map<string, GameData>, c0: set<string>, cutoff: int, done: set<string>, count: int)
    requires Progress(g0, c0, cutoff, {}, done, count)
    ensures done == Expired(g0, c0, cutoff) && count == |Expired(g0, c0, cutoff)|
  {
  }

  /** The state after `cleanupOldGames` has deleted the games `done` from the state (g0, …, t0). */
  ghost predicate Cleaned(g0: map<string, GameData>, c0: set<string>, l0: seq<string>,
                          i0: map<string, seq<Entry>>, t0: map<string, TurnData>, done: set<string>,
                          games: map<string, GameData>, completed: set<string>, gamesList: seq<string>,
                          turnIndex: map<string, seq<Entry>>, turns: map<string, TurnData>) {
    && games == g0 - done
    && completed == c0 - done
    && gamesList == Without(l0, done)
    && turnIndex == i0 - done
    && turns == TurnsOutside(t0, done)
  }

  lemma CleanedStep(g0: map<string, GameData>, c0: set<string>, l0: seq<string>,
                    i0: map<string, seq<Entry>>, t0: map<string, TurnData>, done: set<string>,
                    games: map<string, GameData>, completed: set<string>, gamesList: seq<string>,
                    turnIndex: map<string, seq<Entry>>, turns: map<string, TurnData>, gameId: string)
    requires Cleaned(g0, c0, l0, i0, t0, done, games, completed, gamesList, turnIndex, turns)
    ensures Cleaned(g0, c0, l0, i0, t0, done + {gameId},
                    games - {gameId}, completed - {gameId}, Without(gamesList, {gameId}),
                    turnIndex - {gameId}, TurnsOutside(turns, {gameId}))
  {
    MinusTwice(g0, done, {gameId});
    SetMinusTwice(c0, done, {gameId});
    MinusTwice(i0, done, {gameId});
    WithoutTwice(l0, done, {gameId});
    TurnsOutsideTwice(t0, done, {gameId});
  }

  lemma TurnsOutsideTwice(m: map<string, TurnData>, xs: set<string>, ys: set<string>)
    ensures TurnsOutside(TurnsOutside(m, xs), ys) == TurnsOutside(m, xs + ys)
  {
  }

  // ----- the structure of the keyspace, on values -----

  /** The game part: keys agree with ids, every game is listed exactly once and completed ids are games. */
  ghost predicate GamesValidOf(games: map<string, GameData>, gamesList: seq<string>, completed: set<string>) {
    && (forall id :: id in games ==> games[id].id == id)
    && (forall i :: 0 <= i < |gamesList| ==> gamesList[i] in games)
    && (forall id :: id in games ==> id in gamesList)
    && NoDuplicates(gamesList)
    && completed <= games.Keys
  }

  /** The turn index of a game is ordered and lists that game's turns, under their creation times. */
  ghost predicate IndexValid(g: string, idx: seq<Entry>, ts: map<string, TurnData>) {
    && Sorted(idx)
    && forall i :: 0 <= i < |idx| ==>
         idx[i].member in ts && ts[idx[i].member].gameId == g && ts[idx[i].member].createTime == idx[i].score
  }

  /** A valid index lists each turn id at most once, since a turn has one score. */
  lemma IndexMembersDistinct(g: string, idx: seq<Entry>, ts: map<string, TurnData>)
    requires IndexValid(g, idx, ts)
    ensures forall i, j :: 0 <= i < j < |idx| ==> idx[i].member != idx[j].member
  {
    forall i, j | 0 <= i < j < |idx|
      ensures idx[i].member != idx[j].member
    {
      StrLessIrreflexive(idx[i].member);
    }
  }

  /** The turn part: every turn is indexed exactly under its game. */
  ghost predicate TurnsValidOf(turns: map<string, TurnData>, turnIndex: map<string, seq<Entry>>) {
    && (forall g :: g in turnIndex ==> IndexValid(g, turnIndex[g], turns))
    && (forall t :: t in turns ==>
          turns[t].id == t && turns[t].gameId in turnIndex && t in Members(turnIndex[turns[t].gameId]))
  }

  lemma GamesAdd(games: map<string, GameData>, gamesList: seq<string>, completed: set<string>, id: string, g: GameData)
    requires GamesValidOf(games, gamesList, completed) && id !in games && g.id == id
    ensures GamesValidOf(games[id := g], [id] + gamesList, completed)
  {
  }

  lemma GamesRewrite(games: map<string, GameData>, gamesList: seq<string>, completed: set<string>,
                     id: string, g: GameData, join: bool)
    requires GamesValidOf(games, gamesList, completed) && id in games && g.id == id
    ensures GamesValidOf(games[id := g], gamesList, Moved(completed, id, false, join))
  {
  }

  lemma GamesDelete(games: map<string, GameData>, gamesList: seq<string>, completed: set<string>, id: string)
    requires GamesValidOf(games, gamesList, completed)
    ensures GamesValidOf(games - {id}, Without(gamesList, {id}), completed - {id})
  {
    var l := Without(gamesList, {id});
    forall i | 0 <= i < |l|
      ensures l[i] in games - {id}
    {
      assert l[i] in l;
    }
  }

  /** Under the turn structure, the turns of a game are exactly the members of its index. */
  lemma TurnsOf(turns: map<string, TurnData>, turnIndex: map<string, seq<Entry>>, gameId: string)
    requires TurnsValidOf(turns, turnIndex)
    ensures forall t :: t in turns && turns[t].gameId == gameId <==>
              gameId in turnIndex && t in Members(turnIndex[gameId])
  {
    if gameId in turnIndex {
      forall t | t in Members(turnIndex[gameId])
        ensures t in turns && turns[t].gameId == gameId
      {
        var i :| 0 <= i < |turnIndex[gameId]| && turnIndex[gameId][i].member == t;
      }
    }
  }

  lemma IndexValidExtend(g: string, idx: seq<Entry>, turns: map<string, TurnData>, t: TurnData)
    requires IndexValid(g, idx, turns) && t.id !in turns
    ensures IndexValid(g, idx, turns[t.id := t])
  {
  }

  lemma IndexValidInsert(idx: seq<Entry>, turns: map<string, TurnData>, t: TurnData)
    requires IndexValid(t.gameId, idx, turns) && t.id !in turns && t.id !in Members(idx)
    ensures IndexValid(t.gameId, Insert(idx, Entry(t.createTime, t.id)), turns[t.id := t])
  {
    var newIdx := Insert(idx, Entry(t.createTime, t.id));
    var ts := turns[t.id := t];
    forall i | 0 <= i < |newIdx|
      ensures newIdx[i].member in ts && ts[newIdx[i].member].gameId == t.gameId
              && ts[newIdx[i].member].createTime == newIdx[i].score
    {
      assert newIdx[i] in newIdx;
      if newIdx[i] != Entry(t.createTime, t.id) {
        var j :| 0 <= j < |idx| && idx[j] == newIdx[i];
      }
    }
  }

  lemma TurnsAdd(turns: map<string, TurnData>, turnIndex: map<string, seq<Entry>>, t: TurnData, idx: seq<Entry>)
    requires TurnsValidOf(turns, turnIndex) && t.id !in turns
    requires idx == if t.gameId in turnIndex then turnIndex[t.gameId] else []
    ensures t.id !in Members(idx)
    ensures TurnsValidOf(turns[t.id := t], turnIndex[t.gameId := Insert(idx, Entry(t.createTime, t.id))])
  {
    TurnsOf(turns, turnIndex, t.gameId);
    IndexValidInsert(idx, turns, t);
    MembersInsert(idx, Entry(t.createTime, t.id));
    var ts := turns[t.id := t];
    var ti := turnIndex[t.gameId := Insert(idx, Entry(t.createTime, t.id))];
    forall g | g in ti
      ensures IndexValid(g, ti[g], ts)
    {
      if g != t.gameId {
        IndexValidExtend(g, turnIndex[g], turns, t);
      }
    }
  }

  lemma TurnsDelete(turns: map<string, TurnData>, turnIndex: map<string, seq<Entry>>, gameId: string)
    requires TurnsValidOf(turns, turnIndex)
    ensures TurnsValidOf(TurnsOutside(turns, {gameId}), turnIndex - {gameId})
  {
  }

  /** Adding a fresh game to the set of its status keeps the tracking. */
  lemma RetrackCreate(games: map<string, GameData>, waiting: set<string>, active: set<string>,
                      completed: set<string>, gameId: string, g: GameData)
    requires Tracking(games, waiting, active, completed) && gameId !in games
    ensures Tracking(games[gameId := g], Moved(waiting, gameId, false, g.status == Waiting),
                     Moved(active, gameId, false, g.status == Active), completed)
  {
  }

  class Store {
    var games: map<string, GameData>
    var turns: map<string, TurnData>
    var turnIndex: map<string, seq<Entry>>
    var gamesList: seq<string>
    var waiting: set<string>
    var active: set<string>
    var completed: set<string>

    ghost predicate GamesValid()
      reads this`games, this`gamesList, this`completed
    {
      GamesValidOf(games, gamesList, completed)
    }

    ghost predicate TurnsValid()
      reads this`turns, this`turnIndex
    {
      TurnsValidOf(turns, turnIndex)
    }

    /** The structure every operation keeps. */
    ghost predicate Valid()
      reads this
    {
      GamesValid() && TurnsValid()
    }

    /** The status sets track the records (see `Tracking`). */
    ghost predicate Tracks()
      reads this`games, this`waiting, this`active, this`completed
    {
      Tracking(games, waiting, active, completed)
    }

    /** `getGame`'s answer: the record, or null. */
    function Lookup(gameId: string): Option<GameData>
      reads this
    {
      if gameId in games then Some(games[gameId]) else None
    }

    /** The ordered turn index of a game (empty when the key does not exist). */
    function IndexOf(gameId: string): seq<Entry>
      reads this
    {
      if gameId in turnIndex then turnIndex[gameId] else []
    }

    /** The games `cleanupOldGames` removes: in the completed set, with an end date before the cutoff. */
    ghost function Doomed(cutoff: int): set<string>
      reads this`games, this`completed
    {
      Expired(games, completed, cutoff)
    }

    /** An empty database. */
    constructor ()
      ensures Valid() && Tracks()
      ensures games == map[] && turns == map[] && turnIndex == map[] && gamesList == []
      ensures waiting == {} && active == {} && completed == {}
    {
      games, turns, turnIndex, gamesList := map[], map[], map[], [];
      waiting, active, completed := {}, {}, {};
    }

    /** Under `Valid`, the turns of a game are exactly the members of its index. */
    lemma TurnsOfGame(gameId: string)
      requires Valid()
      ensures forall t :: t in turns && turns[t].gameId == gameId <==> t in Members(IndexOf(gameId))
    {
      TurnsOf(turns, turnIndex, gameId);
    }

    /**
     * `createGame`: stores the record under the fresh id `gameId` with every
     * other field copied, pushes the id on the front of the games list and adds
     * it to the waiting or the active set when that is its status.
     */
    method CreateGame(gameData: GameData, gameId: string) returns (id: string)
      requires Valid() && gameId !in games
      modifies this
      ensures Valid() && (old(Tracks()) ==> Tracks())
      ensures id == gameId
      ensures games == old(games)[gameId := gameData.(id := gameId)]
      ensures gamesList == [gameId] + old(gamesList)
      ensures waiting == Moved(old(waiting), gameId, false, gameData.status == Waiting)
      ensures active == Moved(old(active), gameId, false, gameData.status == Active)
      ensures completed == old(completed) && turns == old(turns) && turnIndex == old(turnIndex)
    {
      id := gameId;
      var game := gameData.(id := gameId);
      GamesAdd(games, gamesList, completed, gameId, game);
      if Tracks() {
        RetrackCreate(games, waiting, active, completed, gameId, game);
      }
      games := games[gameId := game];
      gamesList := [gameId] + gamesList;
      ListNewGame(gameId, game.status);
    }

    /** `createGame`'s `SADD` to the waiting or the active set (no other status is listed). */
    method ListNewGame(gameId: string, status: GameStatus)
      modifies this`waiting, this`active
      ensures waiting == Moved(old(waiting), gameId, false, status == Waiting)
      ensures active == Moved(old(active), gameId, false, status == Active)
    {
      if status == Waiting {
        waiting := waiting + {gameId};
      } else if status == Active {
        active := active + {gameId};
      }
    }

    /** `getGame` */
    method GetGame(gameId: string) returns (r: Option<GameData>)
      ensures r.Some? <==> gameId in games
      ensures r.Some? ==> r.value == games[gameId]
    {
      r := Lookup(gameId);
    }

    /**
     * `updateGameStatus`: fails on an unknown id and changes nothing; otherwise
     * takes the id out of the set of its old status (waiting or active; the
     * completed set is never emptied), overwrites status and winner, stamps
     * `endDate` when the game ends (completed or aborted) and adds the id to
     * the set of its new status (an aborted game joins none).
     */
    method UpdateGameStatus(gameId: string, status: GameStatus, winner: Option<Winner>, nowMs: int)
      returns (r: Outcome<string>)
      requires Valid()
      modifies this
      ensures Valid()
      ensures gameId !in old(games) ==>
        r == Fail("Game with ID " + gameId + " not found") && unchanged(this)
      ensures gameId in old(games) ==>
        var g := old(games)[gameId];
        && r.Pass?
        && games == old(games)[gameId := g.(status := status, winner := winner,
                                            endDate := if IsTerminal(status) then Some(nowMs) else g.endDate)]
        && waiting == Moved(old(waiting), gameId, g.status == Waiting, status == Waiting)
        && active == Moved(old(active), gameId, g.status == Active, status == Active)
        && completed == Moved(old(completed), gameId, false, status == Completed)
        && gamesList == old(gamesList) && turns == old(turns) && turnIndex == old(turnIndex)
      ensures old(Tracks()) && (gameId in old(completed) ==> IsTerminal(status)) ==> Tracks()
    {
      var game := GetGame(gameId);
      if game.None? {
        return Fail("Game with ID " + gameId + " not found");
      }
      var endDate := if status == Completed || status == Aborted then Some(nowMs) else game.value.endDate;
      var updated := game.value.(status := status, winner := winner, endDate := endDate);
      GamesRewrite(games, gamesList, completed, gameId, updated, status == Completed);
      if Tracks() && (gameId in completed ==> IsTerminal(status)) {
        RetrackStatusChange(games, waiting, active, completed, gameId, updated);
      }
      games := games[gameId := updated];
      MoveStatusSets(gameId, game.value.status, status);
      r := Pass;
    }

    /** `SREM` from the set of the old status (only waiting and active are ever left),
        then `SADD` to the set of the new status (an aborted game joins none). */
    method MoveStatusSets(gameId: string, oldStatus: GameStatus, newStatus: GameStatus)
      modifies this`waiting, this`active, this`completed
      ensures waiting == Moved(old(waiting), gameId, oldStatus == Waiting, newStatus == Waiting)
      ensures active == Moved(old(active), gameId, oldStatus == Active, newStatus == Active)
      ensures completed == Moved(old(completed), gameId, false, newStatus == Completed)
    {
      if oldStatus == Waiting {
        waiting := waiting - {gameId};
      } else if oldStatus == Active {
        active := active - {gameId};
      }
      if newStatus == Waiting {
        waiting := waiting + {gameId};
      } else if newStatus == Active {
        active := active + {gameId};
      } else if newStatus == Completed {
        completed := completed + {gameId};
      }
    }

    /**
     * `updateGame` (imported by the game service but not defined in the store
     * file): merges the present fields of the patch into the record and, when
     * the patch carries a status, moves the id between the status sets and
     * stamps `endDate` as `updateGameStatus` does. Fails on an unknown id.
     */
    method UpdateGame(gameId: string, patch: GamePatch, nowMs: int) returns (r: Outcome<string>)
      requires Valid()
      modifies this
      ensures Valid()
      ensures gameId !in old(games) ==>
        r == Fail("Game with ID " + gameId + " not found") && unchanged(this)
      ensures gameId in old(games) ==>
        var g := old(games)[gameId];
        var newStatus := patch.status.GetOr(g.status);
        && r.Pass?
        && games == old(games)[gameId := g.(
             currentFen := patch.currentFen.GetOr(g.currentFen),
             secondPlayerId := if patch.secondPlayerId.Some? then patch.secondPlayerId else g.secondPlayerId,
             status := newStatus,
             endDate := if patch.status.Some? && IsTerminal(newStatus) then Some(nowMs) else g.endDate)]
        && gamesList == old(gamesList) && turns == old(turns) && turnIndex == old(turnIndex)
      ensures gameId in old(games) && patch.status.Some? ==>
        var g := old(games)[gameId];
        var newStatus := patch.status.value;
        && waiting == Moved(old(waiting), gameId, g.status == Waiting, newStatus == Waiting)
        && active == Moved(old(active), gameId, g.status == Active, newStatus == Active)
        && completed == Moved(old(completed), gameId, false, newStatus == Completed)
      ensures patch.status.None? ==> waiting == old(waiting) && active == old(active) && completed == old(completed)
      ensures old(Tracks()) && (gameId in old(completed) && patch.status.Some? ==> IsTerminal(patch.status.value))
              ==> Tracks()
    {
      var game := GetGame(gameId);
      if game.None? {
        return Fail("Game with ID " + gameId + " not found");
      }
      var g := game.value;
      var newStatus := patch.status.GetOr(g.status);
      var merged := g.(
        currentFen := patch.currentFen.GetOr(g.currentFen),
        secondPlayerId := if patch.secondPlayerId.Some? then patch.secondPlayerId else g.secondPlayerId,
        status := newStatus,
        endDate := if patch.status.Some? && IsTerminal(newStatus) then Some(nowMs) else g.endDate);
      GamesRewrite(games, gamesList, completed, gameId, merged, patch.status == Some(Completed));
      GamesRewrite(games, gamesList, completed, gameId, merged, false);
      assert Moved(completed, gameId, false, false) == completed;
      if patch.status.Some? {
        if Tracks() && (gameId in completed ==> IsTerminal(newStatus)) {
          RetrackStatusChange(games, waiting, active, completed, gameId, merged);
        }
        games := games[gameId := merged];
        MoveStatusSets(gameId, g.status, newStatus);
      } else {
        if Tracks() {
          RetrackSameStatus(games, waiting, active, completed, gameId, merged);
        }
        games := games[gameId := merged];
      }
      r := Pass;
    }

    /** `updateGameFen`: overwrites the record's position and nothing else. */
    method UpdateGameFen(gameId: string, fen: Fen)
      requires Valid()
      modifies this`games
      ensures Valid() && (old(Tracks()) ==> Tracks())
      ensures games == if gameId in old(games) then old(games)[gameId := old(games)[gameId].(currentFen := fen)]
                       else old(games)
    {
      if gameId in games {
        var updated := games[gameId].(currentFen := fen);
        GamesRewrite(games, gamesList, completed, gameId, updated, false);
        assert Moved(completed, gameId, false, false) == completed;
        if Tracks() {
          RetrackSameStatus(games, waiting, active, completed, gameId, updated);
        }
        games := games[gameId := updated];
      }
    }

    /**
     * `createTurn`: stores the turn under the fresh id `turnId` and adds it to
     * its game's turn index with its creation time as score.
     */
    method CreateTurn(turnData: TurnData, turnId: string) returns (id: string)
      requires Valid() && turnId !in turns
      modifies this`turns, this`turnIndex
      ensures Valid() && (old(Tracks()) ==> Tracks())
      ensures id == turnId
      ensures turns == old(turns)[turnId := turnData.(id := turnId)]
      ensures old(turnId !in Members(IndexOf(turnData.gameId)))
      ensures turnIndex == old(turnIndex)[turnData.gameId :=
                Insert(old(IndexOf(turnData.gameId)), Entry(turnData.createTime, turnId))]
    {
      id := turnId;
      var turn := turnData.(id := turnId);
      var idx := IndexOf(turn.gameId);
      TurnsAdd(turns, turnIndex, turn, idx);
      turns := turns[turnId := turn];
      turnIndex := turnIndex[turn.gameId := Insert(idx, Entry(turn.createTime, turnId))];
    }

    /** `getGameTurns`: the game's turns in ascending index order (so by creation time). */
    method GetGameTurns(gameId: string) returns (r: seq<TurnData>)
      requires Valid()
      ensures |r| == |IndexOf(gameId)|
      ensures forall i :: 0 <= i < |r| ==> r[i] == turns[IndexOf(gameId)[i].member]
      ensures forall i :: 0 <= i < |r| ==> r[i].gameId == gameId
      ensures forall i, j :: 0 <= i < j < |r| ==> r[i].createTime <= r[j].createTime
      ensures forall i, j :: 0 <= i < j < |r| ==> r[i].id != r[j].id
      ensures forall t :: t in turns && turns[t].gameId == gameId ==> turns[t] in r
    {
      var turnIds := IndexOf(gameId);
      assert IndexValid(gameId, turnIds, turns) || turnIds == [];
      if |turnIds| == 0 {
        TurnsOfGame(gameId);
        return [];
      }
      r := [];
      var i := 0;
      while i < |turnIds|
        invariant 0 <= i <= |turnIds|
        invariant |r| == i
        invariant forall k :: 0 <= k < i ==> r[k] == turns[turnIds[k].member]
      {
        r := r + [turns[turnIds[i].member]];
        i := i + 1;
      }
      TurnsOfGame(gameId);
      IndexMembersDistinct(gameId, turnIds, turns);
      forall t | t in turns && turns[t].gameId == gameId
        ensures turns[t] in r
      {
        var k :| 0 <= k < |turnIds| && turnIds[k].member == t;
        assert r[k] == turns[t];
      }
    }

    /** `getLatestTurn`: the highest-scored turn of the game, or None when it has none. */
    method GetLatestTurn(gameId: string) returns (r: Option<TurnData>)
      requires Valid()
      ensures r.None? <==> (forall t :: t in turns ==> turns[t].gameId != gameId)
      ensures r.Some? ==> r.value in turns.Values && r.value.gameId == gameId
      ensures r.Some? ==> forall t :: t in turns && turns[t].gameId == gameId ==> turns[t].createTime <= r.value.createTime
    {
      var turnIds := IndexOf(gameId);
      TurnsOfGame(gameId);
      if |turnIds| == 0 {
        return None;
      }
      var last := turnIds[|turnIds| - 1];
      assert last.member in Members(turnIds);
      r := Some(turns[last.member]);
      forall t | t in turns && turns[t].gameId == gameId
        ensures turns[t].createTime <= r.value.createTime
      {
        var k :| 0 <= k < |turnIds| && turnIds[k].member == t;
      }
    }

    /**
     * `getWaitingGames`: one lookup per member of the waiting set, in the
     * set's (unspecified) order; when the sets track the records every answer
     * is a waiting game.
     */
    method GetWaitingGames() returns (r: seq<Option<GameData>>, ghost ids: seq<string>)
      ensures NoDuplicates(ids) && (forall id :: id in ids <==> id in waiting)
      ensures |r| == |ids| && forall i :: 0 <= i < |r| ==> r[i] == Lookup(ids[i])
      ensures Tracks() ==> forall i :: 0 <= i < |r| ==> r[i].Some? && r[i].value.status == Waiting
    {
      var rest := waiting;
      r, ids := [], [];
      while rest != {}
        invariant rest <= waiting
        invariant forall id :: id in ids <==> id in waiting && id !in rest
        invariant NoDuplicates(ids)
        invariant |r| == |ids| && forall i :: 0 <= i < |r| ==> r[i] == Lookup(ids[i])
        decreases rest
      {
        var id :| id in rest;
        r := r + [Lookup(id)];
        ids := ids + [id];
        rest := rest - {id};
      }
    }

    /**
     * The body of `cleanupOldGames` for one game: deletes each of its turns,
     * its turn index and its record, and removes it from the completed set and
     * from the games list.
     */
    method DeleteGame(gameId: string)
      requires Valid() && gameId in games
      modifies this
      ensures Valid()
      ensures games == old(games) - {gameId} && completed == old(completed) - {gameId}
      ensures gamesList == Without(old(gamesList), {gameId})
      ensures turnIndex == old(turnIndex) - {gameId}
      ensures turns == TurnsOutside(old(turns), {gameId})
      ensures waiting == old(waiting) && active == old(active)
    {
      TurnsOfGame(gameId);
      var turnIds := IndexOf(gameId);
      var ts := turns;
      var i := 0;
      while i < |turnIds|
        invariant 0 <= i <= |turnIds|
        invariant ts == turns - Members(turnIds[..i])
      {
        assert turnIds[..i + 1] == turnIds[..i] + [turnIds[i]];
        ts := ts - {turnIds[i].member};
        i := i + 1;
      }
      assert turnIds[..i] == turnIds;
      assert ts == TurnsOutside(turns, {gameId});
      TurnsDelete(turns, turnIndex, gameId);
      GamesDelete(games, gamesList, completed, gameId);
      turns := ts;
      turnIndex := turnIndex - {gameId};
      games := games - {gameId};
      completed := completed - {gameId};
      gamesList := Without(gamesList, {gameId});
    }

    /**
     * `cleanupOldGames`: visits every member of the completed set and deletes
     * exactly those games whose end date lies before the cutoff, together with
     * their turns and index; returns how many it deleted. The waiting and
     * active sets are not touched.
     */
    method CleanupOldGames(nowMs: int, maxAgeInDays: int := DefaultMaxAgeInDays) returns (removedCount: nat)
      requires Valid()
      modifies this
      ensures Valid() && (old(Tracks()) ==> Tracks())
      ensures
        var doomed := old(Doomed(Cutoff(nowMs, maxAgeInDays)));
        && removedCount == |doomed|
        && games == old(games) - doomed
        && completed == old(completed) - doomed
        && gamesList == Without(old(gamesList), doomed)
        && turnIndex == old(turnIndex) - doomed
        && turns == TurnsOutside(old(turns), doomed)
        && waiting == old(waiting) && active == old(active)
    {
      var cutoffTime := Cutoff(nowMs, maxAgeInDays);
      var gameIds := completed;
      var rest := gameIds;
      ghost var done: set<string> := {};
      removedCount := 0;
      WithoutNothing(gamesList);
      assert TurnsOutside(turns, {}) == turns;
      assert games - {} == games && turnIndex - {} == turnIndex && completed - {} == completed;
      while rest != {}
        invariant Progress(old(games), old(completed), cutoffTime, rest, done, removedCount)
        invariant Valid() && (old(Tracks()) ==> Tracks())
        invariant Cleaned(old(games), old(completed), old(gamesList), old(turnIndex), old(turns), done,
                          games, completed, gamesList, turnIndex, turns)
        invariant waiting == old(waiting) && active == old(active)
        decreases rest
      {
        var gameId :| gameId in rest;
        ghost var (g0, c0, l0, i0, t0) := (games, completed, gamesList, turnIndex, turns);
        ProgressStep(old(games), old(completed), cutoffTime, rest, done, removedCount, gameId, games);
        assert gameId in completed;
        rest := rest - {gameId};
        var removed := CleanupStep(gameId, cutoffTime);
        if removed {
          CleanedStep(old(games), old(completed), old(gamesList), old(turnIndex), old(turns), done,
                      g0, c0, l0, i0, t0, gameId);
          done := done + {gameId};
          removedCount := removedCount + 1;
        }
      }
      ProgressDone(old(games), old(completed), cutoffTime, done, removedCount);
    }

    /** One iteration of `cleanupOldGames`: deletes the game when its end date is before the cutoff. */
    method CleanupStep(gameId: string, cutoffTime: int) returns (removed: bool)
      requires Valid() && gameId in completed
      modifies this
      ensures removed <==> gameId in old(games) && Ended(old(games)[gameId], cutoffTime)
      ensures Valid() && (old(Tracks()) ==> Tracks())
      ensures !removed ==> unchanged(this)
      ensures removed ==>
        && games == old(games) - {gameId} && completed == old(completed) - {gameId}
        && gamesList == Without(old(gamesList), {gameId})
        && turnIndex == old(turnIndex) - {gameId}
        && turns == TurnsOutside(old(turns), {gameId})
        && waiting == old(waiting) && active == old(active)
    {
      var game := GetGame(gameId);
      removed := false;
      if game.Some? && Ended(game.value, cutoffTime) {
        if Tracks() {
          RetrackDelete(games, waiting, active, completed, gameId);
        }
        DeleteGame(gameId);
        removed := true;
      }
    }

    lemma WithoutNothing(s: seq<string>)
      ensures Without(s, {}) == s
    {
      if s != [] {
        WithoutNothing(s[1..]);
      }
    }
  }
}
