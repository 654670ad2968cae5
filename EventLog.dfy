/**
 * The event history behind long polling (src/lib/redis/redis-pubsub.ts):
 * publishing stamps an event with the current time, sends it on the game's
 * channel, adds it to the game's history (a sorted set scored by timestamp)
 * and records the timestamp, as decimal text, under the game's
 * last-timestamp key. The keyspace is modelled by three fields: the sorted
 * sets, the plain string values, and the messages sent on channels so far.
 */
module EventLog {
  import opened Wrappers
  import Decimal

  datatype EventType = PlayerJoined | MoveMade | GameStatusChanged

  datatype EventData =
    | PlayerJoinedData(playerId: string, playerRole: string)
    | MoveMadeData(turnId: string, from: string, to: string, color: string, fen: string)
    | GameStatusChangedData(status: string, winner: Option<string>)

  datatype GameEvent = GameEvent(kind: EventType, gameId: string, data: EventData, timestamp: int)

  /** `Omit<GameEvent, "timestamp">`: what a publisher hands over. */
  datatype UnstampedEvent = UnstampedEvent(kind: EventType, gameId: string, data: EventData)

  /** A message sent on a pub/sub channel. */
  datatype Message = Message(channel: string, event: GameEvent)

  /** How long a history is kept after its last write, in seconds. */
  const EventHistoryTtl: int := 60 * 60

  // ----- key builders -----

  function GameChannel(gameId: string): string {
    "game:" + gameId + ":events"
  }

  function EventHistoryKey(gameId: string): string {
    "game:" + gameId + ":event_history"
  }

  function LastEventTimestampKey(gameId: string): string {
    "game:" + gameId + ":lastEventTimestamp"
  }

  /** A key of the form prefix + id + suffix determines the id. */
  lemma AffixInjective(prefix: string, suffix: string, a: string, b: string)
    requires prefix + a + suffix == prefix + b + suffix
    ensures a == b
  {
    var k := prefix + a + suffix;
    assert |a| == |b|;
    assert a == k[|prefix|..|prefix| + |a|];
    assert b == (prefix + b + suffix)[|prefix|..|prefix| + |b|];
  }

  /** Every game has its own channel, history and last-timestamp key. */
  lemma KeysInjective(a: string, b: string)
    ensures GameChannel(a) == GameChannel(b) ==> a == b
    ensures EventHistoryKey(a) == EventHistoryKey(b) ==> a == b
    ensures LastEventTimestampKey(a) == LastEventTimestampKey(b) ==> a == b
  {
    if GameChannel(a) == GameChannel(b) {
      AffixInjective("game:", ":events", a, b);
    }
    if EventHistoryKey(a) == EventHistoryKey(b) {
      AffixInjective("game:", ":event_history", a, b);
    }
    if LastEventTimestampKey(a) == LastEventTimestampKey(b) {
      AffixInjective("game:", ":lastEventTimestamp", a, b);
    }
  }

  /** The three kinds of key never collide, whatever the two game ids. */
  lemma KeysDistinct(a: string, b: string)
    ensures GameChannel(a) != EventHistoryKey(b)
    ensures GameChannel(a) != LastEventTimestampKey(b)
    ensures EventHistoryKey(a) != LastEventTimestampKey(b)
  {
    var c, h, l := GameChannel(a), EventHistoryKey(b), LastEventTimestampKey(b);
    assert c[|c| - 1] == 's' && h[|h| - 1] == 'y' && l[|l| - 1] == 'p';
    var h', l' := EventHistoryKey(a), LastEventTimestampKey(b);
    assert h'[|h'| - 1] == 'y' && l'[|l'| - 1] == 'p';
  }

  // ----- a history: events ordered by timestamp, each at most once -----

  predicate SortedByTime(h: seq<GameEvent>) {
    forall i, j :: 0 <= i < j < |h| ==> h[i].timestamp <= h[j].timestamp
  }

  predicate Distinct(h: seq<GameEvent>) {
    forall i, j :: 0 <= i < j < |h| ==> h[i] != h[j]
  }

  /** `publishGameEvent`'s stamping: the event with its timestamp added and nothing else changed. */
  function Stamp(event: UnstampedEvent, nowMs: int): (r: GameEvent)
    ensures Unstamp(r) == event && r.timestamp == nowMs
  {
    GameEvent(event.kind, event.gameId, event.data, nowMs)
  }

  function Unstamp(e: GameEvent): UnstampedEvent {
    UnstampedEvent(e.kind, e.gameId, e.data)
  }

  lemma StampUnstamp(e: GameEvent)
    ensures Stamp(Unstamp(e), e.timestamp) == e
  {
  }

  lemma TimeTail(h: seq<GameEvent>)
    requires SortedByTime(h) && h != []
    ensures SortedByTime(h[1..])
    ensures forall x :: x in h[1..] ==> h[0].timestamp <= x.timestamp
  {
    forall x | x in h[1..]
      ensures h[0].timestamp <= x.timestamp
    {
      var k :| 0 <= k < |h[1..]| && h[1..][k] == x;
      assert h[k + 1] == x;
    }
  }

  lemma TimeCons(x: GameEvent, h: seq<GameEvent>)
    requires SortedByTime(h) && forall y :: y in h ==> x.timestamp <= y.timestamp
    ensures SortedByTime([x] + h)
  {
    var r := [x] + h;
    forall i, j | 0 <= i < j < |r|
      ensures r[i].timestamp <= r[j].timestamp
    {
      assert r[j] == h[j - 1] && h[j - 1] in h;
      if i > 0 {
        assert r[i] == h[i - 1];
      }
    }
  }

  lemma TimeBelow(e: GameEvent, h: seq<GameEvent>)
    requires SortedByTime(h) && h != [] && e.timestamp < h[0].timestamp
    ensures forall y :: y in h ==> e.timestamp < y.timestamp
  {
    forall y | y in h
      ensures e.timestamp < y.timestamp
    {
      var k :| 0 <= k < |h| && h[k] == y;
    }
  }

  lemma DistinctTail(h: seq<GameEvent>)
    requires Distinct(h) && h != []
    ensures Distinct(h[1..]) && h[0] !in h[1..]
  {
    forall k | 0 <= k < |h[1..]|
      ensures h[1..][k] != h[0]
    {
      assert h[1..][k] == h[k + 1];
    }
  }

  lemma DistinctCons(x: GameEvent, h: seq<GameEvent>)
    requires Distinct(h) && x !in h
    ensures Distinct([x] + h)
  {
    var r := [x] + h;
    forall i, j | 0 <= i < j < |r|
      ensures r[i] != r[j]
    {
      assert r[j] == h[j - 1] && h[j - 1] in h;
      if i > 0 {
        assert r[i] == h[i - 1];
      }
    }
  }

  /** A new member goes after the events with a timestamp not above its own. */
  function InsertByTime(h: seq<GameEvent>, e: GameEvent): (r: seq<GameEvent>)
    requires SortedByTime(h)
    ensures SortedByTime(r) && |r| == |h| + 1
    ensures forall x :: x in r <==> x in h || x == e
    ensures Distinct(h) && e !in h ==> Distinct(r)
  {
    if h == [] then [e]
    else if e.timestamp < h[0].timestamp then
      TimeBelow(e, h);
      TimeCons(e, h);
      if Distinct(h) && e !in h then DistinctCons(e, h); [e] + h else [e] + h
    else
      TimeTail(h);
      var rest := InsertByTime(h[1..], e);
      assert forall x :: x in h[1..] ==> x in h;
      assert forall x :: x in h ==> x == h[0] || x in h[1..];
      TimeCons(h[0], rest);
      if Distinct(h) && e !in h then
        DistinctTail(h);
        DistinctCons(h[0], rest);
        [h[0]] + rest
      else
        [h[0]] + rest
  }

  /** `ZADD` of an event: a member already present keeps its place (its score is its own
      timestamp), a new one is inserted in timestamp order. */
  function AddEvent(h: seq<GameEvent>, e: GameEvent): (r: seq<GameEvent>)
    requires SortedByTime(h)
    ensures SortedByTime(r)
    ensures forall x :: x in r <==> x in h || x == e
    ensures e in h ==> r == h
    ensures e !in h ==> |r| == |h| + 1
    ensures Distinct(h) ==> Distinct(r)
  {
    if e in h then h else InsertByTime(h, e)
  }

  /** `ZRANGEBYSCORE key (t + 1) +inf`: the events strictly after `t`, in history order. */
  function Since(h: seq<GameEvent>, t: int): (r: seq<GameEvent>)
    ensures forall e :: e in r <==> e in h && e.timestamp > t
    ensures |r| <= |h|
    ensures SortedByTime(h) ==> SortedByTime(r)
  {
    if h == [] then []
    else
      var rest := Since(h[1..], t);
      assert forall x :: x in h[1..] ==> x in h;
      assert forall x :: x in h ==> x == h[0] || x in h[1..];
      if SortedByTime(h) then
        TimeTail(h);
        TimeCons(h[0], rest);
        if h[0].timestamp > t then [h[0]] + rest else rest
      else
        if h[0].timestamp > t then [h[0]] + rest else rest
  }

  /** In an ordered history the events after `t` are a suffix of it. */
  lemma {:induction false} SinceIsSuffix(h: seq<GameEvent>, t: int)
    requires SortedByTime(h)
    ensures Since(h, t) == h[|h| - |Since(h, t)|..]
  {
    if h != [] {
      TimeTail(h);
      SinceIsSuffix(h[1..], t);
      if h[0].timestamp > t {
        assert Since(h[1..], t) == h[1..] by {
          SinceAll(h[1..], t);
        }
      }
    }
  }

  lemma {:induction false} SinceAll(h: seq<GameEvent>, t: int)
    requires forall x :: x in h ==> x.timestamp > t
    ensures Since(h, t) == h
  {
    if h != [] {
      assert h[0] in h;
      assert forall x :: x in h[1..] ==> x in h;
      SinceAll(h[1..], t);
      assert h == [h[0]] + h[1..];
      SinceCons(h[0], h[1..], t);
    }
  }

  /** One unfolding of `Since` on a history with a known first event. */
  lemma SinceCons(x: GameEvent, h: seq<GameEvent>, t: int)
    ensures Since([x] + h, t) == if x.timestamp > t then [x] + Since(h, t) else Since(h, t)
  {
    assert ([x] + h)[1..] == h;
  }

  /** Polling after an insertion: the new event shows up exactly for a poller that asked
      about an earlier time, and the other answers are unchanged. */
  lemma {:induction false} SinceInsert(h: seq<GameEvent>, e: GameEvent, t: int)
    requires SortedByTime(h)
    ensures Since(InsertByTime(h, e), t) == if e.timestamp > t then InsertByTime(Since(h, t), e) else Since(h, t)
    decreases |h|, 1
  {
    if h == [] {
      SinceCons(e, [], t);
    } else if e.timestamp < h[0].timestamp {
      SinceInsertFirst(h, e, t);
    } else {
      SinceInsertLater(h, e, t);
    }
  }

  /** The case of an event earlier than the whole history. */
  lemma SinceInsertFirst(h: seq<GameEvent>, e: GameEvent, t: int)
    requires SortedByTime(h) && h != [] && e.timestamp < h[0].timestamp
    ensures Since(InsertByTime(h, e), t) == if e.timestamp > t then InsertByTime(Since(h, t), e) else Since(h, t)
  {
    assert InsertByTime(h, e) == [e] + h;
    SinceCons(e, h, t);
    var since := Since(h, t);
    if since != [] {
      var x := since[0];
      assert x in since;
      var k :| 0 <= k < |h| && h[k] == x;
      assert h[0].timestamp <= h[k].timestamp;
      assert InsertByTime(since, e) == [e] + since;
    }
  }

  /** The case of an event that goes after the first one. */
  lemma {:induction false} SinceInsertLater(h: seq<GameEvent>, e: GameEvent, t: int)
    requires SortedByTime(h) && h != [] && e.timestamp >= h[0].timestamp
    ensures Since(InsertByTime(h, e), t) == if e.timestamp > t then InsertByTime(Since(h, t), e) else Since(h, t)
    decreases |h|, 0
  {
    TimeTail(h);
    var tail := h[1..];
    var rest := InsertByTime(tail, e);
    assert InsertByTime(h, e) == [h[0]] + rest;
    SinceCons(h[0], rest, t);
    assert h == [h[0]] + tail;
    SinceCons(h[0], tail, t);
    SinceInsert(tail, e, t);
    if h[0].timestamp > t {
      var since := [h[0]] + Since(tail, t);
      assert since[1..] == Since(tail, t) && since[0] == h[0];
    }
  }

  /** The same for `ZADD`, which leaves a history holding the event unchanged. */
  lemma SinceAdd(h: seq<GameEvent>, e: GameEvent, t: int)
    requires SortedByTime(h)
    ensures Since(AddEvent(h, e), t) == if e.timestamp > t then AddEvent(Since(h, t), e) else Since(h, t)
  {
    if e !in h {
      SinceInsert(h, e, t);
      assert e !in Since(h, t);
    }
  }

  class EventStore {
    var histories: map<string, seq<GameEvent>>
    var strings: map<string, string>
    var published: seq<Message>

    /** Every history is ordered, holds each event once and only events of its own game;
        every stored timestamp is decimal text. */
    ghost predicate Valid()
      reads this
    {
      && (forall k :: k in histories ==> SortedByTime(histories[k]) && Distinct(histories[k]))
      && (forall g :: EventHistoryKey(g) in histories ==>
            forall e :: e in histories[EventHistoryKey(g)] ==> e.gameId == g)
      && (forall k :: k in strings ==> Decimal.AllDigits(strings[k]))
    }

    /** The history of a game (empty while its key does not exist). */
    function HistoryOf(gameId: string): seq<GameEvent>
      reads this
    {
      var key := EventHistoryKey(gameId);
      if key in histories then histories[key] else []
    }

    /** What `getLastEventTimestamp` answers: 0 without a recorded event, else the stored number. */
    function LastEventTimestampOf(gameId: string): (r: nat)
      requires Valid()
      reads this
      ensures LastEventTimestampKey(gameId) !in strings ==> r == 0
    {
      var key := LastEventTimestampKey(gameId);
      if key !in strings || strings[key] == "" then 0 else Decimal.DigitsValue(strings[key])
    }

    /** An empty keyspace. */
    constructor ()
      ensures Valid() && histories == map[] && strings == map[] && published == []
    {
      histories, strings, published := map[], map[], [];
    }

    /** `getLastEventTimestamp`: reads the key and parses it; a missing or empty value is 0. */
    method GetLastEventTimestamp(gameId: string) returns (r: nat)
      requires Valid()
      ensures r == LastEventTimestampOf(gameId)
      ensures LastEventTimestampKey(gameId) !in strings ==> r == 0
    {
      var key := LastEventTimestampKey(gameId);
      if key !in strings || strings[key] == "" {
        return 0;
      }
      var parsed := Decimal.ParseInt(strings[key]);
      Decimal.ParseIntOfDigits(strings[key]);
      r := parsed.value;
    }

    /** `setLastEventTimestamp`: stores the decimal text of the timestamp. */
    method SetLastEventTimestamp(gameId: string, timestamp: nat)
      requires Valid()
      modifies this`strings
      ensures Valid()
      ensures strings == old(strings)[LastEventTimestampKey(gameId) := Decimal.NatToString(timestamp)]
      ensures LastEventTimestampOf(gameId) == timestamp
    {
      strings := strings[LastEventTimestampKey(gameId) := Decimal.NatToString(timestamp)];
      Decimal.ParseIntOfNatToString(timestamp);
      Decimal.ParseIntOfDigits(Decimal.NatToString(timestamp));
    }

    /** `storeEventInHistory`: `ZADD` of the event under its game's history key. */
    method StoreEventInHistory(event: GameEvent)
      requires Valid()
      modifies this`histories
      ensures Valid()
      ensures histories == old(histories)[EventHistoryKey(event.gameId) := AddEvent(old(HistoryOf(event.gameId)), event)]
    {
      var key := EventHistoryKey(event.gameId);
      var h := HistoryOf(event.gameId);
      histories := histories[key := AddEvent(h, event)];
      forall g | EventHistoryKey(g) in histories
        ensures forall e :: e in histories[EventHistoryKey(g)] ==> e.gameId == g
      {
        KeysInjective(g, event.gameId);
      }
    }

    /** `getEventsSince`: the game's events with a timestamp of at least `timestamp + 1`. */
    method GetEventsSince(gameId: string, timestamp: int) returns (r: seq<GameEvent>)
      requires Valid()
      ensures r == Since(HistoryOf(gameId), timestamp)
      ensures forall e :: e in r ==> e.gameId == gameId
      ensures SortedByTime(r)
    {
      var eventStrings := Since(HistoryOf(gameId), timestamp);
      if |eventStrings| == 0 {
        return [];
      }
      r := eventStrings;
    }

    /**
     * `publishGameEvent`: stamps the event with `nowMs`, sends it on the
     * game's channel, adds it to the game's history and records `nowMs` as the
     * game's last event timestamp. Other games' histories and timestamps are
     * untouched.
     */
    method PublishGameEvent(event: UnstampedEvent, nowMs: nat)
      requires Valid()
      modifies this
      ensures Valid()
      ensures published == old(published) + [Message(GameChannel(event.gameId), Stamp(event, nowMs))]
      ensures histories == old(histories)[EventHistoryKey(event.gameId) :=
                AddEvent(old(HistoryOf(event.gameId)), Stamp(event, nowMs))]
      ensures strings == old(strings)[LastEventTimestampKey(event.gameId) := Decimal.NatToString(nowMs)]
      ensures Stamp(event, nowMs) in HistoryOf(event.gameId)
      ensures LastEventTimestampOf(event.gameId) == nowMs
      ensures forall g :: g != event.gameId ==>
                HistoryOf(g) == old(HistoryOf(g)) && LastEventTimestampOf(g) == old(LastEventTimestampOf(g))
    {
      var channel := GameChannel(event.gameId);
      var fullEvent := Stamp(event, nowMs);
      published := published + [Message(channel, fullEvent)];
      StoreEventInHistory(fullEvent);
      SetLastEventTimestamp(event.gameId, nowMs);
      forall g | g != event.gameId
        ensures HistoryOf(g) == old(HistoryOf(g)) && LastEventTimestampOf(g) == old(LastEventTimestampOf(g))
      {
        KeysInjective(g, event.gameId);
      }
    }

    /** `publishPlayerJoined` */
    method PublishPlayerJoined(gameId: string, playerId: string, playerRole: string, nowMs: nat)
      requires Valid()
      modifies this
      ensures Valid()
      ensures
        var e := GameEvent(PlayerJoined, gameId, PlayerJoinedData(playerId, playerRole), nowMs);
        && published == old(published) + [Message(GameChannel(gameId), e)]
        && histories == old(histories)[EventHistoryKey(gameId) := AddEvent(old(HistoryOf(gameId)), e)]
        && strings == old(strings)[LastEventTimestampKey(gameId) := Decimal.NatToString(nowMs)]
    {
      PublishGameEvent(UnstampedEvent(PlayerJoined, gameId, PlayerJoinedData(playerId, playerRole)), nowMs);
    }

    /** `publishMoveMade` */
    method PublishMoveMade(gameId: string, turnId: string, from: string, to: string, color: string, fen: string, nowMs: nat)
      requires Valid()
      modifies this
      ensures Valid()
      ensures
        var e := GameEvent(MoveMade, gameId, MoveMadeData(turnId, from, to, color, fen), nowMs);
        && published == old(published) + [Message(GameChannel(gameId), e)]
        && histories == old(histories)[EventHistoryKey(gameId) := AddEvent(old(HistoryOf(gameId)), e)]
        && strings == old(strings)[LastEventTimestampKey(gameId) := Decimal.NatToString(nowMs)]
    {
      PublishGameEvent(UnstampedEvent(MoveMade, gameId, MoveMadeData(turnId, from, to, color, fen)), nowMs);
    }

    /** `publishGameStatusChanged` (the winner defaults to null). */
    method PublishGameStatusChanged(gameId: string, status: string, nowMs: nat, winner: Option<string> := None)
      requires Valid()
      modifies this
      ensures Valid()
      ensures
        var e := GameEvent(GameStatusChanged, gameId, GameStatusChangedData(status, winner), nowMs);
        && published == old(published) + [Message(GameChannel(gameId), e)]
        && histories == old(histories)[EventHistoryKey(gameId) := AddEvent(old(HistoryOf(gameId)), e)]
        && strings == old(strings)[LastEventTimestampKey(gameId) := Decimal.NatToString(nowMs)]
    {
      PublishGameEvent(UnstampedEvent(GameStatusChanged, gameId, GameStatusChangedData(status, winner)), nowMs);
    }
  }
}
