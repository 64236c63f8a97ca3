/**
 * The database-backed store of server/storage.ts, with each table held in
 * memory as a sequence of rows in table order.  The writers change the
 * tables of a `Store` object in place; what each writer does is specified
 * by a function from the old tables to the new ones, and the read queries
 * are functions of the tables.
 */
module Storage {
  import opened Wrappers
  import Query

  type UserId = string
  type RoomId = string

  /** A `users` row; `coins`, `totalScore` and `gamesPlayed` are nullable integer columns (default 0). */
  datatype User = User(id: UserId, coins: Option<int>, totalScore: Option<int>, gamesPlayed: Option<int>)

  /** A `multiplayer_rooms` row (`maxPlayers` defaults to 8, `currentPlayers` to 1). */
  datatype Room = Room(
    id: RoomId, name: string, hostId: UserId, maxPlayers: int, currentPlayers: int,
    isPrivate: bool, isActive: bool, isStarted: bool, createdAt: int)

  /** A `room_participants` row. */
  datatype Participant = Participant(roomId: RoomId, userId: UserId, score: int, isReady: bool, joinedAt: int)

  /** A `user_inventory` row. */
  datatype InventoryItem = InventoryItem(userId: UserId, itemType: string, quantity: int)

  /** A `game_sessions` row, reduced to the columns the queries look at. */
  datatype GameSession = GameSession(id: string, userId: Option<UserId>, score: int, createdAt: int)

  /** A leaderboard line: the user and its ROW_NUMBER in the ranking. */
  datatype RankedUser = RankedUser(user: User, rank: nat)

  datatype Tables = Tables(
    users: seq<User>, rooms: seq<Room>, participants: seq<Participant>,
    inventory: seq<InventoryItem>, sessions: seq<GameSession>)

  /** The outcome of `useInventoryItem`: its boolean answer and the tables afterwards. */
  datatype UseOutcome = UseOutcome(ok: bool, tables: Tables)

  /** SQL `column + d`: a NULL stays NULL. */
  function NullAdd(x: Option<int>, d: int): Option<int> {
    match x
    case Some(v) => Some(v + d)
    case None => None
  }

  // ---------------------------------------------------------------- users

  /** `getUser`: the row with primary key `id`, if any. */
  function FindUser(users: seq<User>, id: UserId): (r: Option<User>)
    ensures r.None? <==> forall i :: 0 <= i < |users| ==> users[i].id != id
    ensures r.Some? ==> r.value in users && r.value.id == id
  {
    if users == [] then None
    else if users[0].id == id then Some(users[0])
    else FindUser(users[1..], id)
  }

  /** UPDATE users SET ... WHERE id = `id`, for an update `f` that keeps the key. */
  function UpdateUser(users: seq<User>, id: UserId, f: User -> User): (r: seq<User>)
    requires forall u :: f(u).id == u.id
    ensures |r| == |users|
    ensures forall x :: x != id ==> FindUser(r, x) == FindUser(users, x)
    ensures FindUser(r, id) == if FindUser(users, id).Some? then Some(f(FindUser(users, id).value)) else None
  {
    if users == [] then []
    else [if users[0].id == id then f(users[0]) else users[0]] + UpdateUser(users[1..], id, f)
  }

  function SetCoins(u: User, coins: int): (r: User)
    ensures r.id == u.id
  {
    u.(coins := Some(coins))
  }

  function AddGame(u: User, score: int): (r: User)
    ensures r.id == u.id
  {
    u.(totalScore := NullAdd(u.totalScore, score), gamesPlayed := NullAdd(u.gamesPlayed, 1))
  }

  /** `updateUserCoins`: the balance becomes the given absolute value; nothing else changes. */
  function CoinsUpdated(t: Tables, userId: UserId, coins: int): (r: Tables)
    ensures FindUser(r.users, userId) ==
      if FindUser(t.users, userId).Some? then Some(FindUser(t.users, userId).value.(coins := Some(coins))) else None
    ensures forall x :: x != userId ==> FindUser(r.users, x) == FindUser(t.users, x)
    ensures r.(users := t.users) == t
  {
    t.(users := UpdateUser(t.users, userId, u => SetCoins(u, coins)))
  }

  /**
   * `updateUserStats`: adds `score` to `totalScore` and one to `gamesPlayed`
   * (a NULL column stays NULL); `coins` and every other user are unchanged.
   */
  function StatsUpdated(t: Tables, userId: UserId, score: int): (r: Tables)
    ensures forall x :: FindUser(r.users, x).Some? <==> FindUser(t.users, x).Some?
    ensures forall x :: FindUser(t.users, x).Some? ==> FindUser(r.users, x).value.coins == FindUser(t.users, x).value.coins
    ensures FindUser(t.users, userId).Some? ==>
      && FindUser(r.users, userId).value.totalScore == NullAdd(FindUser(t.users, userId).value.totalScore, score)
      && FindUser(r.users, userId).value.gamesPlayed == NullAdd(FindUser(t.users, userId).value.gamesPlayed, 1)
    ensures forall x :: x != userId ==> FindUser(r.users, x) == FindUser(t.users, x)
    ensures r.(users := t.users) == t
  {
    t.(users := UpdateUser(t.users, userId, u => AddGame(u, score)))
  }

  // ---------------------------------------------------------------- rooms and participants

  /** `currentPlayers` of the first room with id `id`, if there is one. */
  function PlayersOf(rooms: seq<Room>, id: RoomId): Option<int> {
    if rooms == [] then None
    else if rooms[0].id == id then Some(rooms[0].currentPlayers)
    else PlayersOf(rooms[1..], id)
  }

  /** Some `multiplayer_rooms` row has the id. */
  predicate HasRoom(rooms: seq<Room>, id: RoomId) {
    exists i :: 0 <= i < |rooms| && rooms[i].id == id
  }

  /**
   * The foreign keys of shared/schema.ts: every participant row names an
   * existing room and user, and every inventory row an existing user.
   */
  predicate Referenced(t: Tables) {
    && (forall p <- t.participants :: HasRoom(t.rooms, p.roomId) && FindUser(t.users, p.userId).Some?)
    && (forall item <- t.inventory :: FindUser(t.users, item.userId).Some?)
  }

  /** UPDATE multiplayer_rooms SET current_players = current_players + delta WHERE id = `id`. */
  function AdjustPlayers(rooms: seq<Room>, id: RoomId, delta: int): (r: seq<Room>)
    ensures |r| == |rooms|
    ensures forall i :: 0 <= i < |rooms| ==>
      r[i] == if rooms[i].id == id then rooms[i].(currentPlayers := rooms[i].currentPlayers + delta) else rooms[i]
    ensures forall x :: PlayersOf(r, x) == NullAdd(PlayersOf(rooms, x), if x == id then delta else 0)
  {
    if rooms == [] then []
    else
      var head := if rooms[0].id == id then rooms[0].(currentPlayers := rooms[0].currentPlayers + delta) else rooms[0];
      [head] + AdjustPlayers(rooms[1..], id, delta)
  }

  /** The player-count update keeps every room id. */
  lemma AdjustKeepsRooms(rooms: seq<Room>, id: RoomId, delta: int, x: RoomId)
    ensures HasRoom(AdjustPlayers(rooms, id, delta), x) <==> HasRoom(rooms, x)
  {
    var r := AdjustPlayers(rooms, id, delta);
    if HasRoom(rooms, x) {
      var i :| 0 <= i < |rooms| && rooms[i].id == x;
      assert r[i].id == x;
    }
    if HasRoom(r, x) {
      var i :| 0 <= i < |r| && r[i].id == x;
      assert rooms[i].id == x;
    }
  }

  /** Number of participant rows of room `roomId`. */
  function RoomCount(ps: seq<Participant>, roomId: RoomId): nat {
    if ps == [] then 0
    else (if ps[0].roomId == roomId then 1 else 0) + RoomCount(ps[1..], roomId)
  }

  /** Number of participant rows for the pair (`roomId`, `userId`). */
  function PairCount(ps: seq<Participant>, roomId: RoomId, userId: UserId): nat {
    if ps == [] then 0
    else (if ps[0].roomId == roomId && ps[0].userId == userId then 1 else 0) + PairCount(ps[1..], roomId, userId)
  }

  lemma {:induction false} CountsAppend(ps: seq<Participant>, p: Participant, roomId: RoomId, userId: UserId)
    ensures RoomCount(ps + [p], roomId) == RoomCount(ps, roomId) + (if p.roomId == roomId then 1 else 0)
    ensures PairCount(ps + [p], roomId, userId) ==
      PairCount(ps, roomId, userId) + (if p.roomId == roomId && p.userId == userId then 1 else 0)
  {
    if ps != [] {
      assert (ps + [p])[1..] == ps[1..] + [p];
      CountsAppend(ps[1..], p, roomId, userId);
    }
  }

  /** DELETE FROM room_participants WHERE room_id = `roomId` AND user_id = `userId`. */
  function RemovePair(ps: seq<Participant>, roomId: RoomId, userId: UserId): (r: seq<Participant>)
    ensures PairCount(r, roomId, userId) == 0
    ensures PairCount(ps, roomId, userId) == 0 ==> r == ps
  {
    if ps == [] then []
    else
      var rest := RemovePair(ps[1..], roomId, userId);
      if ps[0].roomId == roomId && ps[0].userId == userId then rest else [ps[0]] + rest
  }

  /** The DELETE removes every row of the pair and keeps every other row, as often as it was there. */
  lemma {:induction false} RemovePairMultiset(ps: seq<Participant>, roomId: RoomId, userId: UserId, p: Participant)
    ensures multiset(RemovePair(ps, roomId, userId))[p] ==
            if p.roomId == roomId && p.userId == userId then 0 else multiset(ps)[p]
  {
    if ps != [] {
      assert ps == [ps[0]] + ps[1..];
      RemovePairMultiset(ps[1..], roomId, userId, p);
    }
  }

  /** The DELETE takes from room `x` exactly the pair's rows. */
  lemma {:induction false} RemovePairRoomCount(ps: seq<Participant>, roomId: RoomId, userId: UserId, x: RoomId)
    ensures RoomCount(RemovePair(ps, roomId, userId), x) ==
            RoomCount(ps, x) - (if x == roomId then PairCount(ps, roomId, userId) else 0)
  {
    if ps != [] {
      RemovePairRoomCount(ps[1..], roomId, userId, x);
    }
  }

  /** The row `joinRoom` inserts: schema defaults `score` 0, `isReady` false, `joinedAt` now. */
  function NewParticipant(roomId: RoomId, userId: UserId, now: int): Participant {
    Participant(roomId, userId, 0, false, now)
  }

  /**
   * `joinRoom`: appends one participant row, with no check for an existing
   * row or for the room's capacity, and adds one to that room's
   * `currentPlayers`; every other room and table is unchanged.
   */
  function JoinedRoom(t: Tables, roomId: RoomId, userId: UserId, now: int): (r: Tables)
    ensures r.participants == t.participants + [NewParticipant(roomId, userId, now)]
    ensures PairCount(r.participants, roomId, userId) == PairCount(t.participants, roomId, userId) + 1
    ensures forall x :: RoomCount(r.participants, x) == RoomCount(t.participants, x) + (if x == roomId then 1 else 0)
    ensures forall x :: PlayersOf(r.rooms, x) == NullAdd(PlayersOf(t.rooms, x), if x == roomId then 1 else 0)
    ensures r.(participants := t.participants, rooms := t.rooms) == t
  {
    var row := NewParticipant(roomId, userId, now);
    forall x ensures RoomCount(t.participants + [row], x) == RoomCount(t.participants, x) + (if x == roomId then 1 else 0) {
      CountsAppend(t.participants, row, x, userId);
    }
    CountsAppend(t.participants, row, roomId, userId);
    t.(participants := t.participants + [row], rooms := AdjustPlayers(t.rooms, roomId, 1))
  }

  /**
   * `leaveRoom`: deletes every row for the pair and subtracts one from the
   * room's `currentPlayers`, even when no row was deleted.
   */
  function LeftRoom(t: Tables, roomId: RoomId, userId: UserId): (r: Tables)
    ensures PairCount(r.participants, roomId, userId) == 0
    ensures forall p :: multiset(r.participants)[p] ==
                 if p.roomId == roomId && p.userId == userId then 0 else multiset(t.participants)[p]
    ensures forall x :: RoomCount(r.participants, x) ==
                 RoomCount(t.participants, x) - (if x == roomId then PairCount(t.participants, roomId, userId) else 0)
    ensures forall x :: PlayersOf(r.rooms, x) == NullAdd(PlayersOf(t.rooms, x), if x == roomId then -1 else 0)
    ensures r.(participants := t.participants, rooms := t.rooms) == t
  {
    assert forall p :: multiset(RemovePair(t.participants, roomId, userId))[p] ==
                         if p.roomId == roomId && p.userId == userId then 0 else multiset(t.participants)[p] by {
      forall p ensures multiset(RemovePair(t.participants, roomId, userId))[p] ==
                       if p.roomId == roomId && p.userId == userId then 0 else multiset(t.participants)[p] {
        RemovePairMultiset(t.participants, roomId, userId, p);
      }
    }
    assert forall x :: RoomCount(RemovePair(t.participants, roomId, userId), x) ==
                         RoomCount(t.participants, x) - (if x == roomId then PairCount(t.participants, roomId, userId) else 0) by {
      forall x ensures RoomCount(RemovePair(t.participants, roomId, userId), x) ==
                       RoomCount(t.participants, x) - (if x == roomId then PairCount(t.participants, roomId, userId) else 0) {
        RemovePairRoomCount(t.participants, roomId, userId, x);
      }
    }
    t.(participants := RemovePair(t.participants, roomId, userId), rooms := AdjustPlayers(t.rooms, roomId, -1))
  }

  /**
   * `joinRoom` as the database runs it: the insert is refused, and nothing
   * is written, when the room or the user does not exist (the foreign keys
   * of `room_participants`); otherwise the writes of `JoinedRoom`.  The
   * foreign keys stay satisfied.
   */
  function JoinRoomChecked(t: Tables, roomId: RoomId, userId: UserId, now: int): (r: Option<Tables>)
    ensures r.None? <==> !HasRoom(t.rooms, roomId) || FindUser(t.users, userId).None?
    ensures r.Some? ==> r.value == JoinedRoom(t, roomId, userId, now)
    ensures r.Some? && Referenced(t) ==> Referenced(r.value)
  {
    if !HasRoom(t.rooms, roomId) || FindUser(t.users, userId).None? then None
    else
      var j := JoinedRoom(t, roomId, userId, now);
      forall x ensures HasRoom(j.rooms, x) <==> HasRoom(t.rooms, x) {
        AdjustKeepsRooms(t.rooms, roomId, 1, x);
      }
      Some(j)
  }

  /** A leave deletes rows only, so the foreign keys stay satisfied. */
  lemma LeaveKeepsReferences(t: Tables, roomId: RoomId, userId: UserId)
    requires Referenced(t)
    ensures Referenced(LeftRoom(t, roomId, userId))
  {
    var l := LeftRoom(t, roomId, userId);
    forall p <- l.participants ensures HasRoom(l.rooms, p.roomId) && FindUser(l.users, p.userId).Some? {
      assert multiset(l.participants)[p] > 0;
      assert p in t.participants;
      AdjustKeepsRooms(t.rooms, roomId, -1, p.roomId);
    }
  }

  /** A join followed by a leave of a pair that had no row restores every table. */
  lemma JoinLeaveRoundTrip(t: Tables, roomId: RoomId, userId: UserId, now: int)
    requires PairCount(t.participants, roomId, userId) == 0
    ensures LeftRoom(JoinedRoom(t, roomId, userId, now), roomId, userId) == t
  {
    var j := JoinedRoom(t, roomId, userId, now);
    var l := LeftRoom(j, roomId, userId);
    var row := NewParticipant(roomId, userId, now);
    RemoveAppendedPair(t.participants, roomId, userId, now);
    assert l.participants == t.participants;
    var back := AdjustPlayers(AdjustPlayers(t.rooms, roomId, 1), roomId, -1);
    assert |back| == |t.rooms|;
    forall i | 0 <= i < |t.rooms| ensures back[i] == t.rooms[i] {
    }
    assert back == t.rooms;
  }

  lemma {:induction false} RemoveAppendedPair(ps: seq<Participant>, roomId: RoomId, userId: UserId, now: int)
    requires PairCount(ps, roomId, userId) == 0
    ensures RemovePair(ps + [NewParticipant(roomId, userId, now)], roomId, userId) == ps
  {
    var row := NewParticipant(roomId, userId, now);
    if ps == [] {
      assert [] + [row] == [row];
      assert [row][1..] == [];
    } else {
      var longer := ps + [row];
      assert longer[0] == ps[0] && longer[1..] == ps[1..] + [row];
      assert !(ps[0].roomId == roomId && ps[0].userId == userId);
      RemoveAppendedPair(ps[1..], roomId, userId, now);
      calc {
        RemovePair(longer, roomId, userId);
        [ps[0]] + RemovePair(ps[1..] + [row], roomId, userId);
        [ps[0]] + ps[1..];
        ps;
      }
    }
  }

  /**
   * Leaving without a row keeps the rows but still decrements the counter:
   * `currentPlayers` drifts one below where it was relative to the row count.
   */
  lemma LeaveWithoutRowDrifts(t: Tables, roomId: RoomId, userId: UserId, n: int)
    requires PairCount(t.participants, roomId, userId) == 0
    requires PlayersOf(t.rooms, roomId) == Some(n)
    ensures LeftRoom(t, roomId, userId).participants == t.participants
    ensures PlayersOf(LeftRoom(t, roomId, userId).rooms, roomId) == Some(n - 1)
  {
  }

  /**
   * `getRoomParticipants`: exactly the rows of room `roomId` (each as often
   * as in the table), in ascending `joinedAt` order.
   */
  function GetRoomParticipants(t: Tables, roomId: RoomId): (r: seq<Participant>)
    ensures forall p :: multiset(r)[p] == if p.roomId == roomId then multiset(t.participants)[p] else 0
    ensures forall i, j :: 0 <= i < j < |r| ==> r[i].joinedAt <= r[j].joinedAt
  {
    Query.SortBy(Query.Filter(t.participants, (p: Participant) => p.roomId == roomId), (p: Participant) => p.joinedAt)
  }

  /**
   * `getRooms(true)`: exactly the rooms that are active and not started,
   * newest (`createdAt`) first.
   */
  function GetRoomsIncludingPrivate(t: Tables): (r: seq<Room>)
    ensures forall x :: multiset(r)[x] == if x.isActive && !x.isStarted then multiset(t.rooms)[x] else 0
    ensures forall i, j :: 0 <= i < j < |r| ==> r[i].createdAt >= r[j].createdAt
  {
    Query.SortBy(Query.Filter(t.rooms, (x: Room) => x.isActive && !x.isStarted), (x: Room) => -x.createdAt)
  }

  /** `getUserGameSessions`: exactly the user's sessions, newest first. */
  function GetUserGameSessions(t: Tables, userId: UserId): (r: seq<GameSession>)
    ensures forall s :: multiset(r)[s] == if s.userId == Some(userId) then multiset(t.sessions)[s] else 0
    ensures forall i, j :: 0 <= i < j < |r| ==> r[i].createdAt >= r[j].createdAt
  {
    Query.SortBy(Query.Filter(t.sessions, (s: GameSession) => s.userId == Some(userId)), (s: GameSession) => -s.createdAt)
  }

  // ---------------------------------------------------------------- leaderboard

  /** The WHERE of the leaderboard: `total_score > 0` (false on NULL). */
  predicate OnLeaderboard(u: User) {
    u.totalScore.Some? && u.totalScore.value > 0
  }

  function ScoreOf(u: User): int {
    u.totalScore.GetOr(0)
  }

  /** Sort key for ORDER BY total_score DESC. */
  function ScoreDescending(u: User): int {
    -ScoreOf(u)
  }

  /** Every positive-score user, highest `totalScore` first. */
  function Ranking(users: seq<User>): (r: seq<User>)
    ensures forall u :: multiset(r)[u] == if OnLeaderboard(u) then multiset(users)[u] else 0
    ensures forall i, j :: 0 <= i < j < |r| ==> ScoreOf(r[i]) >= ScoreOf(r[j])
  {
    Query.SortBy(Query.Filter(users, OnLeaderboard), ScoreDescending)
  }

  /** The users a leaderboard lists. */
  function Listed(lines: seq<RankedUser>): set<User> {
    set i | 0 <= i < |lines| :: lines[i].user
  }

  function Numbered(us: seq<User>): (r: seq<RankedUser>)
    ensures |r| == |us|
    ensures forall i :: 0 <= i < |us| ==> r[i] == RankedUser(us[i], i + 1)
  {
    seq(|us|, i requires 0 <= i < |us| => RankedUser(us[i], i + 1))
  }

  /** The top `limit` of the ranking, numbered from 1. */
  function Board(users: seq<User>, limit: nat): seq<RankedUser> {
    Numbered(Query.Take(Ranking(users), limit))
  }

  /**
   * `getLeaderboard(limit)`: the top `limit` users with a positive
   * `totalScore`, in non-increasing score order, each with its row number as
   * rank.  No user left out scores more than a user listed.  A negative
   * LIMIT is rejected by the database (None).
   */
  function GetLeaderboard(t: Tables, limit: int): (r: Option<seq<RankedUser>>)
    ensures r.None? <==> limit < 0
    ensures r.Some? ==> |r.value| <= limit
    ensures r.Some? ==> |r.value| == if limit < |Ranking(t.users)| then limit else |Ranking(t.users)|
    ensures r.Some? ==> forall i :: 0 <= i < |r.value| ==> r.value[i] == RankedUser(Ranking(t.users)[i], i + 1)
    ensures r.Some? ==> forall i :: 0 <= i < |r.value| ==>
      && r.value[i].rank == i + 1
      && r.value[i].user in t.users
      && OnLeaderboard(r.value[i].user)
    ensures r.Some? ==> forall i, j :: 0 <= i < j < |r.value| ==>
      ScoreOf(r.value[i].user) >= ScoreOf(r.value[j].user)
    ensures r.Some? ==> forall u, i :: u in t.users && OnLeaderboard(u) && 0 <= i < |r.value| && u !in Listed(r.value) ==>
      ScoreOf(u) <= ScoreOf(r.value[i].user)
    ensures r.Some? && |r.value| < limit ==> forall u :: u in t.users && OnLeaderboard(u) ==> u in Listed(r.value)
  {
    if limit < 0 then None
    else
      BoardIsRankedPrefix(t.users, limit);
      BoardSorted(t.users, limit);
      ListedAreOnBoard(t.users, limit);
      LeftOutScoresNoMore(t.users, limit);
      ShortBoardListsAll(t.users, limit);
      Some(Board(t.users, limit))
  }

  /** A user is ranked exactly when it is in the table with a positive score. */
  lemma InRanking(users: seq<User>, u: User)
    ensures u in Ranking(users) <==> u in users && OnLeaderboard(u)
  {
    var ranking := Ranking(users);
    assert u in ranking <==> multiset(ranking)[u] > 0;
    assert u in users <==> multiset(users)[u] > 0;
  }

  /** The board is the first `limit` ranked users, numbered from 1. */
  lemma BoardIsRankedPrefix(users: seq<User>, limit: nat)
    ensures |Board(users, limit)| == if limit < |Ranking(users)| then limit else |Ranking(users)|
    ensures forall i :: 0 <= i < |Board(users, limit)| ==>
      Board(users, limit)[i] == RankedUser(Ranking(users)[i], i + 1)
  {
    var ranking := Ranking(users);
    var top := Query.Take(ranking, limit);
    assert forall i :: 0 <= i < |top| ==> top[i] == ranking[i];
  }

  /** The board is in non-increasing score order. */
  lemma BoardSorted(users: seq<User>, limit: nat)
    ensures forall i, j :: 0 <= i < j < |Board(users, limit)| ==>
      ScoreOf(Board(users, limit)[i].user) >= ScoreOf(Board(users, limit)[j].user)
  {
    BoardIsRankedPrefix(users, limit);
  }

  /** Every listed user is in the table with a positive score. */
  lemma ListedAreOnBoard(users: seq<User>, limit: nat)
    ensures forall i :: 0 <= i < |Board(users, limit)| ==>
      Board(users, limit)[i].user in users && OnLeaderboard(Board(users, limit)[i].user)
  {
    BoardIsRankedPrefix(users, limit);
    var ranking := Ranking(users);
    forall i | 0 <= i < |Board(users, limit)|
      ensures Board(users, limit)[i].user in users && OnLeaderboard(Board(users, limit)[i].user)
    {
      InRanking(users, ranking[i]);
    }
  }

  /** A positive-score user that is not listed scores no more than any listed one. */
  lemma LeftOutScoresNoMore(users: seq<User>, limit: nat)
    ensures forall u, i :: u in users && OnLeaderboard(u) && 0 <= i < |Board(users, limit)|
                           && u !in Listed(Board(users, limit)) ==>
      ScoreOf(u) <= ScoreOf(Board(users, limit)[i].user)
  {
    forall u, i | u in users && OnLeaderboard(u) && 0 <= i < |Board(users, limit)| && u !in Listed(Board(users, limit))
      ensures ScoreOf(u) <= ScoreOf(Board(users, limit)[i].user)
    {
      LeftOutBelowLine(users, limit, u, i);
    }
  }

  /** The ranking places an unlisted user after every line of the board. */
  lemma LeftOutBelowLine(users: seq<User>, limit: nat, u: User, i: nat)
    requires u in users && OnLeaderboard(u)
    requires i < |Board(users, limit)| && u !in Listed(Board(users, limit))
    ensures ScoreOf(u) <= ScoreOf(Board(users, limit)[i].user)
  {
    BoardIsRankedPrefix(users, limit);
    var ranking := Ranking(users);
    var lines := Board(users, limit);
    InRanking(users, u);
    var j :| 0 <= j < |ranking| && ranking[j] == u;
    forall k | 0 <= k < |lines| ensures ranking[k] != u {
      assert lines[k].user in Listed(lines);
    }
    assert i < j;
    assert ScoreOf(ranking[i]) >= ScoreOf(ranking[j]);
  }

  /** A board shorter than its limit lists every positive-score user. */
  lemma ShortBoardListsAll(users: seq<User>, limit: nat)
    ensures |Board(users, limit)| < limit ==>
      forall u :: u in users && OnLeaderboard(u) ==> u in Listed(Board(users, limit))
  {
    BoardIsRankedPrefix(users, limit);
    var ranking := Ranking(users);
    var lines := Board(users, limit);
    if |lines| < limit {
      assert |lines| == |ranking|;
      forall u | u in users && OnLeaderboard(u) ensures u in Listed(lines) {
        InRanking(users, u);
        var j :| 0 <= j < |ranking| && ranking[j] == u;
        assert lines[j].user == u;
        assert lines[j].user in Listed(lines);
      }
    }
  }

  // ---------------------------------------------------------------- inventory

  /** `quantity` of the (`userId`, `itemType`) row the SELECT returns first, if any. */
  function QuantityOf(inv: seq<InventoryItem>, userId: UserId, itemType: string): Option<int> {
    if inv == [] then None
    else if inv[0].userId == userId && inv[0].itemType == itemType then Some(inv[0].quantity)
    else QuantityOf(inv[1..], userId, itemType)
  }

  /** At most one row per (user, item type): the key the upsert in `addToInventory` conflicts on. */
  predicate UniqueItems(inv: seq<InventoryItem>) {
    forall i, j :: 0 <= i < j < |inv| ==> inv[i].userId != inv[j].userId || inv[i].itemType != inv[j].itemType
  }

  /** UPDATE user_inventory SET quantity = quantity + delta WHERE user_id = `userId` AND item_type = `itemType`. */
  function AdjustQuantity(inv: seq<InventoryItem>, userId: UserId, itemType: string, delta: int): (r: seq<InventoryItem>)
    ensures |r| == |inv|
    ensures forall i :: 0 <= i < |inv| ==> r[i].userId == inv[i].userId && r[i].itemType == inv[i].itemType
    ensures forall u, it :: QuantityOf(r, u, it) ==
                 NullAdd(QuantityOf(inv, u, it), if u == userId && it == itemType then delta else 0)
  {
    if inv == [] then []
    else
      var head := if inv[0].userId == userId && inv[0].itemType == itemType
        then inv[0].(quantity := inv[0].quantity + delta) else inv[0];
      [head] + AdjustQuantity(inv[1..], userId, itemType, delta)
  }

  lemma {:induction false} QuantityOfAppend(inv: seq<InventoryItem>, row: InventoryItem, u: UserId, it: string)
    ensures QuantityOf(inv + [row], u, it) ==
      if QuantityOf(inv, u, it).Some? then QuantityOf(inv, u, it)
      else if row.userId == u && row.itemType == it then Some(row.quantity)
      else None
  {
    if inv != [] {
      assert (inv + [row])[1..] == inv[1..] + [row];
      QuantityOfAppend(inv[1..], row, u, it);
    }
  }

  lemma {:induction false} QuantityOfFound(inv: seq<InventoryItem>, u: UserId, it: string)
    ensures QuantityOf(inv, u, it).None? <==> forall i :: 0 <= i < |inv| ==> inv[i].userId != u || inv[i].itemType != it
    ensures QuantityOf(inv, u, it).Some? ==> InventoryItem(u, it, QuantityOf(inv, u, it).value) in inv
  {
    if inv != [] {
      QuantityOfFound(inv[1..], u, it);
    }
  }

  /**
   * `addToInventory` as the upsert it intends: with a row for the pair its
   * quantity grows by `quantity`, otherwise a row with `quantity` is
   * inserted.  Every other pair keeps its quantity, and there stays at most
   * one row per pair.
   */
  function AddedToInventory(t: Tables, userId: UserId, itemType: string, quantity: int): (r: Tables)
    ensures QuantityOf(r.inventory, userId, itemType) == Some(QuantityOf(t.inventory, userId, itemType).GetOr(0) + quantity)
    ensures forall u, it :: (u != userId || it != itemType) ==> QuantityOf(r.inventory, u, it) == QuantityOf(t.inventory, u, it)
    ensures UniqueItems(t.inventory) ==> UniqueItems(r.inventory)
    ensures r.(inventory := t.inventory) == t
  {
    if QuantityOf(t.inventory, userId, itemType).Some? then
      t.(inventory := AdjustQuantity(t.inventory, userId, itemType, quantity))
    else
      var row := InventoryItem(userId, itemType, quantity);
      forall u, it ensures QuantityOf(t.inventory + [row], u, it) ==
        if u == userId && it == itemType then Some(quantity) else QuantityOf(t.inventory, u, it)
      {
        QuantityOfAppend(t.inventory, row, u, it);
      }
      QuantityOfFound(t.inventory, userId, itemType);
      t.(inventory := t.inventory + [row])
  }

  /**
   * `addToInventory` as the database runs it: refused, with nothing
   * written, when the user does not exist (the foreign key of
   * `user_inventory`); otherwise the upsert.  The foreign keys stay
   * satisfied.
   */
  function AddToInventoryChecked(t: Tables, userId: UserId, itemType: string, quantity: int): (r: Option<Tables>)
    ensures r.None? <==> FindUser(t.users, userId).None?
    ensures r.Some? ==> r.value == AddedToInventory(t, userId, itemType, quantity)
    ensures r.Some? && Referenced(t) ==> Referenced(r.value)
  {
    if FindUser(t.users, userId).None? then None
    else
      Some(AddedToInventory(t, userId, itemType, quantity))
  }

  /**
   * `useInventoryItem`: fails and changes nothing when the pair has no row
   * or fewer than `quantity` items; otherwise succeeds and the quantity drops
   * by exactly `quantity`, never below zero.  Other pairs are unchanged.
   */
  function UsedInventory(t: Tables, userId: UserId, itemType: string, quantity: int): (r: UseOutcome)
    ensures r.ok <==> QuantityOf(t.inventory, userId, itemType).Some? && QuantityOf(t.inventory, userId, itemType).value >= quantity
    ensures !r.ok ==> r.tables == t
    ensures r.ok ==> QuantityOf(r.tables.inventory, userId, itemType) == Some(QuantityOf(t.inventory, userId, itemType).value - quantity)
    ensures r.ok ==> QuantityOf(r.tables.inventory, userId, itemType).value >= 0
    ensures forall u, it :: (u != userId || it != itemType) ==> QuantityOf(r.tables.inventory, u, it) == QuantityOf(t.inventory, u, it)
    ensures UniqueItems(t.inventory) ==> UniqueItems(r.tables.inventory)
    ensures r.tables.(inventory := t.inventory) == t
  {
    var item := QuantityOf(t.inventory, userId, itemType);
    if item.None? || item.value < quantity then UseOutcome(false, t)
    else UseOutcome(true, t.(inventory := AdjustQuantity(t.inventory, userId, itemType, -quantity)))
  }

  /** Using items changes quantities only, so the foreign keys stay satisfied. */
  lemma UseKeepsReferences(t: Tables, userId: UserId, itemType: string, quantity: int)
    requires Referenced(t)
    ensures Referenced(UsedInventory(t, userId, itemType, quantity).tables)
  {
    var r := UsedInventory(t, userId, itemType, quantity).tables;
    if r != t {
      assert forall i :: 0 <= i < |r.inventory| ==> r.inventory[i].userId == t.inventory[i].userId;
    }
  }

  /** Updating a user's coins or statistics keeps every user, so the foreign keys stay satisfied. */
  lemma UserUpdatesKeepReferences(t: Tables, userId: UserId, n: int)
    requires Referenced(t)
    ensures Referenced(CoinsUpdated(t, userId, n)) && Referenced(StatsUpdated(t, userId, n))
  {
  }

  /** Items just added can be used at once, and using them restores the old quantity. */
  lemma AddThenUse(t: Tables, userId: UserId, itemType: string, quantity: int)
    requires QuantityOf(t.inventory, userId, itemType).GetOr(0) >= 0
    ensures UsedInventory(AddedToInventory(t, userId, itemType, quantity), userId, itemType, quantity).ok
    ensures QuantityOf(UsedInventory(AddedToInventory(t, userId, itemType, quantity), userId, itemType, quantity).tables.inventory, userId, itemType)
      == Some(QuantityOf(t.inventory, userId, itemType).GetOr(0))
  {
    var before := QuantityOf(t.inventory, userId, itemType).GetOr(0);
    var added := AddedToInventory(t, userId, itemType, quantity);
    assert QuantityOf(added.inventory, userId, itemType) == Some(before + quantity);
    UseAvailable(added, userId, itemType, quantity, before + quantity);
  }

  /** Using no more than the held quantity succeeds and leaves the difference. */
  lemma UseAvailable(t: Tables, userId: UserId, itemType: string, quantity: int, held: int)
    requires QuantityOf(t.inventory, userId, itemType) == Some(held) && held >= quantity
    ensures UsedInventory(t, userId, itemType, quantity).ok
    ensures QuantityOf(UsedInventory(t, userId, itemType, quantity).tables.inventory, userId, itemType) == Some(held - quantity)
  {
  }

  // ---------------------------------------------------------------- the store object

  /** The `DatabaseStorage` object: the tables it owns, changed in place by its writers. */
  class Store {
    var users: seq<User>
    var rooms: seq<Room>
    var participants: seq<Participant>
    var inventory: seq<InventoryItem>
    var sessions: seq<GameSession>

    function Snapshot(): Tables
      reads this
    {
      Tables(users, rooms, participants, inventory, sessions)
    }

    ghost predicate Valid()
      reads this
    {
      UniqueItems(inventory) && Referenced(Snapshot())
    }

    constructor (t: Tables)
      requires UniqueItems(t.inventory) && Referenced(t)
      ensures Valid() && Snapshot() == t
    {
      users, rooms, participants, inventory, sessions := t.users, t.rooms, t.participants, t.inventory, t.sessions;
    }

    /** `p` is None, and nothing is written, when the insert breaks a foreign key. */
    method JoinRoom(roomId: RoomId, userId: UserId, now: int) returns (p: Option<Participant>)
      requires Valid()
      modifies this
      ensures Valid()
      ensures p.None? <==> JoinRoomChecked(old(Snapshot()), roomId, userId, now).None?
      ensures p.None? ==> Snapshot() == old(Snapshot())
      ensures p.Some? ==> Some(Snapshot()) == JoinRoomChecked(old(Snapshot()), roomId, userId, now)
      ensures p.Some? ==> p.value == NewParticipant(roomId, userId, now) && p.value.roomId == roomId && p.value.userId == userId
    {
      if !HasRoom(rooms, roomId) || FindUser(users, userId).None? {
        return None;
      }
      ghost var before := Snapshot();
      var row := NewParticipant(roomId, userId, now);
      participants := participants + [row];
      rooms := AdjustPlayers(rooms, roomId, 1);
      assert JoinRoomChecked(before, roomId, userId, now) == Some(Snapshot());
      p := Some(row);
    }

    method LeaveRoom(roomId: RoomId, userId: UserId)
      requires Valid()
      modifies this
      ensures Valid()
      ensures Snapshot() == LeftRoom(old(Snapshot()), roomId, userId)
    {
      LeaveKeepsReferences(Snapshot(), roomId, userId);
      participants := RemovePair(participants, roomId, userId);
      rooms := AdjustPlayers(rooms, roomId, -1);
    }

    /** `ok` is false, and nothing is written, when the user does not exist. */
    method AddToInventory(userId: UserId, itemType: string, quantity: int) returns (ok: bool)
      requires Valid()
      modifies this
      ensures Valid()
      ensures !ok <==> AddToInventoryChecked(old(Snapshot()), userId, itemType, quantity).None?
      ensures !ok ==> Snapshot() == old(Snapshot())
      ensures ok ==> Some(Snapshot()) == AddToInventoryChecked(old(Snapshot()), userId, itemType, quantity)
    {
      if FindUser(users, userId).None? {
        return false;
      }
      ghost var before := Snapshot();
      if QuantityOf(inventory, userId, itemType).Some? {
        inventory := AdjustQuantity(inventory, userId, itemType, quantity);
      } else {
        inventory := inventory + [InventoryItem(userId, itemType, quantity)];
      }
      assert Snapshot() == AddedToInventory(before, userId, itemType, quantity);
      ok := true;
    }

    method UseInventoryItem(userId: UserId, itemType: string, quantity: int) returns (ok: bool)
      requires Valid()
      modifies this
      ensures Valid()
      ensures UseOutcome(ok, Snapshot()) == UsedInventory(old(Snapshot()), userId, itemType, quantity)
    {
      var item := QuantityOf(inventory, userId, itemType);
      if item.None? || item.value < quantity {
        return false;
      }
      UseKeepsReferences(Snapshot(), userId, itemType, quantity);
      inventory := AdjustQuantity(inventory, userId, itemType, -quantity);
      return true;
    }

    method UpdateUserStats(userId: UserId, score: int)
      requires Valid()
      modifies this
      ensures Valid()
      ensures Snapshot() == StatsUpdated(old(Snapshot()), userId, score)
    {
      UserUpdatesKeepReferences(Snapshot(), userId, score);
      users := UpdateUser(users, userId, u => AddGame(u, score));
    }

    method UpdateUserCoins(userId: UserId, coins: int)
      requires Valid()
      modifies this
      ensures Valid()
      ensures Snapshot() == CoinsUpdated(old(Snapshot()), userId, coins)
    {
      UserUpdatesKeepReferences(Snapshot(), userId, coins);
      users := UpdateUser(users, userId, u => SetCoins(u, coins));
    }
  }
}
