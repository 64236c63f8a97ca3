/**
 * The multiplayer connection registry of server/routes.ts: the in-memory
 * maps `roomConnections` (room -> user -> socket) and `userRooms`
 * (user -> room), the WebSocket message handlers that change them, the
 * socket `close` handler, and `broadcastToRoom`.
 *
 * A socket is an opaque identity; whether it is OPEN is membership in the
 * set `open` supplied by the transport.  A handler's sends are returned as
 * a sequence of deliveries.  What the handlers fetch from the store
 * (participant lists, question batches, answer checks) is supplied by a
 * `Collaborators` value.
 */
module Registry {
  import opened Wrappers

  type RoomId = string
  type UserId = string

  /** A WebSocket, known only by its identity. */
  type ConnId = nat

  /** A JSON value fetched from the store or carried through from a client. */
  type Payload = string

  /** The client messages the `switch` on `type` distinguishes; any other `type` is `Unknown`. */
  datatype InMsg =
    | JoinRoom(roomId: RoomId, userId: UserId)
    | LeaveRoom(roomId: RoomId, userId: UserId)
    | GameStart(roomId: RoomId, category: Option<string>)
    | SubmitAnswer(roomId: RoomId, userId: UserId, questionId: string, answer: string)
    | NextQuestion(roomId: RoomId, payload: Payload)
    | Unknown

  /** The server messages. */
  datatype OutMsg =
    | UserJoined(userId: UserId, participants: Payload)
    | UserLeft(userId: UserId, participants: Payload)
    | GameStarted(questions: Payload)
    | AnswerResult(isCorrect: bool, questionId: string)
    | PlayerAnswered(userId: UserId, questionId: string)
    | NextQuestionMsg(payload: Payload)

  /** One `send` of a message on a socket. */
  datatype Delivery = Delivery(conn: ConnId, msg: OutMsg)

  /** What the handlers obtain from the store. */
  datatype Collaborators = Collaborators(
    participants: RoomId -> Payload,          // getRoomParticipants(roomId)
    questionsFor: Option<string> -> Payload,  // getQuestionsForGame(10, category)
    checkAnswer: (string, string) -> bool)    // checkAnswer(questionId, answer)

  /** The two maps of the registry. */
  datatype Conns = Conns(rooms: map<RoomId, map<UserId, ConnId>>, userRooms: map<UserId, RoomId>)

  /** Every reverse entry is backed by a forward entry: the invariant the handlers keep. */
  predicate ReverseBacked(s: Conns) {
    forall u :: u in s.userRooms ==> s.userRooms[u] in s.rooms && u in s.rooms[s.userRooms[u]]
  }

  /** Full two-way agreement of the maps, which the handlers do not keep. */
  predicate Agree(s: Conns) {
    && ReverseBacked(s)
    && forall r, u :: r in s.rooms && u in s.rooms[r] ==> u in s.userRooms && s.userRooms[u] == r
  }

  // ---------------------------------------------------------------- the state changes

  /**
   * `join_room`: the room's map is created if missing, the user's entry in
   * it is set to the socket, and the user's reverse entry points at the
   * room.  No other room's map changes, so an entry the user holds in an
   * earlier room stays.
   */
  function Joined(s: Conns, roomId: RoomId, userId: UserId, ws: ConnId): (t: Conns)
    ensures t.userRooms == s.userRooms[userId := roomId]
    ensures roomId in t.rooms && userId in t.rooms[roomId] && t.rooms[roomId][userId] == ws
    ensures t.rooms[roomId].Keys == (if roomId in s.rooms then s.rooms[roomId].Keys else {}) + {userId}
    ensures forall v :: v in t.rooms[roomId] && v != userId ==> t.rooms[roomId][v] == s.rooms[roomId][v]
    ensures forall r :: r != roomId ==> (r in t.rooms <==> r in s.rooms)
    ensures forall r :: r != roomId && r in s.rooms ==> t.rooms[r] == s.rooms[r]
    ensures ReverseBacked(s) ==> ReverseBacked(t)
  {
    var room := if roomId in s.rooms then s.rooms[roomId] else map[];
    Conns(s.rooms[roomId := room[userId := ws]], s.userRooms[userId := roomId])
  }

  /**
   * `leave_room`: the user's entry in that room's map (if the map exists)
   * is removed and the user's reverse entry is deleted, whichever room it
   * named.  An emptied map is kept.
   */
  function Left(s: Conns, roomId: RoomId, userId: UserId): (t: Conns)
    ensures t.userRooms == s.userRooms - {userId}
    ensures t.rooms.Keys == s.rooms.Keys
    ensures roomId in s.rooms ==> t.rooms[roomId] == s.rooms[roomId] - {userId}
    ensures forall r :: r in s.rooms && r != roomId ==> t.rooms[r] == s.rooms[r]
    ensures ReverseBacked(s) ==> ReverseBacked(t)
  {
    if roomId in s.rooms then Conns(s.rooms[roomId := s.rooms[roomId] - {userId}], s.userRooms - {userId})
    else Conns(s.rooms, s.userRooms - {userId})
  }

  /** The users whose current room (by the reverse map) holds them on socket `ws`. */
  function HeldBy(s: Conns, ws: ConnId): (r: set<UserId>)
    ensures r <= s.userRooms.Keys
  {
    set u | u in s.userRooms && s.userRooms[u] in s.rooms && u in s.rooms[s.userRooms[u]]
                              && s.rooms[s.userRooms[u]][u] == ws
  }

  /** Under the invariant, a user with a reverse entry is held exactly when its entry there is on `ws`. */
  lemma HeldExactly(s: Conns, ws: ConnId, u: UserId)
    requires ReverseBacked(s) && u in s.userRooms
    ensures u in HeldBy(s, ws) <==> s.rooms[s.userRooms[u]][u] == ws
  {
  }

  /** Both maps without the users in `gone`, each removed from the room its reverse entry names. */
  function Strip(s: Conns, gone: set<UserId>): (r: Conns)
    ensures r.userRooms == s.userRooms - gone
    ensures r.rooms.Keys == s.rooms.Keys
  {
    Conns(map r | r in s.rooms :: s.rooms[r] - GoneFrom(s, gone, r), s.userRooms - gone)
  }

  /**
   * Stripping removes a forward entry exactly when its user is gone and the
   * reverse map names that room; kept entries keep their socket, and no
   * entry is added.
   */
  lemma StripRemovesExactly(s: Conns, gone: set<UserId>, room: RoomId, u: UserId)
    requires room in s.rooms
    ensures var r := Strip(s, gone).rooms[room];
      && r.Keys <= s.rooms[room].Keys
      && (u in s.rooms[room] ==> (u in r <==> !(u in gone && u in s.userRooms && s.userRooms[u] == room)))
      && (u in r ==> r[u] == s.rooms[room][u])
  {
  }

  /** The users of `gone` whose reverse entry names room `r`. */
  function GoneFrom(s: Conns, gone: set<UserId>, r: RoomId): set<UserId> {
    set u | u in gone && u in s.userRooms && s.userRooms[u] == r
  }

  /**
   * The socket `close` handler: every user whose current room holds it on
   * the closing socket is removed from both maps.  Entries on other sockets,
   * and entries on this socket that the reverse map does not lead to, stay.
   */
  function Closed(s: Conns, ws: ConnId): (t: Conns)
    ensures forall u :: u in t.userRooms <==> u in s.userRooms && u !in HeldBy(s, ws)
    ensures forall u :: u in t.userRooms ==> t.userRooms[u] == s.userRooms[u]
    ensures t.rooms.Keys == s.rooms.Keys
    ensures forall r, u :: r in s.rooms && u in s.rooms[r] ==>
                             (u in t.rooms[r] <==> !(u in HeldBy(s, ws) && s.userRooms[u] == r))
    ensures forall r, u :: r in s.rooms && u in s.rooms[r] && s.rooms[r][u] != ws ==>
                             u in t.rooms[r] && t.rooms[r][u] == s.rooms[r][u]
    ensures forall r, u :: r in t.rooms && u in t.rooms[r] ==> u in s.rooms[r] && t.rooms[r][u] == s.rooms[r][u]
    ensures ReverseBacked(s) ==> ReverseBacked(t)
    ensures HeldBy(t, ws) == {}
  {
    var t := Strip(s, HeldBy(s, ws));
    assert HeldBy(t, ws) == {};
    t
  }

  // ---------------------------------------------------------------- broadcasting

  /**
   * `out` sends `msg` once for each entry of `room` whose socket is open,
   * the entries being visited in the order `recipients` lists them.
   */
  predicate IsFanOut(room: map<UserId, ConnId>, msg: OutMsg, open: set<ConnId>,
                     out: seq<Delivery>, recipients: seq<UserId>) {
    && |out| == |recipients|
    && (forall i, j :: 0 <= i < j < |recipients| ==> recipients[i] != recipients[j])
    && (forall i :: 0 <= i < |recipients| ==>
          && recipients[i] in room && room[recipients[i]] in open
          && out[i] == Delivery(room[recipients[i]], msg))
    && (forall u :: u in room && room[u] in open ==> u in recipients)
  }

  /** `out` is what `broadcastToRoom(roomId, msg)` sends in state `s`: nothing if the room has no map. */
  ghost predicate Broadcast(s: Conns, roomId: RoomId, msg: OutMsg, open: set<ConnId>, out: seq<Delivery>) {
    if roomId in s.rooms then exists rs :: IsFanOut(s.rooms[roomId], msg, open, out, rs)
    else out == []
  }

  /** The deliveries of several broadcasts, one after the other. */
  function Flatten(parts: seq<seq<Delivery>>): seq<Delivery> {
    if parts == [] then [] else Flatten(parts[..|parts| - 1]) + parts[|parts| - 1]
  }

  /** One more broadcast appends its deliveries. */
  lemma FlattenSnoc(parts: seq<seq<Delivery>>, part: seq<Delivery>)
    ensures Flatten(parts + [part]) == Flatten(parts) + part
  {
    assert (parts + [part])[..|parts|] == parts;
  }

  /** Removing one more held user from a stripped state is one `delete` on each map. */
  lemma StripOneMore(s: Conns, gone: set<UserId>, u: UserId)
    requires u in s.userRooms && s.userRooms[u] in s.rooms && u !in gone
    ensures Strip(s, gone + {u}) ==
      var t := Strip(s, gone);
      Conns(t.rooms[s.userRooms[u] := t.rooms[s.userRooms[u]] - {u}], t.userRooms - {u})
  {
    var t := Strip(s, gone);
    var t' := Strip(s, gone + {u});
    var r0 := s.userRooms[u];
    var want := t.rooms[r0 := t.rooms[r0] - {u}];
    forall r | r in s.rooms ensures t'.rooms[r] == want[r] {
      assert GoneFrom(s, gone + {u}, r) == if r == r0 then GoneFrom(s, gone, r) + {u} else GoneFrom(s, gone, r);
    }
    assert t'.rooms == want;
    assert t'.userRooms == t.userRooms - {u};
  }

  /**
   * One step of the close handler's walk: the visited user's reverse entry
   * is untouched so far, the test on its current room's entry decides
   * exactly whether it is held by the closing socket, and removing it (or
   * not) is the stripped state with that user counted as visited.
   */
  lemma WalkStep(s0: Conns, ws: ConnId, done: set<UserId>, u: UserId)
    requires u in s0.userRooms && u !in done
    ensures var held := HeldBy(s0, ws);
      var cur := Strip(s0, held * done);
      var r := s0.userRooms[u];
      && u in cur.userRooms && cur.userRooms[u] == r
      && ((r in cur.rooms && u in cur.rooms[r] && cur.rooms[r][u] == ws) <==> u in held)
      && (u in held ==> Strip(s0, held * (done + {u})) == Conns(cur.rooms[r := cur.rooms[r] - {u}], cur.userRooms - {u}))
      && (u !in held ==> Strip(s0, held * (done + {u})) == cur)
  {
    var held := HeldBy(s0, ws);
    var r := s0.userRooms[u];
    if r in s0.rooms {
      assert u !in GoneFrom(s0, held * done, r);
    }
    if u in held {
      StripOneMore(s0, held * done, u);
      assert held * (done + {u}) == held * done + {u};
    } else {
      assert held * (done + {u}) == held * done;
    }
  }

  /** Closing a socket a second time changes nothing. */
  lemma CloseIdempotent(s: Conns, ws: ConnId)
    ensures Closed(Closed(s, ws), ws) == Closed(s, ws)
  {
    var t := Closed(s, ws);
    assert HeldBy(t, ws) == {};
    StripNothing(t);
  }

  /** Stripping no users leaves both maps as they are. */
  lemma StripNothing(s: Conns)
    ensures Strip(s, {}) == s
  {
    var t := Strip(s, {});
    forall r | r in s.rooms ensures t.rooms[r] == s.rooms[r] {
      assert GoneFrom(s, {}, r) == {};
    }
    assert t.rooms == s.rooms;
    assert t.userRooms == s.userRooms;
  }

  /** A second join to the same room replaces the socket and adds no second entry. */
  lemma RejoinReplacesSocket(s: Conns, roomId: RoomId, userId: UserId, ws1: ConnId, ws2: ConnId)
    ensures Joined(Joined(s, roomId, userId, ws1), roomId, userId, ws2) == Joined(s, roomId, userId, ws2)
  {
    var room: map<UserId, ConnId> := if roomId in s.rooms then s.rooms[roomId] else map[];
    assert room[userId := ws1][userId := ws2] == room[userId := ws2];
    assert s.rooms[roomId := room[userId := ws1]][roomId := room[userId := ws2]] == s.rooms[roomId := room[userId := ws2]];
    assert s.userRooms[userId := roomId][userId := roomId] == s.userRooms[userId := roomId];
  }

  /**
   * Joining a room the user is in nowhere, then leaving it, restores both
   * maps (the room's map already existed).
   */
  lemma JoinLeaveRoundTrip(s: Conns, roomId: RoomId, userId: UserId, ws: ConnId)
    requires roomId in s.rooms && userId !in s.rooms[roomId] && userId !in s.userRooms
    ensures Left(Joined(s, roomId, userId, ws), roomId, userId) == s
  {
    var room := s.rooms[roomId];
    assert room[userId := ws] - {userId} == room;
    assert s.rooms[roomId := room] == s.rooms;
    assert s.userRooms[userId := roomId] - {userId} == s.userRooms;
  }

  /**
   * The converse of `ReverseBacked` is not kept: joining one room and then
   * another leaves the first room's entry behind, so the forward map lists
   * the user in a room the reverse map does not name.
   */
  lemma RejoinBreaksAgreement()
    ensures var s := Joined(Joined(Conns(map[], map[]), "r1", "u", 1), "r2", "u", 1);
      && ReverseBacked(s) && !Agree(s)
      && "u" in s.rooms["r1"] && "u" in s.rooms["r2"]
  {
    var s := Joined(Joined(Conns(map[], map[]), "r1", "u", 1), "r2", "u", 1);
    assert "r1" != "r2";
    assert s.userRooms["u"] == "r2";
    assert "u" in s.rooms["r1"];
  }

  /**
   * After that second join, closing the socket removes only the entry the
   * reverse map leads to: the first room keeps an entry on the closed socket.
   */
  lemma CloseMissesStaleEntry()
    ensures var s := Closed(Joined(Joined(Conns(map[], map[]), "r1", "u", 1), "r2", "u", 1), 1);
      && "u" !in s.userRooms && "u" !in s.rooms["r2"]
      && "u" in s.rooms["r1"] && s.rooms["r1"]["u"] == 1
  {
    var j := Joined(Joined(Conns(map[], map[]), "r1", "u", 1), "r2", "u", 1);
    assert "r1" != "r2";
    assert j.userRooms["u"] == "r2" && j.rooms["r2"]["u"] == 1;
    assert "u" in HeldBy(j, 1);
    assert j.rooms["r1"]["u"] == 1;
  }

  // ---------------------------------------------------------------- the registry object

  /** The two maps created once per server, changed in place by the handlers. */
  class ConnectionRegistry {
    var roomConnections: map<RoomId, map<UserId, ConnId>>
    var userRooms: map<UserId, RoomId>

    function State(): Conns
      reads this
    {
      Conns(roomConnections, userRooms)
    }

    ghost predicate Valid()
      reads this
    {
      ReverseBacked(State())
    }

    constructor ()
      ensures Valid() && State() == Conns(map[], map[])
    {
      roomConnections := map[];
      userRooms := map[];
    }

    /**
     * `broadcastToRoom`: sends `msg` exactly once per entry of the room's map
     * whose socket is open, the same message each time; closed sockets are
     * skipped and a room without a map gets nothing.  Nothing is changed.
     */
    method BroadcastToRoom(roomId: RoomId, msg: OutMsg, open: set<ConnId>)
      returns (out: seq<Delivery>, recipients: seq<UserId>)
      ensures roomId !in roomConnections ==> out == [] && recipients == []
      ensures roomId in roomConnections ==> IsFanOut(roomConnections[roomId], msg, open, out, recipients)
      ensures forall d :: d in out ==> d.msg == msg && d.conn in open
    {
      out, recipients := [], [];
      if roomId in roomConnections {
        var room := roomConnections[roomId];
        var todo := room.Keys;
        while todo != {}
          invariant todo <= room.Keys
          invariant |out| == |recipients|
          invariant forall i, j :: 0 <= i < j < |recipients| ==> recipients[i] != recipients[j]
          invariant forall i :: 0 <= i < |recipients| ==>
                      && recipients[i] in room && recipients[i] !in todo && room[recipients[i]] in open
                      && out[i] == Delivery(room[recipients[i]], msg)
          invariant forall u :: u in room && u !in todo && room[u] in open ==> u in recipients
          decreases todo
        {
          var u :| u in todo;
          if room[u] in open {
            out := out + [Delivery(room[u], msg)];
            recipients := recipients + [u];
          }
          todo := todo - {u};
        }
      }
    }

    /** Broadcasts, stated as the `Broadcast` relation on the current state. */
    method Send(roomId: RoomId, msg: OutMsg, open: set<ConnId>) returns (out: seq<Delivery>)
      ensures Broadcast(State(), roomId, msg, open, out)
      ensures forall d :: d in out ==> d.msg == msg && d.conn in open
    {
      var recipients;
      out, recipients := BroadcastToRoom(roomId, msg, open);
    }

    /**
     * `join_room`: registers the user on this socket, then broadcasts
     * `user_joined` to the room, so an open joiner receives its own.
     */
    method JoinRoom(ws: ConnId, roomId: RoomId, userId: UserId, open: set<ConnId>, env: Collaborators)
      returns (out: seq<Delivery>)
      requires Valid()
      modifies this
      ensures Valid()
      ensures State() == Joined(old(State()), roomId, userId, ws)
      ensures Broadcast(State(), roomId, UserJoined(userId, env.participants(roomId)), open, out)
      ensures ws in open ==> Delivery(ws, UserJoined(userId, env.participants(roomId))) in out
    {
      ghost var s := State();
      var room: map<UserId, ConnId> := if roomId in roomConnections then roomConnections[roomId] else map[];
      roomConnections := roomConnections[roomId := room[userId := ws]];
      userRooms := userRooms[userId := roomId];
      assert State() == Joined(s, roomId, userId, ws);
      assert ReverseBacked(State());
      var recipients;
      out, recipients := BroadcastToRoom(roomId, UserJoined(userId, env.participants(roomId)), open);
      if ws in open {
        assert userId in recipients;
        var i :| 0 <= i < |recipients| && recipients[i] == userId;
        assert out[i] == Delivery(ws, UserJoined(userId, env.participants(roomId)));
      }
    }

    /**
     * `leave_room`: unregisters the user, then broadcasts `user_left` to the
     * room; the leaver's own entry is gone before the broadcast.
     */
    method LeaveRoom(roomId: RoomId, userId: UserId, open: set<ConnId>, env: Collaborators)
      returns (out: seq<Delivery>)
      requires Valid()
      modifies this
      ensures Valid()
      ensures State() == Left(old(State()), roomId, userId)
      ensures Broadcast(State(), roomId, UserLeft(userId, env.participants(roomId)), open, out)
      ensures roomId in State().rooms ==> userId !in State().rooms[roomId]
    {
      if roomId in roomConnections {
        roomConnections := roomConnections[roomId := roomConnections[roomId] - {userId}];
      }
      userRooms := userRooms - {userId};
      out := Send(roomId, UserLeft(userId, env.participants(roomId)), open);
    }

    /** `game_start`: one `game_started` broadcast with the fetched question batch. */
    method GameStart(roomId: RoomId, category: Option<string>, open: set<ConnId>, env: Collaborators)
      returns (out: seq<Delivery>)
      ensures Broadcast(State(), roomId, GameStarted(env.questionsFor(category)), open, out)
      ensures forall d :: d in out ==> d.msg == GameStarted(env.questionsFor(category))
    {
      out := Send(roomId, GameStarted(env.questionsFor(category)), open);
    }

    /**
     * `submit_answer`: the correctness result goes to the submitting socket
     * only; the room hears `player_answered`, which carries no correctness.
     */
    method SubmitAnswer(ws: ConnId, roomId: RoomId, userId: UserId, questionId: string, answer: string,
                        open: set<ConnId>, env: Collaborators)
      returns (out: seq<Delivery>)
      ensures |out| >= 1 && out[0] == Delivery(ws, AnswerResult(env.checkAnswer(questionId, answer), questionId))
      ensures Broadcast(State(), roomId, PlayerAnswered(userId, questionId), open, out[1..])
      ensures forall i :: 1 <= i < |out| ==> out[i].msg == PlayerAnswered(userId, questionId)
    {
      var isCorrect := env.checkAnswer(questionId, answer);
      var rest := Send(roomId, PlayerAnswered(userId, questionId), open);
      out := [Delivery(ws, AnswerResult(isCorrect, questionId))] + rest;
      assert out[1..] == rest;
    }

    /** `next_question`: the client's payload is relayed to the room unchanged. */
    method NextQuestion(roomId: RoomId, payload: Payload, open: set<ConnId>) returns (out: seq<Delivery>)
      ensures Broadcast(State(), roomId, NextQuestionMsg(payload), open, out)
      ensures forall d :: d in out ==> d.msg == NextQuestionMsg(payload)
    {
      out := Send(roomId, NextQuestionMsg(payload), open);
    }

    /**
     * The socket `close` handler: removes every user whose current room holds
     * it on this socket, then sends one `user_left` broadcast per removed user
     * to the room it was in, on the registry as it is after all the removals.
     */
    method Close(ws: ConnId, open: set<ConnId>, env: Collaborators)
      returns (out: seq<Delivery>, leavers: seq<UserId>, ghost parts: seq<seq<Delivery>>)
      requires Valid()
      modifies this
      ensures Valid()
      ensures State() == Closed(old(State()), ws)
      ensures forall i, j :: 0 <= i < j < |leavers| ==> leavers[i] != leavers[j]
      ensures forall u :: u in leavers <==> u in HeldBy(old(State()), ws)
      ensures |parts| == |leavers| && out == Flatten(parts)
      ensures forall k :: 0 <= k < |leavers| ==>
                leavers[k] in old(userRooms) &&
                Broadcast(State(), old(userRooms)[leavers[k]],
                          UserLeft(leavers[k], env.participants(old(userRooms)[leavers[k]])), open, parts[k])
    {
      var before := userRooms;
      leavers := RemoveHeld(ws);
      out, parts := AnnounceLeft(leavers, before, open, env);
    }

    /**
     * The removal walk of the `close` handler: it visits every reverse entry
     * (going on past the first match) and deletes the user from both maps
     * when its current room holds it on this socket.  It returns the removed
     * users in visiting order.
     */
    method RemoveHeld(ws: ConnId) returns (leavers: seq<UserId>)
      modifies this
      ensures State() == Strip(old(State()), HeldBy(old(State()), ws))
      ensures forall i, j :: 0 <= i < j < |leavers| ==> leavers[i] != leavers[j]
      ensures forall u :: u in leavers <==> u in HeldBy(old(State()), ws)
    {
      ghost var s0 := State();
      ghost var held := HeldBy(s0, ws);
      var todo := userRooms.Keys;
      ghost var done: set<UserId> := {};
      ghost var gone: set<UserId> := {};
      leavers := [];
      StripNothing(s0);
      while todo != {}
        invariant todo !! done && todo + done == s0.userRooms.Keys
        invariant gone == held * done
        invariant State() == Strip(s0, gone)
        invariant forall i, j :: 0 <= i < j < |leavers| ==> leavers[i] != leavers[j]
        invariant forall u :: u in leavers <==> u in gone
        decreases todo
      {
        var u :| u in todo;
        WalkStep(s0, ws, done, u);
        var roomId := userRooms[u];
        if roomId in roomConnections && u in roomConnections[roomId] && roomConnections[roomId][u] == ws {
          roomConnections := roomConnections[roomId := roomConnections[roomId] - {u}];
          userRooms := userRooms - {u};
          leavers := leavers + [u];
          gone := gone + {u};
        }
        todo := todo - {u};
        done := done + {u};
      }
      assert gone == held;
    }

    /**
     * The `user_left` broadcasts of the `close` handler, one per removed
     * user, in order, each to the room `before` (the reverse map as it was
     * when the socket closed) names for it.
     */
    method AnnounceLeft(leavers: seq<UserId>, before: map<UserId, RoomId>, open: set<ConnId>, env: Collaborators)
      returns (out: seq<Delivery>, ghost parts: seq<seq<Delivery>>)
      requires forall u <- leavers :: u in before
      ensures |parts| == |leavers| && out == Flatten(parts)
      ensures forall k :: 0 <= k < |leavers| ==>
                Broadcast(State(), before[leavers[k]], UserLeft(leavers[k], env.participants(before[leavers[k]])), open, parts[k])
    {
      out, parts := [], [];
      var k := 0;
      while k < |leavers|
        invariant 0 <= k <= |leavers| && |parts| == k && out == Flatten(parts)
        invariant forall j :: 0 <= j < k ==>
                    Broadcast(State(), before[leavers[j]], UserLeft(leavers[j], env.participants(before[leavers[j]])), open, parts[j])
      {
        var roomId := before[leavers[k]];
        var part := Send(roomId, UserLeft(leavers[k], env.participants(roomId)), open);
        FlattenSnoc(parts, part);
        out, parts := out + part, parts + [part];
        k := k + 1;
      }
    }

    /** One incoming message, dispatched on its type; an unknown type sends nothing and changes nothing. */
    method Handle(ws: ConnId, m: InMsg, open: set<ConnId>, env: Collaborators) returns (out: seq<Delivery>)
      requires Valid()
      modifies this
      ensures Valid()
      ensures match m
        case JoinRoom(r, u) =>
          State() == Joined(old(State()), r, u, ws) && Broadcast(State(), r, UserJoined(u, env.participants(r)), open, out)
        case LeaveRoom(r, u) =>
          State() == Left(old(State()), r, u) && Broadcast(State(), r, UserLeft(u, env.participants(r)), open, out)
        case GameStart(r, c) =>
          State() == old(State()) && Broadcast(State(), r, GameStarted(env.questionsFor(c)), open, out)
        case SubmitAnswer(r, u, q, a) =>
          && State() == old(State()) && |out| >= 1
          && out[0] == Delivery(ws, AnswerResult(env.checkAnswer(q, a), q))
          && Broadcast(State(), r, PlayerAnswered(u, q), open, out[1..])
        case NextQuestion(r, p) =>
          State() == old(State()) && Broadcast(State(), r, NextQuestionMsg(p), open, out)
        case Unknown =>
          State() == old(State()) && out == []
    {
      match m
      case JoinRoom(r, u) => out := JoinRoom(ws, r, u, open, env);
      case LeaveRoom(r, u) => out := LeaveRoom(r, u, open, env);
      case GameStart(r, c) => out := GameStart(r, c, open, env);
      case SubmitAnswer(r, u, q, a) => out := SubmitAnswer(ws, r, u, q, a, open, env);
      case NextQuestion(r, p) => out := NextQuestion(r, p, open);
      case Unknown => out := [];
    }
  }
}
