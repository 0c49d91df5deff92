/**
 * The socket.io relay of backend/index.js: the `canvasStates` registry, the
 * per-connection closure variables `currentRoom` and `currentUsername`, and
 * the room membership socket.io keeps for `socket.join`. Every handler is a
 * pure function from the server state and one inbound event to the next
 * state and the emits it makes.
 */
module Relay {
  import opened Wrappers
  import opened Protocol

  /** The closure state of one connection; both start as `null`. */
  datatype Session = Session(room: Option<RoomId>, username: Option<Name>)

  /** The whole server state. */
  datatype Server = Server(
    canvasStates: map<RoomId, seq<Record>>,
    sessions: map<ConnId, Session>,
    members: map<RoomId, set<ConnId>>)

  /** What a handler that runs to completion leaves behind. */
  datatype Reaction = Reaction(next: Server, out: seq<Emit>)

  /**
   * A handler that throws. The only one is `gameEvent` naming a room with no
   * registry entry: spreading `undefined` raises a TypeError before anything
   * is stored or sent.
   */
  datatype Fault = SpreadOfUndefined(room: RoomId)

  /** The server before any connection: an empty registry, no rooms. */
  const Initial: Server := Server(map[], map[], map[])

  /** The session a fresh connection starts with. */
  const Fresh: Session := Session(None, None)

  /** The session of `c`, fresh when `c` has sent nothing yet. */
  function SessionOf(s: Server, c: ConnId): Session {
    if c in s.sessions then s.sessions[c] else Fresh
  }

  /** The connections that have joined room `r` with `joinRoom`. */
  function Joined(s: Server, r: RoomId): set<ConnId> {
    if r in s.members then s.members[r] else {}
  }

  /**
   * The sockets in socket.io room `r`: those that joined it, and the socket
   * whose id is `r`, since socket.io puts every socket in a room named by its
   * own id. Room ids and connection ids are both strings, so an emit to a
   * room named like a connection reaches that connection.
   */
  function Members(s: Server, r: RoomId): (m: set<ConnId>)
    ensures r in m
  {
    Joined(s, r) + {r}
  }

  /**
   * `socket.to(r)` from connection `c`: every member of `r` except those in
   * the room named by `c`'s id. socket.io excludes that whole room, so besides
   * the sender it skips every connection that joined a room named like it.
   */
  function Others(s: Server, r: RoomId, c: ConnId): (o: set<ConnId>)
    ensures c !in o
    ensures forall d :: d in o <==> d in Members(s, r) && d !in Members(s, c)
  {
    Members(s, r) - Members(s, c)
  }

  /**
   * `if (currentRoom)`: the session has a room and, JavaScript truthiness
   * being what it is, that room is not the empty string.
   */
  predicate HasRoom(sess: Session) {
    sess.room.Some? && sess.room.value != ""
  }

  /** A reaction that changes nothing and sends nothing. */
  function Quiet(s: Server): Reaction {
    Reaction(s, [])
  }

  /** `joinRoom(roomId, username)`. */
  function Join(s: Server, c: ConnId, room: RoomId, username: Name): (r: Reaction)
    // lazy creation: an existing history survives, a missing one becomes []
    ensures room in r.next.canvasStates
    ensures room in s.canvasStates ==> r.next.canvasStates == s.canvasStates
    ensures room !in s.canvasStates ==> r.next.canvasStates[room] == []
    ensures forall q :: q != room ==>
              (q in r.next.canvasStates <==> q in s.canvasStates)
    ensures forall q :: q in s.canvasStates ==> r.next.canvasStates[q] == s.canvasStates[q]
    // the session records the room and the name
    ensures SessionOf(r.next, c) == Session(Some(room), Some(username))
    ensures forall d :: d != c ==> SessionOf(r.next, d) == SessionOf(s, d)
    // the joiner is in the room; no other membership changes
    ensures Joined(r.next, room) == Joined(s, room) + {c}
    ensures Members(r.next, room) == Members(s, room) + {c}
    ensures forall q :: q != room ==> Members(r.next, q) == Members(s, q)
    // the existing members outside the sender's own-id room, and only they,
    // hear about the newcomer
    ensures forall d :: Received(r.out, d)
              == if d in Members(s, room) && d !in Members(s, c)
                 then [UserConnected(username), RequestCursorPosition(username)]
                 else []
  {
    var joined := s.(members := s.members[room := Joined(s, room) + {c}],
                     sessions := s.sessions[c := Session(Some(room), Some(username))]);
    var others := Others(joined, room, c);
    var next := if room in s.canvasStates then joined
                else joined.(canvasStates := s.canvasStates[room := []]);
    var out := [Emit(others, UserConnected(username)), Emit(others, RequestCursorPosition(username))];
    assert forall d :: Received(out, d)
             == (if d in others then [UserConnected(username)] else [])
              + (if d in others then [RequestCursorPosition(username)] else []) by {
      forall d { ReceivedTwo(out[0], out[1], d); }
    }
    Reaction(next, out)
  }

  /** `gameEvent(data)`: store `data.data` in `data.roomId`'s history and relay. */
  function Draw(s: Server, c: ConnId, game: GameEvent): (r: Result<Reaction, Fault>)
    ensures r.Success? <==> game.roomId in s.canvasStates
    ensures r.Failure? ==> r.error == SpreadOfUndefined(game.roomId)
    ensures r.Success? ==> r.value.next.canvasStates.Keys == s.canvasStates.Keys
    ensures r.Success? ==>
      var before := s.canvasStates[game.roomId];
      var after := r.value.next.canvasStates[game.roomId];
      // the record is appended and nothing before it moves
      && |after| == |before| + 1
      && after[..|before|] == before
      && after[|before|] == game.data
      // no other room's history changes
      && (forall q :: q in s.canvasStates && q != game.roomId ==>
            r.value.next.canvasStates[q] == s.canvasStates[q])
      && r.value.next.sessions == s.sessions
      && r.value.next.members == s.members
      // every other member of the room, and no one else, gets the whole event
      && (forall d :: Received(r.value.out, d)
            == if d in Members(s, game.roomId) && d !in Members(s, c) then [GameUpdate(game)] else [])
  {
    if game.roomId !in s.canvasStates then Failure(SpreadOfUndefined(game.roomId))
    else
      var history := s.canvasStates[game.roomId] + [game.data];
      var e := Emit(Others(s, game.roomId, c), GameUpdate(game));
      assert forall d :: Received([e], d) == if d in e.to then [e.event] else [] by {
        forall d { ReceivedOne(e, d); }
      }
      Success(Reaction(s.(canvasStates := s.canvasStates[game.roomId := history]), [e]))
  }

  /** `cursorMove(position)`: relayed verbatim to the session's room, never stored. */
  function RelayCursor(s: Server, c: ConnId, position: CursorPosition): (r: Reaction)
    ensures r.next == s
    ensures !HasRoom(SessionOf(s, c)) ==> r.out == []
    ensures HasRoom(SessionOf(s, c)) ==>
      forall d :: Received(r.out, d)
        == if d in Members(s, SessionOf(s, c).room.value) && d !in Members(s, c)
           then [CursorMove(position)] else []
  {
    var sess := SessionOf(s, c);
    if !HasRoom(sess) then Quiet(s)
    else
      var e := Emit(Others(s, sess.room.value, c), CursorMove(position));
      assert forall d :: Received([e], d) == if d in e.to then [e.event] else [] by {
        forall d { ReceivedOne(e, d); }
      }
      Reaction(s, [e])
  }

  /**
   * `requestCursorPosition(requestedUsername)`: forwarded to the session's
   * room only when the name is the session's own and the room is set.
   */
  function AskPosition(s: Server, c: ConnId, requested: Name): (r: Reaction)
    ensures r.next == s
    ensures r.out != [] <==> SessionOf(s, c).username == Some(requested) && HasRoom(SessionOf(s, c))
    ensures r.out != [] ==>
      forall d :: Received(r.out, d)
        == if d in Members(s, SessionOf(s, c).room.value) && d !in Members(s, c)
           then [RequestCursorPosition(requested)] else []
  {
    var sess := SessionOf(s, c);
    if sess.username == Some(requested) && HasRoom(sess) then
      var e := Emit(Others(s, sess.room.value, c), RequestCursorPosition(requested));
      assert forall d :: Received([e], d) == if d in e.to then [e.event] else [] by {
        forall d { ReceivedOne(e, d); }
      }
      Reaction(s, [e])
    else Quiet(s)
  }

  /** `requestCanvasState(roomId)`: the stored history, to the asker alone. */
  function Replay(s: Server, c: ConnId, room: RoomId): (r: Reaction)
    ensures r.next == s
    ensures room !in s.canvasStates ==> r.out == []
    ensures room in s.canvasStates ==>
      && Received(r.out, c) == [CanvasState(s.canvasStates[room])]
      && forall d :: d != c ==> Received(r.out, d) == []
  {
    if room in s.canvasStates then
      var e := Emit({c}, CanvasState(s.canvasStates[room]));
      assert forall d :: Received([e], d) == if d in e.to then [e.event] else [] by {
        forall d { ReceivedOne(e, d); }
      }
      Reaction(s, [e])
    else Quiet(s)
  }

  /**
   * `clearCanvas(roomId)`: every member of the room, the sender included when
   * it is one, is told to clear; the stored history is kept.
   */
  function Clear(s: Server, c: ConnId, room: RoomId): (r: Reaction)
    ensures r.next == s
    ensures forall d :: Received(r.out, d) == if d in Members(s, room) then [ClearCanvas] else []
  {
    var e := Emit(Members(s, room), ClearCanvas);
    assert forall d :: Received([e], d) == if d in e.to then [e.event] else [] by {
      forall d { ReceivedOne(e, d); }
    }
    Reaction(s, [e])
  }

  /** Dispatch one inbound event from connection `c`. */
  function Step(s: Server, c: ConnId, e: Inbound): (r: Result<Reaction, Fault>)
    ensures r.Failure? <==> e.SendGameEvent? && e.game.roomId !in s.canvasStates
    ensures r.Success? ==> NoLeaveNotice(r.value.out)
  {
    match e
    case JoinRoom(room, username) => Success(Join(s, c, room, username))
    case SendGameEvent(game) => Draw(s, c, game)
    case MoveCursor(position) => Success(RelayCursor(s, c, position))
    case AskCursorPosition(requested) => Success(AskPosition(s, c, requested))
    case RequestCanvasState(room) => Success(Replay(s, c, room))
    case ClearRoom(room) => Success(Clear(s, c, room))
  }
}
