/**
 * Properties of the relay over whole runs: the registry only ever grows by
 * appending, a late joiner's replay is exactly the records drawn so far, rooms
 * are isolated from each other, and joined connections can always draw.
 */
module RelayProps {
  import opened Wrappers
  import opened Protocol
  import opened Relay

  /** Feed `trace` to the server one event at a time, stopping at the first throw. */
  function Run(s: Server, trace: seq<(ConnId, Inbound)>): Result<Server, Fault>
    decreases |trace|
  {
    if trace == [] then Success(s)
    else
      match Step(s, trace[0].0, trace[0].1)
      case Failure(f) => Failure(f)
      case Success(reaction) => Run(reaction.next, trace[1..])
  }

  /** Every stored history survives, as a prefix, into `after`. */
  predicate Extends(before: map<RoomId, seq<Record>>, after: map<RoomId, seq<Record>>) {
    forall q :: q in before ==> q in after && before[q] <= after[q]
  }

  /** Append-only: along a run that does not throw, no room disappears and no stored record changes. */
  lemma {:induction false} RunAppendOnly(s: Server, trace: seq<(ConnId, Inbound)>)
    requires Run(s, trace).Success?
    ensures Extends(s.canvasStates, Run(s, trace).value.canvasStates)
    decreases |trace|
  {
    if trace != [] {
      var next := RunFirst(s, trace);
      StepKeepsHistory(s, trace[0].0, trace[0].1);
      RunAppendOnly(next, trace[1..]);
      var last := Run(s, trace).value.canvasStates;
      forall q | q in s.canvasStates ensures q in last && s.canvasStates[q] <= last[q] {
        assert s.canvasStates[q] <= next.canvasStates[q] <= last[q];
      }
    }
  }

  /** One handler never drops a room nor rewrites a stored record. */
  lemma StepKeepsHistory(s: Server, c: ConnId, e: Inbound)
    requires Step(s, c, e).Success?
    ensures Extends(s.canvasStates, Step(s, c, e).value.next.canvasStates)
  {
    if e.SendGameEvent? {
      var before := s.canvasStates[e.game.roomId];
      var after := Step(s, c, e).value.next.canvasStates[e.game.roomId];
      assert before == after[..|before|];
    }
  }

  /** The records that the `gameEvent`s of `trace` carry for room `room`, in order. */
  function DrawnIn(trace: seq<(ConnId, Inbound)>, room: RoomId): (r: seq<Record>)
    ensures |r| <= |trace|
  {
    if trace == [] then []
    else
      var e := trace[0].1;
      (if e.SendGameEvent? && e.game.roomId == room then [e.game.data] else [])
      + DrawnIn(trace[1..], room)
  }

  /** One handler adds to `room`'s history exactly the record it draws there. */
  lemma StepHistory(s: Server, c: ConnId, e: Inbound, room: RoomId)
    requires room in s.canvasStates
    requires Step(s, c, e).Success?
    ensures room in Step(s, c, e).value.next.canvasStates
    ensures Step(s, c, e).value.next.canvasStates[room]
         == s.canvasStates[room] + DrawnIn([(c, e)], room)
  {
    assert [(c, e)][1..] == [];
    assert DrawnIn([(c, e)], room)
        == if e.SendGameEvent? && e.game.roomId == room then [e.game.data] else [];
    if e.SendGameEvent? && e.game.roomId == room {
      var before := s.canvasStates[room];
      var after := Step(s, c, e).value.next.canvasStates[room];
      assert after == after[..|before|] + [after[|before|]];
    }
  }

  /**
   * Receipt order: along any run that does not throw, an existing room's
   * history ends as its old history followed by exactly the records drawn
   * in it, in the order they arrived.
   */
  lemma {:induction false} RunHistory(s: Server, trace: seq<(ConnId, Inbound)>, room: RoomId)
    requires room in s.canvasStates
    requires Run(s, trace).Success?
    ensures room in Run(s, trace).value.canvasStates
    ensures Run(s, trace).value.canvasStates[room] == s.canvasStates[room] + DrawnIn(trace, room)
    decreases |trace|
  {
    if trace == [] {
      assert Run(s, trace) == Success(s);
      assert DrawnIn(trace, room) == [];
    } else {
      var next := RunFirstHistory(s, trace, room);
      RunHistory(next, trace[1..], room);
      DrawnInFirst(trace, room);
      var after := Run(next, trace[1..]).value.canvasStates[room];
      Regroup(s.canvasStates[room], next.canvasStates[room], after,
              DrawnIn([trace[0]], room), DrawnIn(trace[1..], room), DrawnIn(trace, room));
    }
  }

  /** One handler, seen from a room with no history yet: it can only create the room empty. */
  lemma StepNewRoom(s: Server, c: ConnId, e: Inbound, room: RoomId)
    requires room !in s.canvasStates
    requires Step(s, c, e).Success?
    ensures room in Step(s, c, e).value.next.canvasStates ==>
              Step(s, c, e).value.next.canvasStates[room] == []
    ensures DrawnIn([(c, e)], room) == []
  {
    assert [(c, e)][1..] == [];
  }

  /**
   * Receipt order for every room, including one created during the run: a
   * room's final history is its history before the run, or nothing when it
   * had none, followed by exactly the records drawn in it, in arrival order.
   */
  lemma {:induction false} RunHistoryAny(s: Server, trace: seq<(ConnId, Inbound)>, room: RoomId)
    requires Run(s, trace).Success?
    requires room in Run(s, trace).value.canvasStates
    ensures Run(s, trace).value.canvasStates[room]
         == (if room in s.canvasStates then s.canvasStates[room] else []) + DrawnIn(trace, room)
    decreases |trace|
  {
    if room in s.canvasStates {
      RunHistory(s, trace, room);
    } else {
      var next := RunFirst(s, trace);
      StepNewRoom(s, trace[0].0, trace[0].1, room);
      assert trace[0] == (trace[0].0, trace[0].1);
      RunHistoryAny(next, trace[1..], room);
      DrawnInFirst(trace, room);
      var start := if room in next.canvasStates then next.canvasStates[room] else [];
      assert start == [];
      assert DrawnIn(trace, room) == DrawnIn(trace[1..], room);
      assert [] + DrawnIn(trace, room) == DrawnIn(trace, room);
    }
  }

  /**
   * From start-up: once a run has created a room, its history is exactly the
   * records drawn in it, in arrival order.
   */
  lemma RunHistoryFromStart(trace: seq<(ConnId, Inbound)>, room: RoomId)
    requires Run(Initial, trace).Success?
    requires room in Run(Initial, trace).value.canvasStates
    ensures Run(Initial, trace).value.canvasStates[room] == DrawnIn(trace, room)
  {
    RunHistoryAny(Initial, trace, room);
    assert [] + DrawnIn(trace, room) == DrawnIn(trace, room);
  }

  /** The run `trace` sends `joinRoom` for `room` at some point. */
  predicate Opens(trace: seq<(ConnId, Inbound)>, room: RoomId)
    decreases |trace|
  {
    trace != [] && ((trace[0].1.JoinRoom? && trace[0].1.room == room) || Opens(trace[1..], room))
  }

  /** After a run, a room has a history exactly when it had one before or the run joined it. */
  lemma {:induction false} RunRooms(s: Server, trace: seq<(ConnId, Inbound)>, room: RoomId)
    requires Run(s, trace).Success?
    ensures room in Run(s, trace).value.canvasStates <==> room in s.canvasStates || Opens(trace, room)
    decreases |trace|
  {
    if trace == [] {
      assert Run(s, trace) == Success(s);
    } else {
      var next := RunFirst(s, trace);
      RunRooms(next, trace[1..], room);
      StepKeepsHistory(s, trace[0].0, trace[0].1);
    }
  }

  /** Records appended in two goes are the records of both goes appended at once. */
  lemma Regroup(before: seq<Record>, middle: seq<Record>, after: seq<Record>,
                first: seq<Record>, rest: seq<Record>, all: seq<Record>)
    requires middle == before + first && after == middle + rest && all == first + rest
    ensures after == before + all
  {
  }

  /** A run that does not throw is its first step followed by the run of the rest. */
  lemma RunFirst(s: Server, trace: seq<(ConnId, Inbound)>) returns (next: Server)
    requires trace != [] && Run(s, trace).Success?
    ensures Step(s, trace[0].0, trace[0].1).Success?
    ensures next == Step(s, trace[0].0, trace[0].1).value.next
    ensures Run(next, trace[1..]) == Run(s, trace)
  {
    next := Step(s, trace[0].0, trace[0].1).value.next;
  }

  /** The first step of a run that does not throw, seen from one existing room. */
  lemma RunFirstHistory(s: Server, trace: seq<(ConnId, Inbound)>, room: RoomId) returns (next: Server)
    requires trace != [] && Run(s, trace).Success?
    requires room in s.canvasStates
    ensures Run(next, trace[1..]) == Run(s, trace)
    ensures room in next.canvasStates
    ensures next.canvasStates[room] == s.canvasStates[room] + DrawnIn([trace[0]], room)
  {
    next := RunFirst(s, trace);
    StepHistory(s, trace[0].0, trace[0].1, room);
  }

  /** `DrawnIn` splits at the first event. */
  lemma DrawnInFirst(trace: seq<(ConnId, Inbound)>, room: RoomId)
    requires trace != []
    ensures DrawnIn(trace, room) == DrawnIn([trace[0]], room) + DrawnIn(trace[1..], room)
  {
    assert [trace[0]][1..] == [];
  }

  /** Every event of `trace` is a `gameEvent` for `room`. */
  predicate AllDrawIn(trace: seq<(ConnId, Inbound)>, room: RoomId) {
    forall i :: 0 <= i < |trace| ==> trace[i].1.SendGameEvent? && trace[i].1.game.roomId == room
  }

  /** Drawing only into a room that exists never throws. */
  lemma {:induction false} DrawsSucceed(s: Server, trace: seq<(ConnId, Inbound)>, room: RoomId)
    requires room in s.canvasStates
    requires AllDrawIn(trace, room)
    ensures Run(s, trace).Success?
    decreases |trace|
  {
    if trace != [] {
      var next := Step(s, trace[0].0, trace[0].1).value.next;
      assert AllDrawIn(trace[1..], room) by {
        forall i | 0 <= i < |trace[1..]| ensures trace[1..][i] == trace[i + 1] {}
      }
      DrawsSucceed(next, trace[1..], room);
    }
  }

  /**
   * Late-joiner replay: after a run of drawings into an existing room, a
   * `requestCanvasState` from any connection returns, to that connection
   * alone, the old history followed by those records in receipt order.
   */
  lemma LateJoinerReplay(s: Server, trace: seq<(ConnId, Inbound)>, room: RoomId, asker: ConnId)
    requires room in s.canvasStates
    requires AllDrawIn(trace, room)
    ensures Run(s, trace).Success?
    ensures var after := Run(s, trace).value;
      && Received(Replay(after, asker, room).out, asker)
           == [CanvasState(s.canvasStates[room] + DrawnIn(trace, room))]
      && forall d :: d != asker ==> Received(Replay(after, asker, room).out, d) == []
  {
    DrawsSucceed(s, trace, room);
    RunHistory(s, trace, room);
  }

  /**
   * Replay after any run that does not throw: `requestCanvasState` returns,
   * to the asker alone, the room's old history (none for a room the run
   * created) followed by the records drawn in it; a room without a history
   * gets no reply.
   */
  lemma ReplayAfterRun(s: Server, trace: seq<(ConnId, Inbound)>, room: RoomId, asker: ConnId)
    requires Run(s, trace).Success?
    ensures var after := Run(s, trace).value;
      && (room in after.canvasStates ==>
            && Received(Replay(after, asker, room).out, asker)
                 == [CanvasState((if room in s.canvasStates then s.canvasStates[room] else [])
                                 + DrawnIn(trace, room))]
            && forall d :: d != asker ==> Received(Replay(after, asker, room).out, d) == [])
      && (room !in after.canvasStates ==> Replay(after, asker, room).out == [])
  {
    if room in Run(s, trace).value.canvasStates {
      RunHistoryAny(s, trace, room);
    }
  }

  /**
   * Late-joiner replay from start-up: after any run that does not throw, a
   * replay of a room someone joined returns exactly the records drawn in it,
   * and a room nobody joined gets no reply.
   */
  lemma ReplayFromStart(trace: seq<(ConnId, Inbound)>, room: RoomId, asker: ConnId)
    requires Run(Initial, trace).Success?
    ensures var after := Run(Initial, trace).value;
      && (Opens(trace, room) ==>
            Received(Replay(after, asker, room).out, asker) == [CanvasState(DrawnIn(trace, room))])
      && (!Opens(trace, room) ==> Replay(after, asker, room).out == [])
  {
    RunRooms(Initial, trace, room);
    if Opens(trace, room) {
      RunHistoryFromStart(trace, room);
    }
  }

  /**
   * `clearCanvas` only broadcasts: a replay after it returns the same history
   * as a replay before it.
   */
  lemma ClearKeepsReplay(s: Server, c: ConnId, room: RoomId, asker: ConnId)
    requires room in s.canvasStates
    ensures var cleared := Step(s, c, ClearRoom(room)).value.next;
      Received(Replay(cleared, asker, room).out, asker) == [CanvasState(s.canvasStates[room])]
  {
  }

  /** The room an inbound event names, when it names one. */
  function NamedRoom(e: Inbound): Option<RoomId> {
    match e
    case JoinRoom(room, _) => Some(room)
    case SendGameEvent(game) => Some(game.roomId)
    case RequestCanvasState(room) => Some(room)
    case ClearRoom(room) => Some(room)
    case _ => None
  }

  /**
   * Room isolation: an event naming room `a` changes no other room's history
   * or membership, and reaches no connection outside `a` except the sender.
   */
  lemma RoomIsolation(s: Server, c: ConnId, e: Inbound, a: RoomId, b: RoomId, d: ConnId)
    requires NamedRoom(e) == Some(a) && b != a
    requires Step(s, c, e).Success?
    requires d !in Members(s, a) && d != c
    ensures var next := Step(s, c, e).value.next;
      && (b in next.canvasStates <==> b in s.canvasStates)
      && (b in s.canvasStates ==> next.canvasStates[b] == s.canvasStates[b])
      && Members(next, b) == Members(s, b)
    ensures Received(Step(s, c, e).value.out, d) == []
  {
  }

  /**
   * The invariant every reachable server state keeps: a session's room and
   * name are set together, a connection has joined its session's room, and
   * every room a connection joined with `joinRoom` has a registry entry. A
   * socket's own-id room is not covered: it has a member from the start but
   * no entry unless someone joined it by name.
   */
  predicate Consistent(s: Server) {
    && (forall c :: c in s.sessions ==>
          (s.sessions[c].room.Some? <==> s.sessions[c].username.Some?))
    && (forall c :: c in s.sessions && s.sessions[c].room.Some? ==>
          c in Joined(s, s.sessions[c].room.value))
    && (forall q :: q in s.members ==> q in s.canvasStates)
  }

  /** Every handler keeps the invariant. */
  lemma StepConsistent(s: Server, c: ConnId, e: Inbound)
    requires Consistent(s)
    requires Step(s, c, e).Success?
    ensures Consistent(Step(s, c, e).value.next)
  {
    var next := Step(s, c, e).value.next;
    if e.JoinRoom? {
      forall d | d in next.sessions && next.sessions[d].room.Some?
        ensures d in Joined(next, next.sessions[d].room.value)
      {
        if d != c {
          assert SessionOf(next, d) == SessionOf(s, d);
          assert d in s.sessions;
        }
      }
      forall q | q in next.members ensures q in next.canvasStates {
        if q != e.room {
          assert Members(next, q) == Members(s, q);
          assert q in s.members;
        }
      }
      forall d | d in next.sessions
        ensures next.sessions[d].room.Some? <==> next.sessions[d].username.Some?
      {
        if d != c {
          assert SessionOf(next, d) == SessionOf(s, d);
          assert d in s.sessions;
        }
      }
    }
  }

  /** The server at start-up is consistent, although every own-id room already has its socket. */
  lemma InitialConsistent(c: ConnId)
    ensures Consistent(Initial)
    ensures c in Members(Initial, c) && c !in Initial.canvasStates
  {
  }

  /** A run that does not throw keeps the invariant from any consistent state. */
  lemma {:induction false} RunConsistent(s: Server, trace: seq<(ConnId, Inbound)>)
    requires Consistent(s)
    requires Run(s, trace).Success?
    ensures Consistent(Run(s, trace).value)
    decreases |trace|
  {
    if trace != [] {
      StepConsistent(s, trace[0].0, trace[0].1);
      RunConsistent(Step(s, trace[0].0, trace[0].1).value.next, trace[1..]);
    }
  }

  /** A connection that has joined a room can always draw into it. */
  lemma JoinedDrawSucceeds(s: Server, c: ConnId, game: GameEvent)
    requires Consistent(s)
    requires SessionOf(s, c).room == Some(game.roomId)
    ensures Step(s, c, SendGameEvent(game)).Success?
  {
    assert c in s.sessions;
    assert c in Members(s, game.roomId);
    assert game.roomId in s.members;
  }

  /**
   * From start-up: after any run that does not throw, a connection can draw
   * into the room it last joined, and its relayed cursor moves reach only
   * members of that room.
   */
  lemma ReachableJoinedDrawSucceeds(trace: seq<(ConnId, Inbound)>, c: ConnId, game: GameEvent,
                                    position: CursorPosition, d: ConnId)
    requires Run(Initial, trace).Success?
    requires SessionOf(Run(Initial, trace).value, c).room == Some(game.roomId)
    ensures Step(Run(Initial, trace).value, c, SendGameEvent(game)).Success?
    ensures Received(RelayCursor(Run(Initial, trace).value, c, position).out, d) != [] ==>
              d in Members(Run(Initial, trace).value, game.roomId)
  {
    InitialConsistent(c);
    RunConsistent(Initial, trace);
    JoinedDrawSucceeds(Run(Initial, trace).value, c, game);
    if Received(RelayCursor(Run(Initial, trace).value, c, position).out, d) != [] {
      CursorStaysInOwnRoom(Run(Initial, trace).value, c, position, d);
    }
  }

  /** A drawing into a room nobody has joined since start-up throws. */
  lemma DrawBeforeAnyJoinThrows(c: ConnId, game: GameEvent)
    ensures Step(Initial, c, SendGameEvent(game)) == Failure(SpreadOfUndefined(game.roomId))
  {
  }

  /** A relayed cursor move reaches only rooms its sender belongs to. */
  lemma CursorStaysInOwnRoom(s: Server, c: ConnId, position: CursorPosition, d: ConnId)
    requires Consistent(s)
    requires Received(RelayCursor(s, c, position).out, d) != []
    ensures HasRoom(SessionOf(s, c))
    ensures c in Members(s, SessionOf(s, c).room.value)
    ensures d in Members(s, SessionOf(s, c).room.value) && d !in Members(s, c)
  {
    assert c in s.sessions;
  }

  /**
   * Two users draw in room "demo": the stroke reaches the other user once and
   * not its sender, a cursor move likewise, and a third user who joins later
   * and asks for the canvas gets exactly that one stroke.
   */
  lemma DemoSession()
    ensures var alice := Join(Initial, "A", "demo", "alice").next;
            var both := Join(alice, "B", "demo", "bob").next;
            var line := GameEvent("DRAW", "M 0 0 L 10 10", "demo", "alice");
            var drawn := Draw(both, "A", line);
            && drawn.Success?
            && Received(drawn.value.out, "B") == [GameUpdate(line)]
            && Received(drawn.value.out, "A") == []
            && (var moved := RelayCursor(drawn.value.next, "A", CursorPosition("demo", 5, 5, "alice"));
                && Received(moved.out, "B") == [CursorMove(CursorPosition("demo", 5, 5, "alice"))]
                && Received(moved.out, "A") == [])
            && (var late := Join(drawn.value.next, "C", "demo", "carol").next;
                Received(Replay(late, "C", "demo").out, "C") == [CanvasState(["M 0 0 L 10 10"])])
  {
    var alice := Join(Initial, "A", "demo", "alice").next;
    var both := Join(alice, "B", "demo", "bob").next;
    assert Members(both, "demo") == {"A", "B", "demo"};
    assert SessionOf(both, "A") == Session(Some("demo"), Some("alice"));
  }

  /**
   * An emit to a room named by a connection's id reaches that connection,
   * whatever it has joined: `clearCanvas(<socket id>)` clears that socket.
   */
  lemma ClearReachesOwnIdRoom(s: Server, c: ConnId, target: ConnId)
    ensures Received(Step(s, c, ClearRoom(target)).value.out, target) == [ClearCanvas]
  {
  }

  /**
   * `socket.to` from connection `c` skips the whole room named by `c`'s id: a
   * connection that joined that room gets none of `c`'s strokes, cursor
   * moves or join notices, even when it shares the target room.
   */
  lemma OwnIdRoomSkipped(s: Server, c: ConnId, e: Inbound, d: ConnId)
    requires d in Joined(s, c)
    requires e.SendGameEvent? || e.MoveCursor? || e.AskCursorPosition? || e.JoinRoom?
    requires Step(s, c, e).Success?
    ensures Received(Step(s, c, e).value.out, d) == []
  {
  }

  /**
   * D joins the room named "A" and then "demo", and A joins "demo": A's
   * stroke in "demo" reaches neither A nor D, although both are members.
   */
  lemma OwnIdRoomDemo()
    ensures var d1 := Join(Initial, "D", "A", "dan").next;
            var d2 := Join(d1, "D", "demo", "dan").next;
            var s3 := Join(d2, "A", "demo", "alice").next;
            var line := GameEvent("DRAW", "M 0 0 L 10 10", "demo", "alice");
            && "D" in Members(s3, "demo")
            && Draw(s3, "A", line).Success?
            && Received(Draw(s3, "A", line).value.out, "D") == []
            && "A" in Members(s3, "demo")
            && Received(Draw(s3, "A", line).value.out, "A") == []
  {
    var d1 := Join(Initial, "D", "A", "dan").next;
    var d2 := Join(d1, "D", "demo", "dan").next;
    var s3 := Join(d2, "A", "demo", "alice").next;
    assert "D" in Joined(s3, "A");
  }
}
