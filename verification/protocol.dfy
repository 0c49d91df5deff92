/**
 * The socket.io event vocabulary shared by the relay server and the canvas
 * client: what a connection may send, what the server may send back, and a
 * delivery record that says who received which event.
 */
module Protocol {

  /** A room identifier, chosen freely by the client. */
  type RoomId = string

  /** A socket.io connection identifier (`socket.id`). */
  type ConnId = string

  /** A display name; clients supply it and nothing checks it is unique. */
  type Name = string

  /**
   * One drawing record: the serialised path object the drawing client puts in
   * `data.data`. The server never looks inside it.
   */
  type Record = string

  /** The `gameEvent` payload `{ type, data, roomId, userId }`. */
  datatype GameEvent = GameEvent(kind: string, data: Record, roomId: RoomId, userId: string)

  /** The `cursorMove` payload `{ roomId, x, y, username }`, coordinates as integers. */
  datatype CursorPosition = CursorPosition(roomId: RoomId, x: int, y: int, username: Name)

  /** An event a connection sends to the server. */
  datatype Inbound =
    | JoinRoom(room: RoomId, username: Name)
    | SendGameEvent(game: GameEvent)
    | MoveCursor(position: CursorPosition)
    | AskCursorPosition(requested: Name)
    | RequestCanvasState(room: RoomId)
    | ClearRoom(room: RoomId)

  /** An event the server sends to a connection. */
  datatype Outbound =
    | UserConnected(name: Name)
    | RequestCursorPosition(name: Name)
    | GameUpdate(game: GameEvent)
    | CursorMove(position: CursorPosition)
    | CanvasState(history: seq<Record>)
    | ClearCanvas
    | UserDisconnected(name: Name)

  /** One emit: `event` is delivered to every connection in `to`. */
  datatype Emit = Emit(to: set<ConnId>, event: Outbound)

  /** The events connection `c` receives from the emits `out`, in emit order. */
  function Received(out: seq<Emit>, c: ConnId): (r: seq<Outbound>)
    ensures |r| <= |out|
  {
    if out == [] then []
    else (if c in out[0].to then [out[0].event] else []) + Received(out[1..], c)
  }

  /** A single emit reaches exactly its recipients. */
  lemma ReceivedOne(e: Emit, c: ConnId)
    ensures Received([e], c) == if c in e.to then [e.event] else []
  {
    assert [e][1..] == [];
  }

  /** Two emits in a row reach `c` in order. */
  lemma ReceivedTwo(e1: Emit, e2: Emit, c: ConnId)
    ensures Received([e1, e2], c)
         == (if c in e1.to then [e1.event] else []) + (if c in e2.to then [e2.event] else [])
  {
    assert [e1, e2][1..] == [e2];
    ReceivedOne(e2, c);
  }

  /** The server never sends `userDisconnected` in these emits. */
  predicate NoLeaveNotice(out: seq<Emit>) {
    forall i :: 0 <= i < |out| ==> !out[i].event.UserDisconnected?
  }
}
