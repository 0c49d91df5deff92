/**
 * The cursor-presence bookkeeping of the canvas client
 * (frontend/src/components/GameCanvas4.tsx) with fabric.js rendering
 * abstracted to a list of canvas objects: per-name colour, last position,
 * last update time and cursor label, and the handlers that change them.
 * Clock readings and pointer coordinates are integer parameters.
 */
module Presence {
  import opened Wrappers
  import opened Protocol

  /** `CURSOR_COLORS`: the twelve cursor colours, handed out in order. */
  const Palette: seq<string> := [
    "#FF9AA2", "#FFB7B2", "#FFDAC1", "#E2F0CB", "#B5EAD7", "#C7CEEA",
    "#F8B195", "#F67280", "#C06C84", "#6C5B7B", "#355C7D", "#99B898"]

  /** The fabric canvas is created 800 by 500. */
  const CanvasWidth: int := 800
  const CanvasHeight: int := 500

  /** A cursor is hidden once its last update is more than this many milliseconds old. */
  const StaleAfter: int := 5000

  /** The label sits 15 units right of and 15 units above the pointer. */
  const LabelOffset: int := 15

  /** What every cursor label appends to its name. */
  const YouSuffix: string := " (You)"

  /** A pointer position. */
  datatype Point = Point(x: int, y: int)

  /** The middle of the canvas: the local cursor's starting point and the fallback reply. */
  const Centre: Point := Point(CanvasWidth / 2, CanvasHeight / 2)

  /** The parts of a cursor's `fabric.Text` object the model keeps. */
  datatype Label = Label(text: string, left: int, top: int, visible: bool, fill: nat)

  /** A fabric object on the canvas: a drawn path, or the text object of a cursor. */
  datatype CanvasObject = Stroke(record: Record) | CursorMark(owner: Name)

  /** The refs of one mounted canvas component. */
  datatype Client = Client(
    local: Name,
    room: RoomId,
    colors: map<Name, nat>,
    lastPosition: map<Name, Point>,
    lastUpdate: map<Name, int>,
    cursors: map<Name, Label>,
    objects: seq<CanvasObject>)

  /** What the client sends to the server. */
  datatype ClientEmit =
    | EmitCursorMove(position: CursorPosition)
    | EmitRequestCursorPosition(first: string, second: string)

  /**
   * A cursor colour is written as its position in `Palette`; the entries are
   * pairwise different (`PaletteDistinct`), so the position names the colour.
   * This is the colour string at position `k`.
   */
  function Hex(k: nat): (c: string)
    requires k < |Palette|
    ensures c in Palette
  {
    Palette[k]
  }

  /** The twelve palette entries are different colours. */
  lemma PaletteDistinct(a: nat, b: nat)
    requires a < |Palette| && b < |Palette| && a != b
    ensures Hex(a) != Hex(b)
  {
  }

  /** The colour map after a `getCursorColor` call, and the colour it returned. */
  datatype Colouring = Colouring(colors: map<Name, nat>, shade: nat)

  /**
   * `Object.keys(cursorColorsRef.current).length % CURSOR_COLORS.length`: the
   * palette position the next new name gets when `count` names have one.
   */
  function NextShade(count: nat): (k: nat)
    ensures k < |Palette|
    ensures count < |Palette| ==> k == count
  {
    count % |Palette|
  }

  /** `getCursorColor(username)`: a name keeps its colour; a new name takes the next one. */
  function CursorColor(colors: map<Name, nat>, name: Name): (r: Colouring)
    ensures name in r.colors && r.colors[name] == r.shade
    ensures name in colors ==> r.colors == colors
    ensures name !in colors ==> r.colors == colors[name := NextShade(|colors|)]
  {
    if name in colors then Colouring(colors, colors[name])
    else
      var k := NextShade(|colors|);
      Colouring(colors[name := k], k)
  }

  /** The text every cursor label shows: the name marked as the local user's. */
  function LabelText(name: Name): (t: string)
    ensures |t| == |name| + |YouSuffix|
    ensures t[..|name|] == name && t[|name|..] == YouSuffix
  {
    name + YouSuffix
  }

  /** The refs before the mount effect runs: nothing coloured, tracked or drawn. */
  function Blank(local: Name, room: RoomId): Client {
    Client(local, room, map[], map[], map[], map[], [])
  }

  /**
   * `updateCursor(username, x, y)` at clock reading `now`: record the position
   * and time, and move the name's one cursor label there, visible.
   */
  function UpdateCursor(cl: Client, name: Name, x: int, y: int, now: int): (r: Client)
    ensures r.local == cl.local && r.room == cl.room
    ensures r.colors == CursorColor(cl.colors, name).colors
    ensures r.lastPosition == cl.lastPosition[name := Point(x, y)]
    ensures r.lastUpdate == cl.lastUpdate[name := now]
    ensures r.cursors.Keys == cl.cursors.Keys + {name}
    ensures name in r.cursors
    ensures r.cursors[name].left == x + LabelOffset && r.cursors[name].top == y - LabelOffset
    ensures r.cursors[name].visible && r.cursors[name].text == LabelText(name)
    ensures name in cl.cursors ==> r.cursors[name].fill == cl.cursors[name].fill
    ensures name !in cl.cursors ==> r.cursors[name].fill == CursorColor(cl.colors, name).shade
    ensures forall n :: n in cl.cursors && n != name ==> r.cursors[n] == cl.cursors[n]
    // a cursor object is added only when the name had none
    ensures name in cl.cursors ==> r.objects == cl.objects
    ensures name !in cl.cursors ==> r.objects == cl.objects + [CursorMark(name)]
  {
    var coloured := CursorColor(cl.colors, name);
    var shown :=
      if name in cl.cursors then
        cl.cursors[name].(left := x + LabelOffset, top := y - LabelOffset,
                          visible := true, text := LabelText(name))
      else Label(LabelText(name), x + LabelOffset, y - LabelOffset, true, coloured.shade);
    Client(cl.local, cl.room, coloured.colors,
           cl.lastPosition[name := Point(x, y)],
           cl.lastUpdate[name := now],
           cl.cursors[name := shown],
           if name in cl.cursors then cl.objects else cl.objects + [CursorMark(name)])
  }

  /** The component after the canvas is set up: the local cursor at the centre. */
  function Mount(local: Name, room: RoomId, now: int): (r: Client)
    ensures r.local == local && r.room == room
    ensures r.cursors.Keys == {local}
    ensures r.lastPosition == map[local := Centre]
    ensures r.objects == [CursorMark(local)]
    ensures r.colors == map[local := 0] && Hex(r.colors[local]) == "#FF9AA2"
  {
    UpdateCursor(Blank(local, room), local, Centre.x, Centre.y, now)
  }

  /**
   * `handleRequestCursorPosition(requestedUsername)`: only a request for the
   * local name is answered, with the last known position or the centre.
   */
  function AnswerPositionRequest(cl: Client, requested: Name): (r: Option<CursorPosition>)
    ensures r.Some? <==> requested == cl.local
    ensures r.Some? ==> r.value.username == cl.local && r.value.roomId == cl.room
    ensures r.Some? && cl.local in cl.lastPosition ==>
              Point(r.value.x, r.value.y) == cl.lastPosition[cl.local]
    ensures r.Some? && cl.local !in cl.lastPosition ==> Point(r.value.x, r.value.y) == Centre
  {
    if requested != cl.local then None
    else
      var p := if cl.local in cl.lastPosition then cl.lastPosition[cl.local] else Centre;
      Some(CursorPosition(cl.room, p.x, p.y, cl.local))
  }

  /** `objs` without its first occurrence of `o` (fabric's `canvas.remove`). */
  function RemoveFirst(objs: seq<CanvasObject>, o: CanvasObject): (r: seq<CanvasObject>)
    ensures multiset(r) == multiset(objs) - multiset{o}
    ensures o in objs ==> |r| == |objs| - 1
    ensures o !in objs ==> r == objs
  {
    if objs == [] then []
    else
      assert objs == [objs[0]] + objs[1..];
      if objs[0] == o then objs[1..]
    else [objs[0]] + RemoveFirst(objs[1..], o)
  }

  /**
   * Removal is fabric's `indexOf` and `splice`: exactly the first occurrence
   * goes, and the objects around it keep their stacking order.
   */
  lemma {:induction false} RemoveFirstKeepsOrder(objs: seq<CanvasObject>, o: CanvasObject, i: nat)
    requires i < |objs| && objs[i] == o && o !in objs[..i]
    ensures RemoveFirst(objs, o) == objs[..i] + objs[i + 1..]
    decreases i
  {
    if i == 0 {
      assert objs[..0] + objs[1..] == objs[1..];
    } else {
      SpliceAfterFirst(objs, o, i);
      RemoveFirstKeepsOrder(objs[1..], o, i - 1);
    }
  }

  /** Splitting `objs` at `i` is splitting its tail at `i - 1` behind the first object. */
  lemma SpliceAfterFirst(objs: seq<CanvasObject>, o: CanvasObject, i: nat)
    requires 0 < i < |objs| && objs[i] == o && o !in objs[..i]
    ensures objs[0] != o
    ensures objs[1..][i - 1] == o && o !in objs[1..][..i - 1]
    ensures [objs[0]] + (objs[1..][..i - 1] + objs[1..][i..]) == objs[..i] + objs[i + 1..]
  {
    assert objs[..i] == [objs[0]] + objs[1..][..i - 1];
    assert objs[i + 1..] == objs[1..][i..];
  }

  /**
   * `handleUserDisconnected(name)`: a name with a cursor loses its cursor
   * object, position and time (its colour stays); any other name changes nothing.
   */
  function HandleUserDisconnected(cl: Client, name: Name): (r: Client)
    ensures name !in cl.cursors ==> r == cl
    ensures name in cl.cursors ==>
      && r.cursors == cl.cursors - {name}
      && r.lastPosition == cl.lastPosition - {name}
      && r.lastUpdate == cl.lastUpdate - {name}
      && r.colors == cl.colors
      && multiset(r.objects) == multiset(cl.objects) - multiset{CursorMark(name)}
  {
    if name !in cl.cursors then cl
    else
      cl.(cursors := cl.cursors - {name},
          lastPosition := cl.lastPosition - {name},
          lastUpdate := cl.lastUpdate - {name},
          objects := RemoveFirst(cl.objects, CursorMark(name)))
  }

  /** A cursor the liveness sweep at `now` hides: another user's, quiet for too long. */
  predicate Stale(cl: Client, name: Name, now: int) {
    && name != cl.local
    && name in cl.lastUpdate
    && now - cl.lastUpdate[name] > StaleAfter
  }

  /** The declarative outcome of one sweep: exactly the stale cursors are hidden. */
  function Swept(cl: Client, now: int): (r: Client)
    ensures r == cl.(cursors := r.cursors)
    // nothing is deleted, only the visible flag moves
    ensures r.cursors.Keys == cl.cursors.Keys
    ensures forall n :: n in cl.cursors ==> r.cursors[n] == cl.cursors[n].(visible := r.cursors[n].visible)
    ensures forall n :: n in cl.cursors ==>
              (r.cursors[n].visible <==> cl.cursors[n].visible && !Stale(cl, n, now))
    // the local user's cursor is never hidden
    ensures cl.local in cl.cursors ==> r.cursors[cl.local] == cl.cursors[cl.local]
  {
    cl.(cursors := map n | n in cl.cursors ::
                     if Stale(cl, n, now) then cl.cursors[n].(visible := false) else cl.cursors[n])
  }

  /**
   * The one-second liveness sweep, as the source walks `lastUpdateTimeRef`:
   * every stale user that has a cursor gets it hidden, one entry at a time.
   */
  method Sweep(cl: Client, now: int) returns (r: Client)
    ensures r == Swept(cl, now)
  {
    r := cl;
    var pending := cl.lastUpdate.Keys;
    while pending != {}
      invariant pending <= cl.lastUpdate.Keys
      invariant r == cl.(cursors := r.cursors)
      invariant r.cursors.Keys == cl.cursors.Keys
      invariant forall n :: n in cl.cursors ==>
        r.cursors[n] == if n !in pending && Stale(cl, n, now)
                        then cl.cursors[n].(visible := false) else cl.cursors[n]
      decreases pending
    {
      var user :| user in pending;
      pending := pending - {user};
      if user != cl.local && now - cl.lastUpdate[user] > StaleAfter {
        if user in r.cursors {
          r := r.(cursors := r.cursors[user := r.cursors[user].(visible := false)]);
        }
      }
    }
  }

  /** The canvas objects `clearCanvas` keeps: the cursor objects, in order. */
  function KeepCursors(objs: seq<CanvasObject>): (r: seq<CanvasObject>)
    ensures |r| <= |objs|
    ensures forall o :: o in r <==> o in objs && o.CursorMark?
    ensures forall n :: multiset(r)[CursorMark(n)] == multiset(objs)[CursorMark(n)]
  {
    if objs == [] then []
    else
      assert objs == [objs[0]] + objs[1..];
      var rest := KeepCursors(objs[1..]);
      if objs[0].CursorMark? then [objs[0]] + rest else rest
  }

  /**
   * Clearing works object by object: the cursors kept from two runs of
   * objects are those of the first run followed by those of the second, so
   * the cursors keep their stacking order.
   */
  lemma {:induction false} KeepCursorsAppend(a: seq<CanvasObject>, b: seq<CanvasObject>)
    ensures KeepCursors(a + b) == KeepCursors(a) + KeepCursors(b)
    decreases |a|
  {
    if a == [] {
      assert a + b == b;
    } else {
      assert (a + b)[1..] == a[1..] + b;
      KeepCursorsAppend(a[1..], b);
    }
  }

  /** `clearCanvas()`: drop every drawn object, keep every cursor. */
  function ClearCanvasObjects(cl: Client): (r: Client)
    ensures r == cl.(objects := r.objects)
    ensures forall o :: o in r.objects <==> o in cl.objects && o.CursorMark?
    ensures forall n :: multiset(r.objects)[CursorMark(n)] == multiset(cl.objects)[CursorMark(n)]
  {
    cl.(objects := KeepCursors(cl.objects))
  }

  /** `handleGameUpdate(data)`: a `DRAW` event puts its path on the canvas. */
  function DrawUpdate(cl: Client, game: GameEvent): (r: Client)
    ensures game.kind == "DRAW" ==> r == cl.(objects := cl.objects + [Stroke(game.data)])
    ensures game.kind != "DRAW" ==> r == cl
  {
    if game.kind == "DRAW" then cl.(objects := cl.objects + [Stroke(game.data)]) else cl
  }

  /** The client's state after one server event, and what it sent in reply. */
  datatype Handled = Handled(next: Client, sent: seq<ClientEmit>)

  /** The listeners the component registers, applied to one server event received at `now`. */
  function Handle(cl: Client, ev: Outbound, now: int): (r: Handled)
    ensures |r.sent| <= 1
    ensures ev.RequestCursorPosition? ==>
      r.next == cl && (r.sent != [] <==> ev.name == cl.local)
    ensures ev.UserConnected? ==>
      r.next == cl && r.sent == [EmitRequestCursorPosition(cl.room, ev.name)]
    ensures !ev.RequestCursorPosition? && !ev.UserConnected? ==> r.sent == []
    ensures ev.CanvasState? ==> r.next == cl
  {
    match ev
    case GameUpdate(game) => Handled(DrawUpdate(cl, game), [])
    case CursorMove(p) => Handled(UpdateCursor(cl, p.username, p.x, p.y, now), [])
    case ClearCanvas => Handled(ClearCanvasObjects(cl), [])
    case UserConnected(name) => Handled(cl, [EmitRequestCursorPosition(cl.room, name)])
    case RequestCursorPosition(name) =>
      var answer := AnswerPositionRequest(cl, name);
      Handled(cl, if answer.Some? then [EmitCursorMove(answer.value)] else [])
    case UserDisconnected(name) => Handled(HandleUserDisconnected(cl, name), [])
    // the component registers no `canvasState` listener
    case CanvasState(_) => Handled(cl, [])
  }

  /**
   * How socket.io hands a client emit to the server's listener: the
   * `requestCursorPosition` listener takes one argument, so only the first
   * one the client sent is seen.
   */
  function ToServer(e: ClientEmit): (r: Inbound)
    ensures e.EmitCursorMove? ==> r == MoveCursor(e.position)
    ensures e.EmitRequestCursorPosition? ==> r == AskCursorPosition(e.first)
  {
    match e
    case EmitCursorMove(position) => MoveCursor(position)
    case EmitRequestCursorPosition(first, _) => AskCursorPosition(first)
  }

  /**
   * A position request reaches the relay as the same event whatever its
   * second argument: only the first one is read.
   */
  lemma ToServerDropsSecond(first: string, a: string, b: string)
    ensures ToServer(EmitRequestCursorPosition(first, a)) == ToServer(EmitRequestCursorPosition(first, b))
    ensures ToServer(EmitRequestCursorPosition(first, a)) == AskCursorPosition(first)
  {
  }
}
