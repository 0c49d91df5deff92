# Collaborative canvas relay — a Dafny model

This project models the real-time part of a shared drawing board.

- **The relay** is the socket.io server in `backend/index.js`. It keeps a per-room history of drawing records (`canvasStates`). It relays strokes and cursor moves to the other members of a room, and clear requests to every member, the sender included when it is one. socket.io's `socket.to` skips the sender's whole own-id room (below). It replays a room's history to a connection that asks for it.
- **The presence client** is the canvas component in `frontend/src/components/GameCanvas4.tsx`. Each user's cursor is a text label. For every name, the component records a colour, a last position and a last update time. It reacts to the relay's events and hides cursors that have gone quiet.

Modules:

- `Wrappers`: `Option` and `Result`.
- `Protocol`: the event vocabulary, and `Received`, which gives what one connection gets from a list of emits.
- `Relay`: the server. Each handler is a pure function from the server state, the sending connection and one inbound event to the next state and the emits it makes. A handler that throws gives `Failure`.
- `RelayProps`: properties of whole runs of the server.
- `Presence`: the client's bookkeeping, with the fabric canvas reduced to a list of objects (strokes and cursor labels).
- `PresenceProps`: the invariant the client's refs keep, and the colour round-robin.
- `Interplay`: the client's replies passed back through the relay.

Behaviours of the code the model reproduces:

- **`gameEvent` for a room with no entry throws.** The handler spreads `canvasStates[data.roomId]`, and spreading `undefined` raises a TypeError. Nothing is stored or sent (`Relay.Draw`, `RelayProps.DrawBeforeAnyJoinThrows`). Only `joinRoom` creates a registry entry. The listener catches nothing and the server installs no process-level handler, so the TypeError ends the Node process, and every room's history goes with it. The model represents this by `Step` giving `Failure`, and `RelayProps.Run` stops at the first `Failure`: no later event is handled.
- **`clearCanvas` keeps the stored history.** It only broadcasts, so a later replay still returns every record (`RelayProps.ClearKeepsReplay`).
- **The server has no disconnect handler.** It never sends `userDisconnected` (`Relay.Step` ensures `NoLeaveNotice`). The client's `handleUserDisconnected` is modelled all the same.
- **Every cursor label reads `<name> (You)`.** In `updateCursor`, the test for the local user compares the parameter `username` with itself, because the parameter shadows the component's prop. The test is therefore always true (`Presence.UpdateCursor`, and the `LabelsMatch` invariant in `PresenceProps`).
- **The join notices ask about the joiner.** Existing members are asked for the position of the newcomer's own name, so only a client whose local name is the newcomer's answers (`Interplay.JoinNoticeReply`).
- **The `userConnected` reply loses the newcomer's name.** The client replies with `requestCursorPosition(roomId, newUsername)`. The server's listener reads only the first argument, so it compares the room id with the sender's own username (`Interplay.ConnectedReplyIgnoresNewcomer`).
- **The client never sends `requestCanvasState` and has no `canvasState` listener.** The server side of the replay is modelled; the client ignores the event (`Presence.Handle`).

Other modelling choices:

- socket.io puts every socket in a room named by its own id. `Relay.Members` includes that socket, so an emit to a room named like a connection reaches it (`RelayProps.ClearReachesOwnIdRoom`).
- `socket.to(r)` excludes every socket in the room named by the sender's id, not only the sender. `Relay.Others` is therefore `Members(s, r) - Members(s, c)`: a connection that joined a room named like the sender hears none of the sender's relayed events, even when it shares the target room (`RelayProps.OwnIdRoomSkipped`, `RelayProps.OwnIdRoomDemo`).
- JavaScript truthiness of `currentRoom` is modelled: the empty room id counts as "no room" (`Relay.HasRoom`).
- Clock readings and pointer coordinates are integers passed in as parameters.
- The canvas is 800 by 500, so its centre is (400, 250).
- A colour is recorded as its position in `CURSOR_COLORS`. The twelve entries are pairwise different (`Presence.PaletteDistinct`), so a position names one colour, and `Presence.Hex` gives its string.

## Model

| member | source | states |
|---|---|---|
| Protocol.Received | backend/index.js:103-104 | a connection receives the events of the emits addressed to it, in emit order, and never more events than there were emits |
| Relay.Join | backend/index.js:97-110 | the room gets an empty history only when it has none, and no other room changes; the session records room and name; the joiner becomes a member; every member outside the room named by the joiner's id, and nobody else, receives `userConnected(name)` then `requestCursorPosition(name)` |
| Relay.Draw | backend/index.js:113-121 | succeeds exactly when the room has a history and otherwise fails with the spread-of-undefined fault; on success the record is appended with the earlier records unchanged, nothing else changes, and every member outside the room named by the sender's id, so never the sender, gets the whole event once |
| Relay.RelayCursor | backend/index.js:138-143 | state unchanged; nothing is sent without a non-empty room; otherwise the position reaches the members of the sender's current room outside the room named by the sender's id, and nobody else |
| Relay.AskPosition | backend/index.js:145-150 | state unchanged; something is sent exactly when the name is the session's own and the session has a non-empty room; the request then reaches the members of that room outside the room named by the sender's id, and nobody else |
| Relay.Replay | backend/index.js:153-157 | state unchanged; a room with a history, even an empty one, is replayed to the asker alone; a room without one gets no reply |
| Relay.Clear | backend/index.js:159-162 | state unchanged, history included; every member of the room receives `clearCanvas` once, the sender too when it is a member, and nobody else does |
| Relay.Step | backend/index.js:91-163 | an event throws exactly when it is a `gameEvent` for a room with no history; no handler ever sends `userDisconnected` |
| RelayProps.RunAppendOnly | backend/index.js:107-117 | along any run that does not throw, no room's history disappears and every history only grows at its end |
| RelayProps.StepKeepsHistory | backend/index.js:91-163 | every handler keeps each existing history as a prefix |
| RelayProps.RunHistory | backend/index.js:117 | after a run, an existing room's history is its old history followed by exactly the records drawn into it, in arrival order |
| RelayProps.RunHistoryAny | backend/index.js:107-117 | after any run that does not throw, every room with a history, including one the run created, holds its old history (none for a new room) followed by exactly the records drawn in it, in arrival order |
| RelayProps.RunHistoryFromStart | backend/index.js:107-117 | from start-up, a room's history is exactly the records drawn in it, in arrival order |
| RelayProps.RunRooms | backend/index.js:107-109 | after a run, a room has a history exactly when it had one before or the run sent `joinRoom` for it |
| RelayProps.DrawsSucceed | backend/index.js:113-121 | a run of drawings into a room that has a history never throws |
| RelayProps.LateJoinerReplay | backend/index.js:113-157 | after drawings into a room, `requestCanvasState` returns to the asker alone the old history plus those records, unmodified and in order |
| RelayProps.ReplayAfterRun | backend/index.js:107-157 | after any run that does not throw, a replay returns to the asker alone the room's old history (none for a new room) plus the records drawn in it, and a room without a history gets no reply |
| RelayProps.ReplayFromStart | backend/index.js:97-157 | from start-up, a replay of a room someone joined returns exactly the records drawn in it, and a room nobody joined gets no reply |
| RelayProps.ClearKeepsReplay | backend/index.js:153-162 | a replay after `clearCanvas` returns the same history as before it |
| RelayProps.RoomIsolation | backend/index.js:97-162 | an event naming one room changes no other room's history or membership, and reaches no connection outside that room except the sender |
| RelayProps.StepConsistent | backend/index.js:92-110 | every handler keeps the invariant: room and name are set together, a connection has joined its session's room, and every room a connection joined with `joinRoom` has a history (a socket's own-id room is not covered: it has its socket from the start and no history) |
| RelayProps.RunConsistent | backend/index.js:91-163 | a run that does not throw carries that invariant from any consistent state to its end; with `InitialConsistent`, every state reachable from start-up keeps it |
| RelayProps.InitialConsistent | backend/index.js:88-93 | the server at start-up satisfies the invariant, and every socket is already in its own-id room, which has no history |
| RelayProps.ReachableJoinedDrawSucceeds | backend/index.js:97-143 | after any run from start-up that does not throw, a connection can draw into the room it last joined, and its cursor moves reach only members of that room |
| RelayProps.JoinedDrawSucceeds | backend/index.js:107-117 | in a consistent state, drawing into the room one has joined never throws |
| RelayProps.DrawBeforeAnyJoinThrows | backend/index.js:117 | on a fresh server, every `gameEvent` throws |
| RelayProps.CursorStaysInOwnRoom | backend/index.js:138-143 | a relayed cursor move comes from a connection with a non-empty room it belongs to, and reaches only members of that room outside the room named by the sender's id |
| RelayProps.DemoSession | backend/index.js:97-157 | two users in "demo": a stroke reaches the other user once and not the sender, a cursor move does the same, and a third user who joins later is replayed exactly that one stroke |
| RelayProps.ClearReachesOwnIdRoom | backend/index.js:159-162 | `clearCanvas` naming a connection's id reaches that connection, whatever it has joined |
| RelayProps.OwnIdRoomSkipped | backend/index.js:97-150 | a connection that joined the room named by the sender's id receives none of the sender's strokes, cursor moves, position requests or join notices |
| RelayProps.OwnIdRoomDemo | backend/index.js:113-121 | D joins room "A" and "demo", A joins "demo": A's stroke in "demo" reaches neither the sender A nor D, although both are members of "demo" |
| Presence.Hex | frontend/src/components/GameCanvas4.tsx:18-31 | every colour position names an entry of `CURSOR_COLORS` |
| Presence.PaletteDistinct | frontend/src/components/GameCanvas4.tsx:18-31 | the twelve colours are pairwise different |
| Presence.NextShade | frontend/src/components/GameCanvas4.tsx:46 | the position handed to a new name is below twelve, and is the number of coloured names itself while fewer than twelve are coloured |
| Presence.CursorColor | frontend/src/components/GameCanvas4.tsx:44-50 | the name ends up coloured and its colour is the one returned; a coloured name changes nothing; a new name gets the next palette position and nothing else changes |
| Presence.UpdateCursor | frontend/src/components/GameCanvas4.tsx:117-154 | records position and time; the name's cursor sits at (x+15, y-15), visible, with the " (You)" text; an existing cursor keeps its colour and object, and a new one gets the name's colour and exactly one new canvas object; other cursors are untouched |
| Presence.Mount | frontend/src/components/GameCanvas4.tsx:179 | a fresh component has one cursor, the local user's, at the centre, in the first palette colour "#FF9AA2", with one canvas object |
| Presence.AnswerPositionRequest | frontend/src/components/GameCanvas4.tsx:216-231 | answers exactly when the requested name is the local one, with the local name and room, at the last known position or else the canvas centre |
| Presence.RemoveFirst | frontend/src/components/GameCanvas4.tsx:236 | removing an object takes exactly one occurrence of it off the canvas, and changes nothing when it is absent |
| Presence.RemoveFirstKeepsOrder | frontend/src/components/GameCanvas4.tsx:236 | removal takes out exactly the first occurrence and keeps the other objects in their stacking order |
| Presence.HandleUserDisconnected | frontend/src/components/GameCanvas4.tsx:234-242 | a name without a cursor changes nothing; otherwise its cursor, position and time are gone, its colour stays, and the canvas loses exactly its cursor object |
| Presence.Swept | frontend/src/components/GameCanvas4.tsx:245-255 | only visibility changes and no cursor is deleted; a cursor is visible afterwards exactly when it was visible and is not another user's cursor quiet for more than 5000 ms; the local cursor never changes |
| Presence.Sweep | frontend/src/components/GameCanvas4.tsx:245-255 | walking the update times one entry at a time gives exactly that outcome |
| Presence.KeepCursors | frontend/src/components/GameCanvas4.tsx:67-79 | the objects kept are exactly the cursor objects, each as many times as before |
| Presence.KeepCursorsAppend | frontend/src/components/GameCanvas4.tsx:70-75 | clearing goes object by object, so the cursors kept from two runs of objects are those of the first followed by those of the second, in stacking order |
| Presence.ClearCanvasObjects | frontend/src/components/GameCanvas4.tsx:67-79 | clearing touches only the canvas: it keeps every cursor object with its count and drops every other object |
| PresenceProps.ClearErasesDrawnStroke | frontend/src/components/GameCanvas4.tsx:182-197 | a stroke a `DRAW` event adds is exactly something the next `clearCanvas` erases: clearing after it gives the same canvas as clearing before it |
| Presence.Handle | frontend/src/components/GameCanvas4.tsx:182-263 | each event gets at most one reply; `userConnected` is answered with a position request carrying the room id and the newcomer; a position request is answered exactly when it names the local user; the other events send nothing; `canvasState` has no listener |
| Presence.ToServerDropsSecond | frontend/src/components/GameCanvas4.tsx:210-213 | a position request reaches the relay as the same event whatever its second argument, a request about its first argument only |
| PresenceProps.MountWellFormed | frontend/src/components/GameCanvas4.tsx:179 | a freshly mounted component satisfies the invariant: the same names have a position, a time and a cursor; colours are palette positions; labels carry their owner's colour and text; one canvas object per cursor |
| PresenceProps.UpdateCursorWellFormed | frontend/src/components/GameCanvas4.tsx:117-154 | `updateCursor` keeps the invariant and leaves the name exactly one cursor object, so it never creates a second one |
| PresenceProps.UserDisconnectedWellFormed | frontend/src/components/GameCanvas4.tsx:234-242 | `handleUserDisconnected` keeps the invariant and leaves the name no cursor object |
| PresenceProps.SweptWellFormed | frontend/src/components/GameCanvas4.tsx:245-255 | the liveness sweep keeps the invariant |
| PresenceProps.ClearWellFormed | frontend/src/components/GameCanvas4.tsx:67-79 | clearing keeps the invariant and leaves only cursor objects |
| PresenceProps.HandleWellFormed | frontend/src/components/GameCanvas4.tsx:182-263 | every listener keeps the invariant |
| PresenceProps.HandleAllWellFormed | frontend/src/components/GameCanvas4.tsx:258-263 | the invariant holds whatever sequence of events the server sends |
| PresenceProps.ColorIdempotent | frontend/src/components/GameCanvas4.tsx:44-50 | asking for a name's colour twice changes nothing the second time and returns the same colour |
| PresenceProps.KeepsColor | frontend/src/components/GameCanvas4.tsx:45-49 | a name that has a colour keeps it, whatever names ask afterwards |
| PresenceProps.DistinctAllNew | frontend/src/components/GameCanvas4.tsx:45 | distinct names none of which is coloured are each still uncoloured when their turn comes |
| PresenceProps.ColorAllRoundRobin | frontend/src/components/GameCanvas4.tsx:44-50 | new names asking in turn get consecutive palette positions: the i-th gets (count + i) mod 12 |
| PresenceProps.FirstTwelveDiffer | frontend/src/components/GameCanvas4.tsx:44-50 | starting from no coloured names, the k-th of up to twelve distinct names gets palette entry k, so they all get different colours; on a mounted component the local name is already the first of the twelve, so only eleven other names get colours different from each other and from it |
| Interplay.HandleInOrder | frontend/src/components/GameCanvas4.tsx:258-263 | handling a connection's events in order sends at most one reply per event |
| Interplay.Position | frontend/src/components/GameCanvas4.tsx:220-224 | a client reports its last known position, or the centre when it has none |
| Interplay.JoinNoticeReply | frontend/src/components/GameCanvas4.tsx:210-231 | a member told of a join changes nothing; it requests the position of its room id for the newcomer, and sends its own position only when its local name is the newcomer's |
| Interplay.ConnectedReplyIgnoresNewcomer | frontend/src/components/GameCanvas4.tsx:210-213 | whoever joined, the relay treats the `userConnected` reply alike: it forwards it only when the replying connection's own username equals the room id |
| Interplay.AnswerReachesRoom | frontend/src/components/GameCanvas4.tsx:200-231 | a position answer from a joined client reaches once each member of its room outside the room named by its connection id, and their client then shows the answering user's cursor, visible, at the answered point |

## Left out

- The HTTP endpoints `/create-room` and `/get-token` (backend/index.js:47-85). They are pass-throughs to the conferencing service's SDK, whose code is not part of this model.
- CORS and the Express/socket.io server wiring (backend/index.js:10-44, 165-167). These are configuration and I/O.
- Logging (`console.log`) and the unused `A_COLORS` constant.
- socket.io's own removal of a closed connection from its rooms. This is library behaviour, and the server registers no handler for it, so `Members` never shrinks in the model.
- Concurrency. Events reach the server one at a time, in the single event loop's order; a run is a sequence of such events.
- JavaScript plain-object quirks, and any payload whose fields do not have the expected types:
  - rooms or names such as `__proto__` that collide with prototype keys;
  - a `gameEvent` whose `roomId` is not a string;
  - a `gameEvent` sent with no payload, which throws at `data.roomId` (backend/index.js:114) and ends the process like the spread fault;
  - an array `roomId` in `joinRoom` or `clearCanvas`, which makes `socket.join` or `io.to` address several rooms at once.
- Floating-point pointer coordinates. Coordinates are integers.
- The client's drawing emission `handlePathCreated` (GameCanvas4.tsx:101-114). It serialises a fabric path, which is rendering. Drawing records are opaque to both sides and are represented by a string (`Protocol.Record`).
- The user's own strokes. In drawing mode (GameCanvas4.tsx:86) fabric adds them to the canvas itself, and `clearCanvas` removes them too. The model's `objects` receives only strokes that arrive as `gameUpdate`, so `ClearCanvasObjects` is stated for those.
- The 50 ms throttle of `handleMouseMove` (GameCanvas4.tsx:157-174). Its local cursor update is `Presence.UpdateCursor`.
- The one-second timer around the sweep. `Presence.Sweep` is one tick at a given clock reading.
- fabric rendering: stroke styling, `requestRenderAll`, the background reset in `clearCanvas`, the brush controls and the React effects.
- The `fabricRef.current` null guards. The model describes the mounted component, where the canvas exists.
- Presence.Handle: states only what each listener replies and when the state is untouched; the new state of the other listeners is stated by the functions it calls (`DrawUpdate`, `UpdateCursor`, `ClearCanvasObjects`, `HandleUserDisconnected`).
