# Call-signaling relay of skill-link, in Dafny

skill-link's WebSocket server brokers WebRTC negotiation between the mentor
and the learner of a mentoring session. This project models the server's two
parts.

- **The handshake gate** (`Gate`). Before a socket is admitted, the
  middleware checks four things in order: the credential token is present,
  the token verifies, a session id is present, and one database query finds
  a session row with that id where the user is the mentor or the learner.
  There are three error messages. A missing token and any exception, from
  verification or from the query, share "Authentication error"; a missing
  session id and a failed participation check each have their own. The gate is a
  pure function. Token verification and the query are parameters
  (`verify`, `lookup`), because the model does not see their code.
- **The room registry and its handlers** (`Rooms`, `Relay`). The server
  keeps a map from session id to room. A room maps each user id to that
  user's socket.
  - On connection, the handler creates the session's room if none exists.
    It stores the socket under the user id and sends `user-joined` to
    everyone else in the room.
  - `offer`, `answer` and `ice-candidate` are passed on unchanged to every
    other member.
  - On disconnect, the handler deletes the user id from the room and sends
    `user-left` to whoever remains. If the room is then empty, it deletes
    the session's entry from the registry.

  `Rooms.Room` is a class: `members` is the map, and `order` holds its keys
  in insertion order, the order `forEach` visits them. `Relay.Registry` is
  a class whose `rooms` field is the session map. Each handler is a method
  that changes those fields and returns the list of `Emission`s it makes.
  Each emission records the recipient's key, its socket, the event and the
  payload. Every `forEach` loop is `Room.Fanout`. That method is proved
  against the recursive function `Rooms.Broadcast`, and the lemmas about
  `Broadcast` state who receives what.

The model keeps three behaviours of the code.

- The connection handler looks the room up once. Every later handler of
  that socket uses the room object it got then, even after the registry
  has dropped it or replaced it. `Relay.Connection` carries that captured
  `Room` reference.
- Disconnect deletes by user id. When a user reconnects before the old
  socket's disconnect runs, that disconnect removes the new socket's entry.
  If the room is then empty, the handler deletes whatever room is
  registered under the session id, and that may be a newer room than the
  one it holds.
- A room has no size limit. A third admitted participant is simply added.

`Scenarios` composes the handlers into end-to-end sessions, including the
two reconnect cases above. All but `OutsiderRejected` hold for arbitrary user
ids and session ids; that one uses a fixed session "s1" and outsider "u3".

One query checks both that the session exists and that the user takes part
in it, so an unknown session and a non-participant both get "Not authorized
for this session". A superseded socket is not closed: it stays open and
keeps its handlers.

## Model

| member | source | states |
|---|---|---|
| Gate.Authorize | websocket-server/index.js:20-51 | Admits exactly when the token is present and truthy, verification returns a payload, the session id is present and truthy, and the query returns at least one row. An admission binds the payload's user id and the session id. "Authentication error" exactly when the token is missing, verification throws, or the query throws. "Session ID required" exactly when verification succeeded and the session id is missing or empty. "Not authorized for this session" exactly when the query returns no rows. |
| Gate.Message | websocket-server/index.js:23-49 | Each rejection carries its own message: the three texts are distinct and each belongs to exactly one error. |
| Gate.SessionSeenOnlyThroughQuery | websocket-server/index.js:35-43 | Two sessions that the participation query answers alike are decided alike: one fails exactly when the other does, with the same error. So an unknown session and a session the user is not part of cannot be told apart. |
| Rooms.SignalNamed | websocket-server/index.js:76-98 | A client event name is handled only if it is one of the three signaling events, under that same name. Any other name matches no handler. |
| Rooms.Without | websocket-server/index.js:105 | Deleting a key keeps exactly the other keys (their order is stated by `WithoutAppend` and `WithoutSingle`). Deleting an absent key changes nothing. With distinct keys the result has distinct keys and is one shorter. |
| Rooms.WithoutSingle | websocket-server/index.js:105 | Deleting from a one-key listing removes the key if it is the deleted one and keeps it otherwise. |
| Rooms.WithoutAppend | websocket-server/index.js:105 | Deleting distributes over concatenation, so the surviving keys keep their relative insertion order, which fixes the order of the `user-left` emissions. |
| Rooms.WithoutUndoesAppend | websocket-server/index.js:105 | Adding a new key last and then deleting it gives back the original key order, so a join followed by a leave leaves the room as it was. |
| Rooms.BroadcastTargets | websocket-server/index.js:69-73 | Every emission of a fan-out goes to a key in the room other than the excluded one, at the socket the room holds for that key, with the given event and the payload unchanged. |
| Rooms.BroadcastExactlyOnce | websocket-server/index.js:69-73 | Each room member other than the excluded key receives exactly one emission. The excluded key and non-members receive none. |
| Rooms.BroadcastEmpty | websocket-server/index.js:76-98 | A fan-out emits nothing exactly when every key in the room is the excluded one. So a forward with no other member in the room is silently dropped. |
| Rooms.Room.constructor | websocket-server/index.js:60 | A new room is empty and well formed. |
| Rooms.Room.Set | websocket-server/index.js:64 | The key now maps to the new socket and every other entry is unchanged. A new key goes last. A rejoining key keeps its place, so a key is never stored twice. The room stays well formed. |
| Rooms.Room.Delete | websocket-server/index.js:105 | The key is gone, the other entries and their order are kept, and an absent key is a no-op. The room stays well formed. |
| Rooms.Room.Fanout | websocket-server/index.js:69-73 | The `forEach` loop produces exactly `Broadcast` of the room, in insertion order. |
| Relay.Registry.constructor | websocket-server/index.js:17 | The process starts with no rooms. |
| Relay.Registry.RoomFor | websocket-server/index.js:59-63 | An existing room is reused and never replaced. A fresh empty room is created and registered only when none exists. No other session's entry changes. |
| Relay.Registry.Connect | websocket-server/index.js:54-73 | Afterwards the session is registered. Its room maps the user to the new socket, and every other entry of that room and every other session's room is unchanged. The connection captures that room. Every member except the joiner is sent `user-joined` with the joiner's id, and the registry invariant (rooms filed under their own session, well formed, non-empty) is kept. |
| Relay.Registry.Disconnect | websocket-server/index.js:101-116 | The user id is removed from the captured room and every remaining member is sent `user-left`. The registry loses the session's entry exactly when the captured room is now empty. All other rooms' members are unchanged, and the registry invariant is kept. |
| Relay.Registry.Accept | websocket-server/index.js:20-73 | A rejected handshake returns the gate's error, sends nothing, and leaves the registry and every room untouched. An admitted one registers the gate's session, reusing its existing room or creating a fresh one. It maps the gate's user to the socket in that room, with the same insertion order as `Connect`, and leaves every other session's room with its members and their insertion order. It returns a connection that captures the room and sends `user-joined` to the other members. The registry invariant is kept either way. |
| Relay.Forward | websocket-server/index.js:76-98 | A signaling message goes, under its own event and with its data unchanged, to every member of the captured room whose key is not the sender's. The method changes no state. |
| Relay.OnMessage | websocket-server/index.js:76-98 | An event name without a handler emits nothing. The three signaling names are forwarded as the matching event. |
| Scenarios.TwoPartyNegotiation | websocket-server/index.js:54-98 | With two distinct users, the mentor alone is told of the learner's arrival. The offer reaches only the learner and the answer only the mentor, each unchanged. |
| Scenarios.MentorLeaves | websocket-server/index.js:101-116 | When one of two members leaves, the other alone is told, and the room stays registered with that member only. |
| Scenarios.LastLeaveDropsRoom | websocket-server/index.js:108-115 | The last member to leave is told nothing, and the session is no longer registered. |
| Scenarios.OutsiderRejected | websocket-server/index.js:36-43 | A user who is not in the session's row is rejected with "Not authorized for this session", nothing is sent, and no room is created. |
| Scenarios.SupersededSocketEvictsItsReplacement | websocket-server/index.js:101-115 | When a user reconnects and the old socket then disconnects, the room the new socket holds is empty and the session is unregistered, although the new socket is still open. |
| Scenarios.StaleRoomDropsNewerRoom | websocket-server/index.js:59-115 | After that, a newcomer gets a new room. When the stale socket disconnects, it finds its own old room empty and unregisters the session, so the newcomer's room leaves the registry with the newcomer still in it. |

## Left out

- JWT signature checking and the SQL query are parameters (`verify` and `lookup`); their implementations are not part of this model. A token whose payload has no `userId` is not a separate case: the query then compares with `undefined`, and its answer is whatever `lookup` returns for that user id.
- The `socket.userId` assignment on a socket that is then rejected is not modelled: a rejected socket never reaches any handler.
- `console.log` and `console.error` output, the HTTP and socket.io server set-up, CORS options, the port and environment variables are left out. They are I/O and configuration.
- Asynchronous scheduling is not modelled. Each handler is one atomic method, as the event loop runs it to completion. Other handlers may run during the gate's `await`. The gate reads no shared state, so its decision does not depend on them, and the model runs it just before the connection handler.
- Delivery is not modelled. An emission is a record of which socket was asked to send what, and whether the socket is still open is the transport's concern.
- The data of `offer`, `answer` and `ice-candidate` is an opaque string that is passed through. Its JSON structure is never inspected by the server.
- The query-string session id is a string. A repeated query parameter, which socket.io would deliver as an array, is not modelled.
- Closing a superseded socket is not modelled: the code never does it, and an old socket keeps its handlers until its own disconnect.
