# Ephemeral chat rooms: the socket.io server's room-membership state machine

This project models the server core of a small real-time chat application.
Clients create a room by code. They join it under a display name, send messages
to everyone in it, and leave it. The server keeps three pieces of state:

- **Redis rosters.** One list of display names per room, under the key
  `room:<roomId>`, plus the TTL set on that key.
- **`userSocketMap`.** A map from socket id to the `{name, roomId}` the socket
  last joined with.
- **socket.io room subscriptions.** They decide who receives a broadcast.

`ChatServer` (module `SocketServer`, file `socket_server.dfy`) is a class with
one field for each of these: `store`, `ttl`, `registry` and `subs`. It has one
method per handler: `CreateRoom`, `JoinRoom`, `SendMessage`, `LeaveRoom` and
`Disconnect`. Each method is the handler's sequence of Redis commands and
state updates. It returns the deliveries the handler makes: acknowledgements
to the requester, `roomJoined` to the joiner, and `updateUsersList` and
`messageReceived` to the sockets subscribed at that moment. Every handler
method keeps the class invariant `Valid()`:

- No Redis key holds an empty list.
- Only existing keys carry a TTL.
- No real display name occurs twice in any room's list.

The Redis commands are methods of the class too:

- `LRange` is `LRANGE key 0 -1`. A missing key reads as `[]`.
- `RPush` is `RPUSH`. It creates a missing key and keeps an existing TTL.
- `LRem` is `LREM key 1 v`. A list left empty is deleted together with its TTL.
- `Expire` is `EXPIRE`. It has no effect on a missing key. A timeout of zero
  or less deletes an existing key, as Redis does; the handlers only ever pass
  86400.

Module `Presence` (`presence.dfy`) holds the pure list functions behind these
commands and the lemmas about them. `RemoveFirst` is `LREM key 1 v`.
`JoinedRoster` is the list a join leaves behind. `NamesUnique` is the roster
invariant. Module `Scenarios` (`scenarios.dfy`) states the outcome of event
sequences on a fresh server. Every socket, name and room in them is a
parameter. They show the two-person chat the application is built for and
three quirks of the handlers:

- Creating a room twice leaves two placeholders.
- A room whose members have all left answers "Room not found".
- `leaveRoom` leaves the registry entry behind. A later disconnect of that
  socket can then remove a different socket's member of the same name.

Quirks of the handlers that the model keeps:

- Room creation is not idempotent: `createRoom` pushes `"__placeholder__"`
  on every call (server/socket.js:15).
- `leaveRoom` never touches `userSocketMap` (server/socket.js:47-56).
- `joinRoom`'s check and append are four separate Redis commands
  (server/socket.js:22-30); the model takes each handler as one atomic step.
- A successful `joinRoom` never calls its callback and emits `roomJoined`
  instead (server/socket.js:36).

## Model

| member | source | states |
|---|---|---|
| `Presence.RemoveFirst` | server/socket.js:48 | `LREM key 1 x` shortens the list by one exactly when `x` occurs in it |
| `Presence.RemoveFirstCounts` | server/socket.js:48 | `LREM key 1 x` takes exactly one copy of `x` out of the list, and only when there is one; every other value keeps its count |
| `Presence.RemoveFirstAbsent` | server/socket.js:48 | `LREM` of a value that does not occur leaves the list unchanged |
| `Presence.RemoveFirstAt` | server/socket.js:48 | when `i` is the first position holding `x`, `LREM key 1 x` deletes exactly element `i` and keeps the order of the rest |
| `Presence.RoomKeyInjective` | server/socket.js:15 | two rooms never share the key `room:<roomId>` |
| `Presence.CreateKeepsNamesUnique` | server/socket.js:14-15 | pushing the placeholder keeps every real name unique and raises the placeholder count by one |
| `Presence.JoinKeepsNamesUnique` | server/socket.js:27-31 | a join keeps every real name unique, and afterwards the joined real name occurs exactly once |
| `Presence.JoinTouchesOnlyJoinerAndPlaceholder` | server/socket.js:27-31 | a join leaves the count of every other real name alone; the placeholder count drops by one only when the name was absent and a placeholder was there |
| `Presence.LeaveKeepsNamesUnique` | server/socket.js:47-48 | removing a name keeps every real name unique, and a real name is absent afterwards; `disconnect` issues the same `LREM` at line 63 |
| `Presence.LeaveTwiceIsLeaveOnce` | server/socket.js:48 | a second `LREM` of a unique real name finds nothing to remove |
| `SocketServer.Subscribers` | server/socket.js:40 | `io.to(roomId)` reaches a socket exactly when that socket is subscribed to the room |
| `SocketServer.DropSocket` | server/socket.js:58-65 | once the closing socket has left every room, every room's broadcast reaches its earlier subscribers minus that socket |
| `SocketServer.ChatServer.constructor` | server/socket.js:4 | a new server has an empty Redis, an empty `userSocketMap`, no subscriptions and satisfies the invariant |
| `SocketServer.ChatServer.RPush` | server/socket.js:15 | `RPUSH` appends at the tail of the key's list (creating it) and changes nothing else |
| `SocketServer.ChatServer.LRem` | server/socket.js:28 | `LREM key 1 v` stores the list without its first `v`; a list left empty is deleted with its TTL |
| `SocketServer.ChatServer.Expire` | server/socket.js:30 | `EXPIRE` ignores a missing key, sets a positive TTL on an existing key, and deletes an existing key when the timeout is zero or less |
| `SocketServer.ChatServer.AddMember` | server/socket.js:28-30 | dropping one placeholder, appending the name and setting the TTL leaves the list `RemoveFirst(old, placeholder) + [name]` with TTL 86400, even when the `LREM` deleted the key |
| `SocketServer.ChatServer.CreateRoom` | server/socket.js:14-19 | one more placeholder at the tail of the room's list, TTL, registry and subscriptions unchanged, and an `'ok'` acknowledgement only when a callback was supplied; the invariant is kept |
| `SocketServer.ChatServer.JoinRoom` | server/socket.js:21-41 | an empty list gives "Room not found" with status 0 and no change at all; otherwise the list becomes `JoinedRoster`, the TTL is set to 86400 only when the name was added, the socket is subscribed, the registry entry is overwritten, `roomJoined` goes to the joiner only, the new list goes to every subscriber including the joiner, a real name ends up in the list exactly once, and the invariant is kept |
| `SocketServer.ChatServer.SendMessage` | server/socket.js:43-45 | `{fromName, message}` goes to exactly the sockets subscribed to `roomId`, whether or not the sender is one of them; nothing changes |
| `SocketServer.ChatServer.LeaveRoom` | server/socket.js:47-56 | the first occurrence of the name leaves the list (the key goes when the list empties), every other room's list is unchanged, the remaining list goes to the subscribers as they were before the leaver unsubscribed, the registry is untouched, the callback is called only when supplied, and a real name is gone from the list |
| `SocketServer.ChatServer.Disconnect` | server/socket.js:58-69 | the socket leaves every room; with a registry entry, the first occurrence of the recorded name leaves the recorded room's list, the remaining list goes to that room's remaining subscribers and the entry is deleted, so the update reaches the room's earlier subscribers minus the closing socket and a recorded real name is gone from the list; without one nothing else changes and nothing is sent |
| `Scenarios.OpenRoom` | server/socket.js:14-41 | on a fresh server, create then join acknowledges the creation with `'ok'`, gives the list `[alice]` and sends the roster to the creator alone |
| `Scenarios.SecondJoin` | server/socket.js:21-41 | a second distinct name joins at the tail, and both sockets receive `[alice, bob]` |
| `Scenarios.SecondDrops` | server/socket.js:58-69 | when Bob's connection drops, only Alice receives `[alice]` |
| `Scenarios.TwoPersonChat` | server/socket.js:14-69 | the full two-person exchange: the creation is acknowledged to its creator, and each roster and message reaches exactly the sockets in the room at that moment |
| `Scenarios.CreateTwice` | server/socket.js:14-19 | creating a room twice leaves two placeholders in its list |
| `Scenarios.VacatedRoom` | server/socket.js:22-26 | after its only member leaves, a room answers the next join with "Room not found" |
| `Scenarios.LeaveKeepsEntry` | server/socket.js:47-56 | leaving removes the name and the subscription but keeps the leaver's registry entry |
| `Scenarios.RejoinOnNewSocket` | server/socket.js:27-34 | the same name joining on a new socket is appended again, while the old socket's entry remains |
| `Scenarios.StaleDisconnect` | server/socket.js:58-69 | the old socket's disconnect removes the new socket's name and tells both remaining subscribers |
| `Scenarios.StaleEntryRemovesLaterJoiner` | server/socket.js:47-69 | leave, rejoin on another socket, then disconnect of the first socket: the name is gone from the list, but the second socket is still subscribed and registered under it |

## Left out

- Interleaving of handlers: each handler is one atomic step. The source
  awaits every Redis call, and concurrent joins can interleave between the
  `LRANGE` check and the `RPUSH`. That race is not modelled.
- TTL expiry: only the TTL value that is set is recorded. Keys do not expire
  over time.
- Redis failures and rejected promises: the source has no error handling
  around them.
- Payloads that are not strings (a missing `roomId` becomes `room:undefined`
  in the source): every payload field is a string here.
- The crash of `joinRoom` when a request for a missing room comes without a
  callback (server/socket.js:24): that path is modelled as the
  "Room not found" reply, sent in every case.
- Transport: delivery order, the connection handshake and socket.io
  internals are left out. Only two behaviours are kept. A broadcast reaches
  exactly the sockets subscribed at that moment. A closing socket leaves all
  its rooms before the `disconnect` handler runs.
- socket.io's per-socket rooms: every connected socket is also subscribed to
  a room named by its own id, until it closes. The model's `subs` holds only
  rooms joined through `joinRoom`, so a `sendMessage` (or a roster
  broadcast) whose `roomId` equals a live socket id reaches that socket in
  the source but reaches nobody in the model.
- String encoding: names and room ids are taken as well-formed Unicode and
  compared exactly. In the source, Redis stores them as UTF-8 and a lone
  surrogate becomes U+FFFD. Two strings that differ only in lone surrogates
  then share a Redis key (`RoomKeyInjective` does not hold for them), and a
  name holding one fails the `includes` check at server/socket.js:27 on a
  repeated join and is pushed again (`NamesUnique` does not hold for it).
- Which connections are open: a handler may be called for any socket id,
  including one that has disconnected.
- Initial Redis contents: the constructor starts from an empty Redis. The
  handlers accept any state that satisfies `Valid()`.
- The React client (client/src/App.jsx), its styling
  (client/tailwind.config.js), the HTTP and CORS bootstrap (server/app.js)
  and the connection constructors (client/src/lib/socket.js,
  server/redis.js): none of these hold room-membership logic.
