/** The socket.io server of the chat application: the five per-connection
    handlers (`createRoom`, `joinRoom`, `sendMessage`, `leaveRoom`,
    `disconnect`), each taken as one atomic step over the Redis rosters, the
    module-level `userSocketMap` and socket.io's room subscriptions. */
module SocketServer {
  import opened Presence

  /** socket.io's per-connection id. */
  type SocketId = string

  /** A `userSocketMap` value: the name and room a socket last joined with. */
  datatype UserData = UserData(name: string, roomId: string)

  /** The `status` field of an acknowledgement: `createRoom` sends the string
      `'ok'`, a failed `joinRoom` the number `0`. */
  datatype Status = Text(text: string) | Number(n: int)

  /** What a handler passes to the request's acknowledgement callback. */
  datatype Reply = Reply(status: Status, message: string) | EmptyReply

  /** Events the server emits to clients. */
  datatype Event =
    | RoomJoined(message: string)
    | UpdateUsersList(users: seq<string>)
    | MessageReceived(fromName: string, message: string)

  /** One thing a handler sends: an acknowledgement to the requester, or an
      event delivered to exactly the listed sockets. */
  datatype Delivery =
    | ToCaller(reply: Reply)
    | ToSockets(recipients: set<SocketId>, event: Event)

  const CreatedReply: Reply := Reply(Text("ok"), "Room created successfully")
  const NotFoundReply: Reply := Reply(Number(0), "Room not found")
  const JoinedMessage: string := "Room joined successfully"

  /** The sockets `io.to(roomId)` reaches: those subscribed to the room. */
  function Subscribers(subs: set<(SocketId, string)>, roomId: string): (ids: set<SocketId>)
    ensures forall id :: id in ids <==> (id, roomId) in subs
  {
    set p | p in subs && p.1 == roomId :: p.0
  }

  /** The subscriptions left once a socket has left every room: every room's
      audience is its earlier subscribers without that socket. */
  function DropSocket(subs: set<(SocketId, string)>, sock: SocketId): (rest: set<(SocketId, string)>)
    ensures forall roomId :: Subscribers(rest, roomId) == Subscribers(subs, roomId) - {sock}
  {
    set p | p in subs && p.0 != sock
  }

  class ChatServer {
    /** Redis: the list stored under each key. */
    var store: map<string, seq<string>>
    /** Redis: the TTL, in seconds, last set on each key. */
    var ttl: map<string, int>
    /** `userSocketMap`: socket id to the name and room it joined with. */
    var registry: map<SocketId, UserData>
    /** socket.io rooms: the (socket, room) pairs currently subscribed. */
    var subs: set<(SocketId, string)>

    /** What Redis guarantees of its keyspace: no key holds an empty list (the
        last `LREM` deletes the key), and only existing keys carry a TTL. */
    ghost predicate StoreShape()
      reads this
    {
      (forall k :: k in store ==> store[k] != []) && ttl.Keys <= store.Keys
    }

    /** The server's invariant: Redis's shape, and no room list holds a real
        name twice. */
    ghost predicate Valid()
      reads this
    {
      StoreShape() && RostersUnique(store)
    }

    /** The list under `key` as Redis reports it; a missing key reads as empty. */
    function List(key: string): seq<string>
      reads this
    {
      if key in store then store[key] else []
    }

    /** A server with an empty Redis, no registered sockets and no subscriptions. */
    constructor ()
      ensures Valid()
      ensures store == map[] && ttl == map[] && registry == map[] && subs == {}
    {
      store, ttl, registry, subs := map[], map[], map[], {};
    }

    /** `LRANGE key 0 -1`. */
    method LRange(key: string) returns (l: seq<string>)
      ensures l == List(key)
    {
      l := List(key);
    }

    /** `RPUSH key v`: append at the tail, creating the key if it is missing;
        an existing TTL is kept. */
    method RPush(key: string, v: string)
      requires StoreShape()
      modifies this`store
      ensures StoreShape()
      ensures store == old(store)[key := old(List(key)) + [v]]
    {
      store := store[key := List(key) + [v]];
    }

    /** `LREM key 1 v`: drop the first occurrence of `v`; a list left empty is
        deleted together with its TTL. */
    method LRem(key: string, v: string)
      requires StoreShape()
      modifies this`store, this`ttl
      ensures StoreShape()
      ensures var rest := RemoveFirst(old(List(key)), v);
        if rest == [] then store == old(store) - {key} && ttl == old(ttl) - {key}
        else store == old(store)[key := rest] && ttl == old(ttl)
    {
      var rest := RemoveFirst(List(key), v);
      if rest == [] {
        store, ttl := store - {key}, ttl - {key};
      } else {
        store := store[key := rest];
      }
    }

    /** `EXPIRE key seconds`: a missing key is ignored; an existing key gets
        the TTL when it is positive and is deleted at once when it is not. */
    method Expire(key: string, seconds: int)
      requires StoreShape()
      modifies this`store, this`ttl
      ensures StoreShape()
      ensures key !in old(store) ==> store == old(store) && ttl == old(ttl)
      ensures key in old(store) && seconds > 0 ==>
        store == old(store) && ttl == old(ttl)[key := seconds]
      ensures key in old(store) && seconds <= 0 ==>
        store == old(store) - {key} && ttl == old(ttl) - {key}
    {
      if key in store {
        if seconds > 0 {
          ttl := ttl[key := seconds];
        } else {
          store, ttl := store - {key}, ttl - {key};
        }
      }
    }

    /** Lines 28-30 of `joinRoom` for a name not yet in the room: drop one
        placeholder, append the name, and set the key's TTL to a day. The key
        deleted by an `LREM` that empties the list comes back with the `RPUSH`,
        so the TTL is set in every case. */
    method AddMember(key: string, name: string)
      requires StoreShape()
      modifies this`store, this`ttl
      ensures StoreShape()
      ensures store == old(store)[key := RemoveFirst(old(List(key)), Placeholder) + [name]]
      ensures ttl == old(ttl)[key := RoomTtlSeconds]
    {
      LRem(key, Placeholder);
      RPush(key, name);
      Expire(key, RoomTtlSeconds);
    }

    /** The `createRoom` handler: one more placeholder at the tail of the room's
        list, whether or not the room already exists, and an `'ok'`
        acknowledgement when the client supplied a callback. */
    method CreateRoom(sock: SocketId, roomId: string, hasCallback: bool) returns (out: seq<Delivery>)
      requires Valid()
      modifies this
      ensures Valid()
      ensures store == old(store)[RoomKey(roomId) := old(List(RoomKey(roomId))) + [Placeholder]]
      ensures ttl == old(ttl) && registry == old(registry) && subs == old(subs)
      ensures out == if hasCallback then [ToCaller(CreatedReply)] else []
    {
      var key := RoomKey(roomId);
      CreateKeepsNamesUnique(List(key));
      RPush(key, Placeholder);
      out := if hasCallback then [ToCaller(CreatedReply)] else [];
    }

    /** The `joinRoom` handler. An empty list (a room never created, or one
        whose members have all gone) is answered "Room not found" and nothing
        changes. Otherwise an absent name replaces one placeholder at the tail
        and refreshes the TTL; the socket is subscribed and registered under
        (name, roomId), overwriting any earlier entry; the joiner alone gets
        `roomJoined`; and the room's list is broadcast to every subscriber,
        the joiner included. */
    method JoinRoom(sock: SocketId, name: string, roomId: string) returns (out: seq<Delivery>)
      requires Valid()
      modifies this
      ensures Valid()
      ensures old(List(RoomKey(roomId))) == [] ==>
        && store == old(store) && ttl == old(ttl)
        && registry == old(registry) && subs == old(subs)
        && out == [ToCaller(NotFoundReply)]
      ensures var key := RoomKey(roomId); var before := old(List(key));
        before != [] ==>
          && store == old(store)[key := JoinedRoster(before, name)]
          && ttl == (if name in before then old(ttl) else old(ttl)[key := RoomTtlSeconds])
          && registry == old(registry)[sock := UserData(name, roomId)]
          && subs == old(subs) + {(sock, roomId)}
          && out == [ToSockets({sock}, RoomJoined(JoinedMessage)),
                     ToSockets(Subscribers(subs, roomId), UpdateUsersList(List(key)))]
      ensures old(List(RoomKey(roomId))) != [] && name != Placeholder ==>
        multiset(List(RoomKey(roomId)))[name] == 1
    {
      var key := RoomKey(roomId);
      var usersInRoom := LRange(key);
      if |usersInRoom| == 0 {
        out := [ToCaller(NotFoundReply)];
        return;
      }
      JoinKeepsNamesUnique(usersInRoom, name);
      if name !in usersInRoom {
        AddMember(key, name);
      }
      RostersUniqueAfterUpdate(old(store), key, JoinedRoster(usersInRoom, name));

      subs := subs + {(sock, roomId)};
      registry := registry[sock := UserData(name, roomId)];

      out := [ToSockets({sock}, RoomJoined(JoinedMessage))];

      usersInRoom := LRange(key);
      out := out + [ToSockets(Subscribers(subs, roomId), UpdateUsersList(usersInRoom))];
    }

    /** The `sendMessage` handler: the message goes to every socket subscribed to
        `roomId`, whether or not the sender is one of them; no state changes. */
    method SendMessage(sock: SocketId, fromName: string, message: string, roomId: string)
      returns (out: seq<Delivery>)
      ensures out == [ToSockets(Subscribers(subs, roomId), MessageReceived(fromName, message))]
    {
      out := [ToSockets(Subscribers(subs, roomId), MessageReceived(fromName, message))];
    }

    /** The `leaveRoom` handler: the first occurrence of `name` leaves the room's
        list, the remaining list is broadcast while the leaver is still
        subscribed, then the socket unsubscribes; the registry entry stays. */
    method LeaveRoom(sock: SocketId, name: string, roomId: string, hasCallback: bool)
      returns (out: seq<Delivery>)
      requires Valid()
      modifies this
      ensures Valid()
      ensures var key := RoomKey(roomId); var rest := RemoveFirst(old(List(key)), name);
        && store == (if rest == [] then old(store) - {key} else old(store)[key := rest])
        && ttl == (if rest == [] then old(ttl) - {key} else old(ttl))
        && registry == old(registry)
        && subs == old(subs) - {(sock, roomId)}
        && out == [ToSockets(Subscribers(old(subs), roomId), UpdateUsersList(rest))]
                  + (if hasCallback then [ToCaller(EmptyReply)] else [])
      ensures name != Placeholder ==> name !in List(RoomKey(roomId))
      ensures forall other :: other != roomId ==> List(RoomKey(other)) == old(List(RoomKey(other)))
    {
      var key := RoomKey(roomId);
      LeaveKeepsNamesUnique(List(key), name);
      LRem(key, name);
      forall other | other != roomId
        ensures List(RoomKey(other)) == old(List(RoomKey(other)))
      {
        RoomKeyInjective(other, roomId);
      }
      var usersInRoom := LRange(key);
      out := [ToSockets(Subscribers(subs, roomId), UpdateUsersList(usersInRoom))];
      subs := subs - {(sock, roomId)};

      if hasCallback {
        out := out + [ToCaller(EmptyReply)];
      }
    }

    /** A dropped connection. socket.io first takes the socket out of every room;
        then the `disconnect` handler, when `userSocketMap` has an entry for
        the socket, removes the first occurrence of the recorded name from the
        recorded room, broadcasts the remaining list to that room's remaining
        subscribers and deletes the entry. Without an entry nothing else
        happens. */
    method Disconnect(sock: SocketId) returns (out: seq<Delivery>)
      requires Valid()
      modifies this
      ensures Valid()
      ensures subs == DropSocket(old(subs), sock)
      ensures sock !in old(registry) ==>
        store == old(store) && ttl == old(ttl) && registry == old(registry) && out == []
      ensures sock in old(registry) ==>
        var user := old(registry)[sock];
        var key := RoomKey(user.roomId);
        var rest := RemoveFirst(old(List(key)), user.name);
        && store == (if rest == [] then old(store) - {key} else old(store)[key := rest])
        && ttl == (if rest == [] then old(ttl) - {key} else old(ttl))
        && registry == old(registry) - {sock}
        && out == [ToSockets(Subscribers(subs, user.roomId), UpdateUsersList(rest))]
      ensures sock in old(registry) ==>
        out[0].recipients == Subscribers(old(subs), old(registry)[sock].roomId) - {sock}
      ensures sock in old(registry) && old(registry)[sock].name != Placeholder ==>
        old(registry)[sock].name !in List(RoomKey(old(registry)[sock].roomId))
    {
      subs := DropSocket(subs, sock);
      if sock in registry {
        var userData := registry[sock];
        var key := RoomKey(userData.roomId);
        LeaveKeepsNamesUnique(List(key), userData.name);
        LRem(key, userData.name);
        var usersInRoom := LRange(key);
        out := [ToSockets(Subscribers(subs, userData.roomId), UpdateUsersList(usersInRoom))];
        registry := registry - {sock};
      } else {
        out := [];
      }
    }
  }
}
