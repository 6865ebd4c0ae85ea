/** The outcome of event sequences on a fresh server: the two-person chat the
    application is built for, and the three quirks of the handlers (creation
    is not idempotent, a vacated room is "not found", and a stale registry
    entry lets a disconnect remove a later joiner of the same name). Sockets,
    names and rooms are parameters, so each scenario holds for every choice of
    distinct sockets and distinct real names. Longer sequences are cut into
    steps, each stating the whole server state it starts from and ends in. */
module Scenarios {
  import opened Presence
  import opened SocketServer

  /** A fresh server; socket a creates `room` and joins it as `alice`. */
  method OpenRoom(room: string, a: SocketId, alice: string)
    returns (server: ChatServer, created: seq<Delivery>, aliceJoin: seq<Delivery>)
    requires alice != Placeholder
    ensures fresh(server) && server.Valid()
    ensures created == [ToCaller(CreatedReply)]
    ensures server.List(RoomKey(room)) == [alice]
    ensures server.registry == map[a := UserData(alice, room)]
    ensures server.subs == {(a, room)}
    ensures aliceJoin == [ToSockets({a}, RoomJoined(JoinedMessage)),
                          ToSockets({a}, UpdateUsersList([alice]))]
  {
    server := new ChatServer();
    created := server.CreateRoom(a, room, true);
    aliceJoin := server.JoinRoom(a, alice, room);
    assert Subscribers(server.subs, room) == {a};
  }

  /** Socket b joins as `bob` a room where `alice` on socket a is alone. */
  method SecondJoin(server: ChatServer, room: string, a: SocketId, b: SocketId, alice: string, bob: string)
    returns (bobJoin: seq<Delivery>)
    requires server.Valid() && a != b && alice != bob && alice != Placeholder
    requires server.List(RoomKey(room)) == [alice]
    requires server.registry == map[a := UserData(alice, room)]
    requires server.subs == {(a, room)}
    modifies server
    ensures server.Valid()
    ensures server.List(RoomKey(room)) == [alice, bob]
    ensures server.registry == map[a := UserData(alice, room), b := UserData(bob, room)]
    ensures server.subs == {(a, room), (b, room)}
    ensures bobJoin == [ToSockets({b}, RoomJoined(JoinedMessage)),
                        ToSockets({a, b}, UpdateUsersList([alice, bob]))]
  {
    assert RemoveFirst([alice], Placeholder) == [alice];
    assert JoinedRoster([alice], bob) == [alice, bob];
    bobJoin := server.JoinRoom(b, bob, room);
    assert Subscribers(server.subs, room) == {a, b};
  }

  /** Bob's connection drops while Alice and Bob are in the room. */
  method SecondDrops(server: ChatServer, room: string, a: SocketId, b: SocketId, alice: string, bob: string)
    returns (bobGone: seq<Delivery>)
    requires server.Valid() && a != b && alice != bob
    requires server.List(RoomKey(room)) == [alice, bob]
    requires server.registry == map[a := UserData(alice, room), b := UserData(bob, room)]
    requires server.subs == {(a, room), (b, room)}
    modifies server
    ensures server.List(RoomKey(room)) == [alice] && b !in server.registry
    ensures bobGone == [ToSockets({a}, UpdateUsersList([alice]))]
  {
    assert RemoveFirst([alice, bob], bob) == [alice];
    bobGone := server.Disconnect(b);
    assert server.subs == {(a, room)};
    assert Subscribers(server.subs, room) == {a};
  }

  /** Alice (on socket a) creates and joins a room, Bob (on socket b) joins,
      Alice sends a message, and Bob's connection drops: the creation is
      acknowledged to Alice, and every roster and message reaches exactly the
      sockets in the room at that moment. */
  method TwoPersonChat(room: string, a: SocketId, b: SocketId, alice: string, bob: string, text: string)
    returns (created: seq<Delivery>, aliceJoin: seq<Delivery>, bobJoin: seq<Delivery>,
             sent: seq<Delivery>, bobGone: seq<Delivery>)
    requires a != b && alice != bob && alice != Placeholder && bob != Placeholder
    ensures created == [ToCaller(CreatedReply)]
    ensures aliceJoin == [ToSockets({a}, RoomJoined(JoinedMessage)),
                          ToSockets({a}, UpdateUsersList([alice]))]
    ensures bobJoin == [ToSockets({b}, RoomJoined(JoinedMessage)),
                        ToSockets({a, b}, UpdateUsersList([alice, bob]))]
    ensures sent == [ToSockets({a, b}, MessageReceived(alice, text))]
    ensures bobGone == [ToSockets({a}, UpdateUsersList([alice]))]
  {
    var server;
    server, created, aliceJoin := OpenRoom(room, a, alice);
    bobJoin := SecondJoin(server, room, a, b, alice, bob);
    sent := server.SendMessage(a, alice, text, room);
    assert Subscribers(server.subs, room) == {a, b};
    bobGone := SecondDrops(server, room, a, b, alice, bob);
  }

  /** Creating the same room twice leaves two placeholders in its list. */
  method CreateTwice(room: string, a: SocketId) returns (roster: seq<string>)
    ensures roster == [Placeholder, Placeholder]
  {
    var server := new ChatServer();
    var first := server.CreateRoom(a, room, true);
    var second := server.CreateRoom(a, room, true);
    roster := server.LRange(RoomKey(room));
  }

  /** Once its only member has left, a room answers the next join with "Room
      not found", exactly as a room that never existed. */
  method VacatedRoom(room: string, a: SocketId, b: SocketId, alice: string, bob: string)
    returns (reply: seq<Delivery>)
    requires alice != Placeholder
    ensures reply == [ToCaller(NotFoundReply)]
  {
    var server, created, joined := OpenRoom(room, a, alice);
    var left := server.LeaveRoom(a, alice, room, true);
    reply := server.JoinRoom(b, bob, room);
  }

  /** Alice on s1 leaves a room Bob (on s0) keeps alive: her registry entry
      stays behind. */
  method LeaveKeepsEntry(server: ChatServer, room: string, s0: SocketId, s1: SocketId, alice: string, bob: string)
    requires server.Valid() && s0 != s1 && alice != bob
    requires server.List(RoomKey(room)) == [bob, alice]
    requires server.registry == map[s0 := UserData(bob, room), s1 := UserData(alice, room)]
    requires server.subs == {(s0, room), (s1, room)}
    modifies server
    ensures server.Valid()
    ensures server.List(RoomKey(room)) == [bob]
    ensures server.registry == map[s0 := UserData(bob, room), s1 := UserData(alice, room)]
    ensures server.subs == {(s0, room)}
  {
    assert RemoveFirst([bob, alice], alice) == [bob];
    var left := server.LeaveRoom(s1, alice, room, true);
    assert server.subs == {(s0, room)};
  }

  /** Alice joins again on a new socket s2 while s1's stale entry remains. */
  method RejoinOnNewSocket(server: ChatServer, room: string, s0: SocketId, s1: SocketId, s2: SocketId,
                           alice: string, bob: string)
    requires server.Valid() && s0 != s1 && s1 != s2 && s0 != s2
    requires alice != bob && bob != Placeholder
    requires server.List(RoomKey(room)) == [bob]
    requires server.registry == map[s0 := UserData(bob, room), s1 := UserData(alice, room)]
    requires server.subs == {(s0, room)}
    modifies server
    ensures server.Valid()
    ensures server.List(RoomKey(room)) == [bob, alice]
    ensures server.registry ==
      map[s0 := UserData(bob, room), s1 := UserData(alice, room), s2 := UserData(alice, room)]
    ensures server.subs == {(s0, room), (s2, room)}
  {
    assert RemoveFirst([bob], Placeholder) == [bob];
    assert JoinedRoster([bob], alice) == [bob, alice];
    var joined := server.JoinRoom(s2, alice, room);
  }

  /** s1 finally disconnects: its stale entry removes s2's Alice. */
  method StaleDisconnect(server: ChatServer, room: string, s0: SocketId, s1: SocketId, s2: SocketId,
                         alice: string, bob: string)
    returns (gone: seq<Delivery>)
    requires server.Valid() && s0 != s1 && s1 != s2 && s0 != s2 && alice != bob
    requires server.List(RoomKey(room)) == [bob, alice]
    requires s1 in server.registry && server.registry[s1] == UserData(alice, room)
    requires s2 in server.registry && server.registry[s2] == UserData(alice, room)
    requires server.subs == {(s0, room), (s2, room)}
    modifies server
    ensures server.List(RoomKey(room)) == [bob]
    ensures s2 in server.registry && server.registry[s2] == UserData(alice, room)
    ensures (s2, room) in server.subs
    ensures gone == [ToSockets({s0, s2}, UpdateUsersList([bob]))]
  {
    assert RemoveFirst([bob, alice], alice) == [bob];
    assert DropSocket(server.subs, s1) == server.subs;
    assert Subscribers(server.subs, room) == {s0, s2};
    gone := server.Disconnect(s1);
  }

  /** `leaveRoom` keeps the leaver's registry entry. Bob (on s0) keeps the room
      alive; Alice joins on s1, leaves, and joins again on s2. The later
      disconnect of s1 removes s2's Alice from the list and tells s0 and s2
      so, although s2 is still subscribed and registered as Alice in the room. */
  method StaleEntryRemovesLaterJoiner(room: string, s0: SocketId, s1: SocketId, s2: SocketId,
                                      alice: string, bob: string)
    returns (gone: seq<Delivery>, roster: seq<string>, s2Entry: UserData, s2Subscribed: bool)
    requires s0 != s1 && s1 != s2 && s0 != s2
    requires alice != bob && alice != Placeholder && bob != Placeholder
    ensures gone == [ToSockets({s0, s2}, UpdateUsersList([bob]))]
    ensures roster == [bob] && alice !in roster
    ensures s2Entry == UserData(alice, room) && s2Subscribed
  {
    var server, created, joinedBob := OpenRoom(room, s0, bob);
    var joinedAlice := SecondJoin(server, room, s0, s1, bob, alice);
    LeaveKeepsEntry(server, room, s0, s1, alice, bob);
    RejoinOnNewSocket(server, room, s0, s1, s2, alice, bob);
    gone := StaleDisconnect(server, room, s0, s1, s2, alice, bob);
    roster := server.LRange(RoomKey(room));
    s2Entry := server.registry[s2];
    s2Subscribed := (s2, room) in server.subs;
  }
}
