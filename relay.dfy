/**
 * The signaling server's process-wide registry of rooms and the handlers it
 * installs on each admitted socket: join notification, relaying of offer,
 * answer and ICE candidate, and clean-up on disconnect. Each handler runs to
 * completion in one event-loop turn, so each is one atomic method here.
 */
module Relay {
  import opened Common
  import opened Rooms
  import Gate

  /**
   * What the connection handler's closures capture: the socket, its user and
   * session ids, and the room object looked up once at connection time. The
   * handlers never look the room up again, so `room` may later be a room that
   * is no longer in the registry.
   */
  datatype Connection = Connection(socket: SocketId, user: UserId, session: SessionId, room: Room)

  /** The `rooms` map: session id to that session's room. */
  class Registry {
    var rooms: map<SessionId, Room>

    /**
     * Every registered room is filed under the session it was made for, is a
     * well-formed map, and is not empty (a room is dropped as soon as it empties).
     */
    ghost predicate Valid()
      reads this, rooms.Values
    {
      forall s :: s in rooms ==> rooms[s].session == s && rooms[s].Valid() && rooms[s].members != map[]
    }

    /** The room registered under `session`, if any. */
    function RoomsAt(session: SessionId): set<Room>
      reads this
    {
      if session in rooms then {rooms[session]} else {}
    }

    /** The registry at process start: no rooms. */
    constructor ()
      ensures Valid() && rooms == map[]
    {
      rooms := map[];
    }

    /**
     * `if (!rooms.has(sessionId)) rooms.set(sessionId, new Map())` followed by
     * `rooms.get(sessionId)`: an existing room is reused, never replaced; a
     * new, empty one is made only when none is registered.
     */
    method RoomFor(session: SessionId) returns (room: Room)
      requires Valid()
      modifies this
      ensures rooms == old(rooms)[session := room]
      ensures room.session == session && room.Valid()
      ensures session in old(rooms) ==> room == old(rooms)[session]
      ensures session !in old(rooms) ==> fresh(room) && room.members == map[] && room.order == []
      ensures forall s :: s in rooms && s != session ==>
        rooms[s].session == s && rooms[s].Valid() && rooms[s].members != map[]
    {
      if session in rooms {
        room := rooms[session];
        assert rooms == rooms[session := room];
      } else {
        room := new Room(session);
        rooms := rooms[session := room];
      }
    }

    /**
     * The connection handler: take the session's room, store the socket under
     * the user id (replacing an earlier socket of the same user, so a user has
     * at most one entry), and send `user-joined` to every other member.
     */
    method Connect(socket: SocketId, admitted: Gate.Admission) returns (conn: Connection, out: seq<Emission>)
      requires Valid()
      modifies this, RoomsAt(admitted.sessionId)
      ensures Valid()
      ensures admitted.sessionId in rooms
      ensures rooms == old(rooms)[admitted.sessionId := rooms[admitted.sessionId]]
      ensures admitted.sessionId in old(rooms) ==> rooms[admitted.sessionId] == old(rooms)[admitted.sessionId]
      ensures admitted.sessionId !in old(rooms) ==> fresh(rooms[admitted.sessionId])
      ensures forall s :: s in old(rooms) && s != admitted.sessionId ==> rooms[s].members == old(rooms[s].members)
      ensures rooms[admitted.sessionId].members ==
        (if admitted.sessionId in old(rooms) then old(rooms[admitted.sessionId].members) else map[])[admitted.userId := socket]
      ensures rooms[admitted.sessionId].order ==
        if admitted.sessionId !in old(rooms) then [admitted.userId]
        else if admitted.userId in old(rooms[admitted.sessionId].members) then old(rooms[admitted.sessionId].order)
        else old(rooms[admitted.sessionId].order) + [admitted.userId]
      ensures conn == Connection(socket, admitted.userId, admitted.sessionId, rooms[admitted.sessionId])
      ensures out == Broadcast(conn.room.order, conn.room.members, Some(admitted.userId), UserJoined, UserRef(admitted.userId))
    {
      var session, user := admitted.sessionId, admitted.userId;
      var room := RoomFor(session);
      room.Set(user, socket);
      forall s | s in rooms
        ensures rooms[s].session == s && rooms[s].Valid() && rooms[s].members != map[]
      {
        if s != session {
          assert rooms[s] != room;
        }
      }
      out := room.Fanout(Some(user), UserJoined, UserRef(user));
      conn := Connection(socket, user, session, room);
    }

    /**
     * The disconnect handler: delete the entry under the connection's user id
     * (whichever socket it holds now) from the captured room, send `user-left`
     * to everyone still in that room, and if the room is empty delete whatever
     * is registered under the session id.
     */
    method Disconnect(conn: Connection) returns (out: seq<Emission>)
      requires Valid() && conn.room.Valid() && conn.room.session == conn.session
      modifies this, conn.room
      ensures Valid() && conn.room.Valid()
      ensures conn.room.members == old(conn.room.members) - {conn.user}
      ensures conn.room.order == Without(old(conn.room.order), conn.user)
      ensures out == Broadcast(conn.room.order, conn.room.members, None, UserLeft, UserRef(conn.user))
      ensures rooms == if conn.room.members == map[] then old(rooms) - {conn.session} else old(rooms)
      ensures forall s :: s in rooms && rooms[s] != conn.room ==> rooms[s].members == old(rooms[s].members)
    {
      conn.room.Delete(conn.user);
      out := conn.room.Fanout(None, UserLeft, UserRef(conn.user));
      if conn.room.members == map[] {
        rooms := rooms - {conn.session};
      }
      forall s | s in rooms
        ensures rooms[s].session == s && rooms[s].Valid() && rooms[s].members != map[]
      {
        if rooms[s] != conn.room {
          assert rooms[s].members == old(rooms[s].members) && rooms[s].order == old(rooms[s].order);
        }
      }
    }

    /**
     * A connection attempt: the middleware decides; only an admitted socket
     * reaches the connection handler. A rejected attempt leaves the registry
     * and every room as they were and sends nothing.
     */
    method Accept(h: Gate.Handshake, socket: SocketId, verify: string -> Gate.VerifyOutcome,
                  lookup: (SessionId, UserId) -> Gate.LookupOutcome)
      returns (r: Result<Connection, Gate.AuthError>, out: seq<Emission>)
      requires Valid()
      modifies this, if Gate.Authorize(h, verify, lookup).Success? then RoomsAt(Gate.Authorize(h, verify, lookup).value.sessionId) else {}
      ensures Valid()
      ensures Gate.Authorize(h, verify, lookup).Failure? ==>
        r == Failure(Gate.Authorize(h, verify, lookup).error) && out == []
        && rooms == old(rooms) && unchanged(this) && unchanged(rooms.Values)
      ensures Gate.Authorize(h, verify, lookup).Success? ==>
        var a := Gate.Authorize(h, verify, lookup).value;
        && a.sessionId in rooms
        && r == Success(Connection(socket, a.userId, a.sessionId, rooms[a.sessionId]))
        && rooms == old(rooms)[a.sessionId := rooms[a.sessionId]]
        && (a.sessionId in old(rooms) ==> rooms[a.sessionId] == old(rooms)[a.sessionId])
        && (a.sessionId !in old(rooms) ==> fresh(rooms[a.sessionId]))
        && (forall s :: s in old(rooms) && s != a.sessionId ==>
              rooms[s].members == old(rooms[s].members) && rooms[s].order == old(rooms[s].order))
        && rooms[a.sessionId].members ==
             (if a.sessionId in old(rooms) then old(rooms[a.sessionId].members) else map[])[a.userId := socket]
        && rooms[a.sessionId].order ==
             (if a.sessionId !in old(rooms) then [a.userId]
              else if a.userId in old(rooms[a.sessionId].members) then old(rooms[a.sessionId].order)
              else old(rooms[a.sessionId].order) + [a.userId])
        && out == Broadcast(rooms[a.sessionId].order, rooms[a.sessionId].members, Some(a.userId),
                            UserJoined, UserRef(a.userId))
    {
      var decision := Gate.Authorize(h, verify, lookup);
      if decision.Failure? {
        r, out := Failure(decision.error), [];
      } else {
        var a := decision.value;
        var conn;
        conn, out := Connect(socket, a);
        forall s | s in old(rooms) && s != a.sessionId
          ensures rooms[s].members == old(rooms[s].members) && rooms[s].order == old(rooms[s].order)
        {
          assert rooms[s] == old(rooms)[s] && old(rooms)[s].session == s;
        }
        r := Success(conn);
      }
    }
  }

  /**
   * The offer, answer and ice-candidate handlers: the data goes unchanged,
   * under the same event name, to every member of the captured room whose
   * key is not the sender's user id. Neither the room nor the registry changes.
   */
  method Forward(conn: Connection, event: Event, data: string) returns (out: seq<Emission>)
    requires IsSignal(event) && conn.room.Valid()
    ensures out == Broadcast(conn.room.order, conn.room.members, Some(conn.user), event, ClientData(data))
  {
    out := conn.room.Fanout(Some(conn.user), event, ClientData(data));
  }

  /** An event from the client: the three signaling names are relayed; any other name has no handler and is ignored. */
  method OnMessage(conn: Connection, name: string, data: string) returns (out: seq<Emission>)
    requires conn.room.Valid()
    ensures SignalNamed(name).None? ==> out == []
    ensures SignalNamed(name).Some? ==>
      out == Broadcast(conn.room.order, conn.room.members, Some(conn.user), SignalNamed(name).value, ClientData(data))
  {
    match SignalNamed(name)
    case None => out := [];
    case Some(event) => out := Forward(conn, event, data);
  }
}
