/**
 * Whole runs of the relay, from join to last disconnect, for any two distinct
 * users and any session, each checked against what the clients end up
 * receiving. The last two show what the handlers do when a user reconnects
 * before the old socket's disconnect has run.
 */
module Scenarios {
  import opened Common
  import opened Rooms
  import opened Relay
  import Gate

  /** A token stands for the user id it carries. */
  function DecodeToken(token: string): Gate.VerifyOutcome {
    Gate.Decoded(token)
  }

  /** Session "s1" has mentor "u1" and learner "u2"; no other session exists. */
  function SessionRows(session: SessionId, user: UserId): Gate.LookupOutcome {
    if session == "s1" && (user == "u1" || user == "u2") then Gate.Rows(1) else Gate.Rows(0)
  }

  /**
   * Mentor and learner join and exchange an offer and an answer: the mentor
   * is told of the learner's arrival, and each signaling message reaches only
   * the other side, unchanged.
   */
  method TwoPartyNegotiation(mentorId: UserId, learnerId: UserId, session: SessionId, sdpOffer: string, sdpAnswer: string)
    returns (joined: seq<Emission>, offered: seq<Emission>, answered: seq<Emission>)
    requires mentorId != learnerId
    ensures joined == [Emission(mentorId, 1, UserJoined, UserRef(learnerId))]
    ensures offered == [Emission(learnerId, 2, Offer, ClientData(sdpOffer))]
    ensures answered == [Emission(mentorId, 1, Answer, ClientData(sdpAnswer))]
  {
    var registry := new Registry();
    var mentor, learner, ignored;
    mentor, ignored := registry.Connect(1, Gate.Admission(mentorId, session));
    learner, joined := registry.Connect(2, Gate.Admission(learnerId, session));
    var room := mentor.room;
    assert learner.room == room && room.order == [mentorId, learnerId];
    assert joined == [Emission(mentorId, 1, UserJoined, UserRef(learnerId))] by {
      BroadcastPair(mentorId, learnerId, room.members, Some(learnerId), UserJoined, UserRef(learnerId));
    }
    offered := Forward(mentor, Offer, sdpOffer);
    assert offered == [Emission(learnerId, 2, Offer, ClientData(sdpOffer))] by {
      BroadcastPair(mentorId, learnerId, room.members, Some(mentorId), Offer, ClientData(sdpOffer));
    }
    answered := Forward(learner, Answer, sdpAnswer);
    assert answered == [Emission(mentorId, 1, Answer, ClientData(sdpAnswer))] by {
      BroadcastPair(mentorId, learnerId, room.members, Some(learnerId), Answer, ClientData(sdpAnswer));
    }
  }

  /** When the mentor leaves, the learner is told, and the room stays with the learner alone. */
  method MentorLeaves(mentorId: UserId, learnerId: UserId, session: SessionId)
    returns (left: seq<Emission>, remaining: map<UserId, SocketId>, registered: bool)
    requires mentorId != learnerId
    ensures left == [Emission(learnerId, 2, UserLeft, UserRef(mentorId))]
    ensures remaining == map[learnerId := 2]
    ensures registered
  {
    var registry := new Registry();
    var mentor, learner, ignored;
    mentor, ignored := registry.Connect(1, Gate.Admission(mentorId, session));
    learner, ignored := registry.Connect(2, Gate.Admission(learnerId, session));
    var room := mentor.room;
    assert learner.room == room && room.order == [mentorId, learnerId];
    left := registry.Disconnect(mentor);
    assert room.order == [learnerId];
    assert left == [Emission(learnerId, 2, UserLeft, UserRef(mentorId))] by {
      BroadcastSnoc([], learnerId, room.members, None, UserLeft, UserRef(mentorId));
    }
    remaining := room.members;
    registered := session in registry.rooms;
  }

  /** The last member to leave is told nothing, and the session's room is gone from the registry. */
  method LastLeaveDropsRoom(userId: UserId, session: SessionId) returns (left: seq<Emission>, registered: bool)
    ensures left == []
    ensures !registered
  {
    var registry := new Registry();
    var only, ignored := registry.Connect(1, Gate.Admission(userId, session));
    left := registry.Disconnect(only);
    registered := session in registry.rooms;
  }

  /** A user who is not a participant of the session is turned away, and the registry stays empty. */
  method OutsiderRejected() returns (r: Result<Connection, Gate.AuthError>, out: seq<Emission>, roomCount: nat)
    ensures r == Failure(Gate.NotAuthorized) && out == [] && roomCount == 0
  {
    var registry := new Registry();
    r, out := registry.Accept(Gate.Handshake(Some("u3"), Some("s1")), 3, DecodeToken, SessionRows);
    roomCount := |registry.rooms|;
  }

  /**
   * A user reconnects on socket 2 while socket 1 is still open. When socket 1
   * then disconnects, it deletes the user's entry, which by now is socket 2:
   * the room empties and is dropped while socket 2 is still connected.
   */
  method SupersededSocketEvictsItsReplacement(userId: UserId, session: SessionId)
    returns (replacementRoom: map<UserId, SocketId>, registered: bool)
    ensures replacementRoom == map[]
    ensures !registered
  {
    var registry := new Registry();
    var stale, replacement, ignored;
    stale, ignored := registry.Connect(1, Gate.Admission(userId, session));
    replacement, ignored := registry.Connect(2, Gate.Admission(userId, session));
    ignored := registry.Disconnect(stale);
    replacementRoom := replacement.room.members;
    registered := session in registry.rooms;
  }

  /**
   * Continuing from there: another user joins and gets a new room, but the
   * replacement socket still holds the old, empty one. Its disconnect finds
   * that room empty and deletes whatever is registered under the session,
   * so the newcomer's room leaves the registry while the newcomer is in it.
   */
  method StaleRoomDropsNewerRoom(userId: UserId, otherId: UserId, session: SessionId)
    returns (otherRoom: map<UserId, SocketId>, registered: bool)
    ensures otherRoom == map[otherId := 3]
    ensures !registered
  {
    var registry := new Registry();
    var stale, replacement, other, ignored;
    stale, ignored := registry.Connect(1, Gate.Admission(userId, session));
    replacement, ignored := registry.Connect(2, Gate.Admission(userId, session));
    ignored := registry.Disconnect(stale);
    other, ignored := registry.Connect(3, Gate.Admission(otherId, session));
    ignored := registry.Disconnect(replacement);
    otherRoom := other.room.members;
    registered := session in registry.rooms;
  }
}
