/**
 * One call session's room: the JavaScript `Map` from user id to socket that
 * the signaling server keeps per session, with the notifications it sends
 * by iterating over that map.
 */
module Rooms {
  import opened Common

  /** The event names the server emits. */
  datatype Event = UserJoined | UserLeft | Offer | Answer | IceCandidate

  function EventName(e: Event): string {
    match e
    case UserJoined => "user-joined"
    case UserLeft => "user-left"
    case Offer => "offer"
    case Answer => "answer"
    case IceCandidate => "ice-candidate"
  }

  /** The three WebRTC negotiation events that clients send and the server relays. */
  predicate IsSignal(e: Event) {
    e == Offer || e == Answer || e == IceCandidate
  }

  /** The event a client-sent name is handled as; names without a handler are ignored. */
  function SignalNamed(name: string): (r: Option<Event>)
    ensures r.Some? ==> IsSignal(r.value) && EventName(r.value) == name
    ensures r.None? ==> forall e :: IsSignal(e) ==> EventName(e) != name
  {
    if name == "offer" then Some(Offer)
    else if name == "answer" then Some(Answer)
    else if name == "ice-candidate" then Some(IceCandidate)
    else None
  }

  /** What an emission carries: `{ userId }` for notifications, or a client's data object passed through. */
  datatype Payload = UserRef(userId: UserId) | ClientData(data: string)

  /** One `client.emit(event, payload)`, addressed to the socket stored under `peer`. */
  datatype Emission = Emission(peer: UserId, socket: SocketId, event: Event, payload: Payload)

  ghost predicate NoDups<T>(s: seq<T>) {
    forall i, j :: 0 <= i < j < |s| ==> s[i] != s[j]
  }

  /** `s` with `u` taken out, the others kept in their order. */
  function Without(s: seq<UserId>, u: UserId): (r: seq<UserId>)
    ensures forall x :: x in r <==> x in s && x != u
    ensures u !in s ==> r == s
    ensures NoDups(s) ==> NoDups(r)
    ensures NoDups(s) && u in s ==> |r| == |s| - 1
  {
    if s == [] then []
    else if s[0] == u then Without(s[1..], u)
    else
      var rest := Without(s[1..], u);
      assert NoDups(s) ==> NoDups([s[0]] + rest) by {
        if NoDups(s) {
          assert s[0] !in s[1..] by {
            forall k | 0 <= k < |s| - 1 ensures s[1..][k] != s[0] { assert s[k + 1] != s[0]; }
          }
          assert NoDups(s[1..]) by {
            forall i, j | 0 <= i < j < |s| - 1 ensures s[1..][i] != s[1..][j] { assert s[i + 1] != s[j + 1]; }
          }
        }
      }
      [s[0]] + rest
  }

  /**
   * The emissions of `room.forEach` over a map whose keys, in insertion order,
   * are `order`: one per key other than `exclude`, in that order.
   */
  function Broadcast(order: seq<UserId>, members: map<UserId, SocketId>, exclude: Option<UserId>,
                     event: Event, payload: Payload): seq<Emission>
    requires forall id :: id in order ==> id in members
  {
    if order == [] then []
    else
      var id := order[|order| - 1];
      Broadcast(order[..|order| - 1], members, exclude, event, payload)
        + (if exclude == Some(id) then [] else [Emission(id, members[id], event, payload)])
  }

  /** Adding a key last adds its emission, if any, last. */
  lemma BroadcastSnoc(order: seq<UserId>, id: UserId, members: map<UserId, SocketId>, exclude: Option<UserId>,
                      event: Event, payload: Payload)
    requires (forall x :: x in order ==> x in members) && id in members
    ensures Broadcast(order + [id], members, exclude, event, payload)
      == Broadcast(order, members, exclude, event, payload)
         + (if exclude == Some(id) then [] else [Emission(id, members[id], event, payload)])
  {
  }

  /** A two-member room sends to each member that is not excluded, first key first. */
  lemma BroadcastPair(a: UserId, b: UserId, members: map<UserId, SocketId>, exclude: Option<UserId>,
                      event: Event, payload: Payload)
    requires a in members && b in members
    ensures Broadcast([a, b], members, exclude, event, payload)
      == (if exclude == Some(a) then [] else [Emission(a, members[a], event, payload)])
         + (if exclude == Some(b) then [] else [Emission(b, members[b], event, payload)])
  {
    var ta := if exclude == Some(a) then [] else [Emission(a, members[a], event, payload)];
    var tb := if exclude == Some(b) then [] else [Emission(b, members[b], event, payload)];
    assert [a, b][..1] == [a];
    assert Broadcast([a, b], members, exclude, event, payload) == Broadcast([a], members, exclude, event, payload) + tb;
    assert [a][..0] == [];
    assert Broadcast([a], members, exclude, event, payload) == Broadcast([], members, exclude, event, payload) + ta;
    assert Broadcast([], members, exclude, event, payload) == [];
    assert [] + ta == ta;
  }

  /** Deleting from a single key: the key goes if it is the one deleted, and stays otherwise. */
  lemma WithoutSingle(x: UserId, u: UserId)
    ensures Without([x], u) == if x == u then [] else [x]
  {
    assert [x][1..] == [];
  }

  /**
   * Deleting distributes over concatenation: each part loses `u` and the parts
   * keep their relative order, so the surviving keys stay in insertion order.
   */
  lemma {:induction false} WithoutAppend(a: seq<UserId>, b: seq<UserId>, u: UserId)
    ensures Without(a + b, u) == Without(a, u) + Without(b, u)
  {
    if a == [] {
      assert a + b == b;
    } else {
      assert (a + b)[0] == a[0];
      assert (a + b)[1..] == a[1..] + b;
      WithoutAppend(a[1..], b, u);
    }
  }

  /** Appending a key that was absent and then taking it out gives back the original listing. */
  lemma {:induction false} WithoutUndoesAppend(s: seq<UserId>, u: UserId)
    requires u !in s
    ensures Without(s + [u], u) == s
  {
    if s == [] {
      assert [u][1..] == [];
    } else {
      assert (s + [u])[1..] == s[1..] + [u];
      WithoutUndoesAppend(s[1..], u);
      assert s == [s[0]] + s[1..];
    }
  }

  /** The number of emissions addressed to `u`. */
  function Received(out: seq<Emission>, u: UserId): nat {
    if out == [] then 0
    else Received(out[..|out| - 1], u) + (if out[|out| - 1].peer == u then 1 else 0)
  }

  lemma {:induction false} ReceivedAppend(a: seq<Emission>, b: seq<Emission>, u: UserId)
    ensures Received(a + b, u) == Received(a, u) + Received(b, u)
    decreases |b|
  {
    if b == [] {
      assert a + b == a;
    } else {
      var n := |b| - 1;
      assert (a + b)[..|a + b| - 1] == a + b[..n];
      ReceivedAppend(a, b[..n], u);
    }
  }

  /**
   * Every emission goes to a member other than the excluded one, to the socket
   * the map holds for it, with the given event and the payload unchanged.
   */
  lemma {:induction false} BroadcastTargets(order: seq<UserId>, members: map<UserId, SocketId>,
                                            exclude: Option<UserId>, event: Event, payload: Payload)
    requires forall id :: id in order ==> id in members
    ensures forall e :: e in Broadcast(order, members, exclude, event, payload) ==>
      e.peer in order && Some(e.peer) != exclude && e.socket == members[e.peer]
      && e.event == event && e.payload == payload
  {
    if order != [] {
      BroadcastTargets(order[..|order| - 1], members, exclude, event, payload);
    }
  }

  /** Each member other than the excluded one receives exactly one emission; anyone else receives none. */
  lemma {:induction false} BroadcastExactlyOnce(order: seq<UserId>, members: map<UserId, SocketId>,
                                                exclude: Option<UserId>, event: Event, payload: Payload,
                                                u: UserId)
    requires NoDups(order)
    requires forall id :: id in order ==> id in members
    ensures Received(Broadcast(order, members, exclude, event, payload), u)
      == if u in order && exclude != Some(u) then 1 else 0
  {
    if order != [] {
      var n := |order| - 1;
      var front, id := order[..n], order[n];
      assert order == front + [id];
      BroadcastExactlyOnce(front, members, exclude, event, payload, u);
      var tail := if exclude == Some(id) then [] else [Emission(id, members[id], event, payload)];
      ReceivedAppend(Broadcast(front, members, exclude, event, payload), tail, u);
      assert tail != [] ==> tail[..0] == [];
      assert id !in front by {
        forall k | 0 <= k < n ensures front[k] != id { assert order[k] != order[n]; }
      }
    }
  }

  /** Nothing is emitted exactly when every member is the excluded one. */
  lemma {:induction false} BroadcastEmpty(order: seq<UserId>, members: map<UserId, SocketId>,
                                          exclude: Option<UserId>, event: Event, payload: Payload)
    requires forall id :: id in order ==> id in members
    ensures Broadcast(order, members, exclude, event, payload) == []
      <==> forall id :: id in order ==> exclude == Some(id)
  {
    if order != [] {
      var n := |order| - 1;
      assert order == order[..n] + [order[n]];
      BroadcastEmpty(order[..n], members, exclude, event, payload);
    }
  }

  /**
   * A room: the per-session `Map` of user id to socket. `order` is the map's
   * insertion order, which `forEach` follows. `session` is the key the room
   * was created for (ghost: the Map itself does not store it).
   */
  class Room {
    ghost const session: SessionId
    var members: map<UserId, SocketId>
    var order: seq<UserId>

    /** A map has one entry per key, listed once in insertion order. */
    ghost predicate Valid()
      reads this
    {
      NoDups(order) && (forall id :: id in order <==> id in members)
    }

    /** `new Map()` for the given session. */
    constructor (ghost session: SessionId)
      ensures Valid()
      ensures this.session == session && members == map[] && order == []
    {
      this.session := session;
      members := map[];
      order := [];
    }

    /** `room.set(user, socket)`: a new key goes last; an existing key keeps its place and takes the new socket. */
    method Set(user: UserId, socket: SocketId)
      requires Valid()
      modifies this
      ensures Valid()
      ensures members == old(members)[user := socket]
      ensures order == if user in old(members) then old(order) else old(order) + [user]
    {
      if user !in members {
        order := order + [user];
      }
      members := members[user := socket];
    }

    /** `room.delete(user)`: removes the key if present, otherwise changes nothing. */
    method Delete(user: UserId)
      requires Valid()
      modifies this
      ensures Valid()
      ensures members == old(members) - {user}
      ensures order == Without(old(order), user)
    {
      members := members - {user};
      order := Without(order, user);
    }

    /** `room.forEach` emitting `event` with `payload` to every member whose key is not `exclude`. */
    method Fanout(exclude: Option<UserId>, event: Event, payload: Payload) returns (out: seq<Emission>)
      requires Valid()
      ensures out == Broadcast(order, members, exclude, event, payload)
    {
      out := [];
      var i := 0;
      while i < |order|
        invariant 0 <= i <= |order|
        invariant out == Broadcast(order[..i], members, exclude, event, payload)
      {
        var id := order[i];
        if exclude != Some(id) {
          out := out + [Emission(id, members[id], event, payload)];
        }
        assert order[..i + 1][..i] == order[..i];
        i := i + 1;
      }
      assert order[..i] == order;
    }
  }
}
