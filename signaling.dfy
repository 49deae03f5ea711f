/** The signaling relay: an in-memory registry of live connections and named
    rooms, and the four event handlers that append messages to the outboxes of
    the connections. The payloads it forwards are of an arbitrary type P and are
    never inspected.

    The socket library's own behaviour is part of this model as stated
    assumptions: a connecting socket is put in a room named by its own id
    (`Connect`), and a disconnecting socket leaves every room, with rooms that
    become empty removed (`Disconnect`). */
module Signaling {
  import opened Wrappers

  type ConnId = string
  type RoomName = string

  /** What the relay sends to a connection. */
  datatype ServerMsg<P> =
    | UserConnected(id: ConnId)
    | Signal(from: ConnId, signal: P)
    | UserDisconnected(id: ConnId)
    | AmbulanceBooked(booking: P, stamp: int)

  /** The body of a `signal` event: the target (possibly missing) and the payload. */
  datatype SignalRequest<P> = SignalRequest(to: Option<RoomName>, signal: P)

  /** `data && data.to`: the event has a body and a non-empty target. */
  predicate HasTarget<P>(data: Option<SignalRequest<P>>) {
    data.Some? && data.value.to.Some? && data.value.to.value != ""
  }

  /** The relay's state: live connections, room membership, and every
      connection's outbox (kept, without further messages, after it disconnects). */
  datatype RelayState<P> = RelayState(
    live: set<ConnId>,
    rooms: map<RoomName, set<ConnId>>,
    outbox: map<ConnId, seq<ServerMsg<P>>>)

  /** The registry invariant: every live connection has an outbox and sits in
      the room named by its id; rooms hold live connections only. */
  ghost predicate Invariant<P>(s: RelayState<P>) {
    && s.live <= s.outbox.Keys
    && (forall r :: r in s.rooms ==> s.rooms[r] <= s.live)
    && (forall c :: c in s.live ==> c in s.rooms && c in s.rooms[c])
  }

  /** The members of a room; a room that does not exist has none. */
  function Members<P>(s: RelayState<P>, room: RoomName): set<ConnId> {
    if room in s.rooms then s.rooms[room] else {}
  }

  /** Appends m to the outbox of every connection in `to`; others are untouched. */
  function Deliver<P>(outbox: map<ConnId, seq<ServerMsg<P>>>, to: set<ConnId>, m: ServerMsg<P>)
    : (r: map<ConnId, seq<ServerMsg<P>>>)
    ensures r.Keys == outbox.Keys
    ensures forall c :: c in outbox ==> r[c] == if c in to then outbox[c] + [m] else outbox[c]
  {
    map c | c in outbox :: if c in to then outbox[c] + [m] else outbox[c]
  }

  // ---------------------------------------------------------------------------
  // One step per handler, as functions of the state

  /** The library attaches a new connection: it becomes live, gets an empty
      outbox and joins the room named by its id. */
  function ConnectStep<P>(s: RelayState<P>, id: ConnId): RelayState<P> {
    RelayState(s.live + {id}, s.rooms[id := Members(s, id) + {id}], s.outbox[id := []])
  }

  /** `join-room`: the sender joins the room, then every other member is told. */
  function JoinRoomStep<P>(s: RelayState<P>, sender: ConnId, room: RoomName): RelayState<P> {
    var rooms := s.rooms[room := Members(s, room) + {sender}];
    RelayState(s.live, rooms, Deliver(s.outbox, rooms[room] - {sender}, UserConnected(sender)))
  }

  /** `signal`: with a body and a non-empty target, the payload goes, stamped
      with the sender, to every member of the room named by the target. */
  function SignalStep<P>(s: RelayState<P>, sender: ConnId, data: Option<SignalRequest<P>>): RelayState<P> {
    if HasTarget(data) then
      s.(outbox := Deliver(s.outbox, Members(s, data.value.to.value), Signal(sender, data.value.signal)))
    else s
  }

  /** The rooms once id has left each of them, empty rooms removed. */
  function LeaveAll(rooms: map<RoomName, set<ConnId>>, id: ConnId): (r: map<RoomName, set<ConnId>>)
    ensures forall room :: room in r <==> room in rooms && rooms[room] - {id} != {}
    ensures forall room :: room in r ==> r[room] == rooms[room] - {id}
  {
    map room | room in rooms && rooms[room] - {id} != {} :: rooms[room] - {id}
  }

  /** `disconnect`: the connection leaves every room and every other live
      connection, in whatever room, is told. */
  function DisconnectStep<P>(s: RelayState<P>, id: ConnId): RelayState<P> {
    var live := s.live - {id};
    RelayState(live, LeaveAll(s.rooms, id), Deliver(s.outbox, live, UserDisconnected(id)))
  }

  /** `ambulance-book`: every live connection, the sender included, gets the booking. */
  function AmbulanceBookStep<P>(s: RelayState<P>, payload: P, stamp: int): RelayState<P> {
    s.(outbox := Deliver(s.outbox, s.live, AmbulanceBooked(payload, stamp)))
  }

  /** The events the relay reacts to; `stamp` is the `Date.now()` of the booking. */
  datatype Event<P> =
    | Connect(id: ConnId)
    | JoinRoom(sender: ConnId, room: RoomName)
    | SignalEvent(sender: ConnId, data: Option<SignalRequest<P>>)
    | Disconnect(id: ConnId)
    | AmbulanceBook(sender: ConnId, payload: P, stamp: int)

  /** Whether the event can occur: a new connection has a never-seen id, and
      every handler belongs to a live connection. */
  predicate Enabled<P>(s: RelayState<P>, e: Event<P>) {
    match e
    case Connect(id) => id !in s.outbox
    case JoinRoom(sender, _) => sender in s.live
    case SignalEvent(sender, _) => sender in s.live
    case Disconnect(id) => id in s.live
    case AmbulanceBook(sender, _, _) => sender in s.live
  }

  /** One event; an event that cannot occur leaves the state as it is. */
  function Step<P>(s: RelayState<P>, e: Event<P>): RelayState<P> {
    if !Enabled(s, e) then s
    else match e
      case Connect(id) => ConnectStep(s, id)
      case JoinRoom(sender, room) => JoinRoomStep(s, sender, room)
      case SignalEvent(sender, data) => SignalStep(s, sender, data)
      case Disconnect(id) => DisconnectStep(s, id)
      case AmbulanceBook(_, payload, stamp) => AmbulanceBookStep(s, payload, stamp)
  }

  /** The events, one after the other, in the order the handlers run. */
  function Run<P>(s: RelayState<P>, events: seq<Event<P>>): RelayState<P>
    decreases |events|
  {
    if events == [] then s else Run(Step(s, events[0]), events[1..])
  }

  /** The one message an event sends (to all its recipients alike). A signal
      without data is dropped by the server and sends nothing, so the value given
      for it here is a placeholder that no outbox ever receives. */
  function MessageOf<P>(s: RelayState<P>, e: Event<P>): ServerMsg<P> {
    match e
    case Connect(id) => UserConnected(id)
    case JoinRoom(sender, _) => UserConnected(sender)
    case SignalEvent(sender, data) =>
      if data.Some? then Signal(sender, data.value.signal) else UserConnected(sender)
    case Disconnect(id) => UserDisconnected(id)
    case AmbulanceBook(_, payload, stamp) => AmbulanceBooked(payload, stamp)
  }

  // ---------------------------------------------------------------------------
  // Properties of the steps

  /** Replacing the outboxes by ones for at least the same connections keeps the invariant. */
  lemma OutboxKeepsInvariant<P>(s: RelayState<P>, outbox: map<ConnId, seq<ServerMsg<P>>>)
    requires Invariant(s) && s.outbox.Keys <= outbox.Keys
    ensures Invariant(s.(outbox := outbox))
  {
  }

  /** A connection with an outbox becoming live in its own room keeps the invariant. */
  lemma AdmitKeepsInvariant<P>(s: RelayState<P>, id: ConnId)
    requires Invariant(s) && id in s.outbox
    ensures Invariant(s.(live := s.live + {id}, rooms := s.rooms[id := Members(s, id) + {id}]))
  {
    var t := s.(live := s.live + {id}, rooms := s.rooms[id := Members(s, id) + {id}]);
    forall r | r in t.rooms ensures t.rooms[r] <= t.live {
      if r != id { assert t.rooms[r] == s.rooms[r]; }
    }
    forall c | c in t.live ensures c in t.rooms && c in t.rooms[c] {
      if c != id { assert c in s.rooms[c]; }
    }
  }

  /** Growing one room by live connections keeps the invariant. */
  lemma GrowRoomKeepsInvariant<P>(s: RelayState<P>, room: RoomName, members: set<ConnId>)
    requires Invariant(s) && members <= s.live
    requires Members(s, room) <= members
    ensures Invariant(s.(rooms := s.rooms[room := members]))
  {
    var t := s.(rooms := s.rooms[room := members]);
    forall c | c in t.live ensures c in t.rooms && c in t.rooms[c] {
      assert c in s.rooms[c];
    }
  }

  lemma ConnectKeepsInvariant<P>(s: RelayState<P>, id: ConnId)
    requires Invariant(s) && id !in s.outbox
    ensures Invariant(ConnectStep(s, id))
  {
    var s' := s.(outbox := s.outbox[id := []]);
    OutboxKeepsInvariant(s, s'.outbox);
    AdmitKeepsInvariant(s', id);
    assert ConnectStep(s, id) == s'.(live := s'.live + {id}, rooms := s'.rooms[id := Members(s', id) + {id}]);
  }

  lemma JoinRoomKeepsInvariant<P>(s: RelayState<P>, sender: ConnId, room: RoomName)
    requires Invariant(s) && sender in s.live
    ensures Invariant(JoinRoomStep(s, sender, room))
  {
    var s' := s.(rooms := s.rooms[room := Members(s, room) + {sender}]);
    GrowRoomKeepsInvariant(s, room, Members(s, room) + {sender});
    var t := JoinRoomStep(s, sender, room);
    OutboxKeepsInvariant(s', t.outbox);
    assert t == s'.(outbox := t.outbox);
  }

  lemma DisconnectKeepsInvariant<P>(s: RelayState<P>, id: ConnId)
    requires Invariant(s) && id in s.live
    ensures Invariant(DisconnectStep(s, id))
  {
    var t := DisconnectStep(s, id);
    forall c | c in t.live ensures c in t.rooms && c in t.rooms[c] {
      assert c in s.rooms[c] - {id};
    }
  }

  /** Every step keeps the registry invariant. */
  lemma StepValid<P>(s: RelayState<P>, e: Event<P>)
    requires Invariant(s)
    ensures Invariant(Step(s, e))
  {
    if Enabled(s, e) {
      match e
      case Connect(id) => ConnectKeepsInvariant(s, id);
      case JoinRoom(sender, room) => JoinRoomKeepsInvariant(s, sender, room);
      case SignalEvent(sender, data) => assert Step(s, e) == SignalStep(s, sender, data);
      case Disconnect(id) => DisconnectKeepsInvariant(s, id);
      case AmbulanceBook(_, payload, stamp) => assert Step(s, e) == AmbulanceBookStep(s, payload, stamp);
    }
  }

  /** `join-room`: the sender is now a member; every other member, and no one
      else, receives exactly one `user-connected` naming the sender. */
  lemma JoinRoomNotifiesOthers<P>(s: RelayState<P>, sender: ConnId, room: RoomName, c: ConnId)
    requires Invariant(s) && sender in s.live && c in s.outbox
    ensures var t := Step(s, JoinRoom(sender, room));
            && sender in Members(t, room)
            && Members(t, room) == Members(s, room) + {sender}
            && t.live == s.live
            && (c in Members(s, room) && c != sender ==> t.outbox[c] == s.outbox[c] + [UserConnected(sender)])
            && (c !in Members(s, room) || c == sender ==> t.outbox[c] == s.outbox[c])
  {
  }

  /** Joining the same room again announces the sender again: the emit is unconditional. */
  lemma RepeatedJoinRenotifies<P>(s: RelayState<P>, sender: ConnId, room: RoomName, c: ConnId)
    requires Invariant(s) && sender in s.live
    requires c in Members(s, room) && c != sender
    ensures var t := Run(s, [JoinRoom(sender, room), JoinRoom(sender, room)]);
            c in t.outbox && t.outbox[c] == s.outbox[c] + [UserConnected(sender), UserConnected(sender)]
  {
    var e: Event<P> := JoinRoom(sender, room);
    var t := Step(s, e);
    StepValid(s, e);
    assert c in s.outbox;
    assert c in Members(t, room);
    assert Run(s, [e, e]) == Step(t, e) by {
      assert [e, e][1..] == [e];
      assert Run(t, [e]) == Run(Step(t, e), []);
    }
  }

  /** `signal` with a target: the target connection receives the payload as
      sent, stamped with the sender; when no other connection joined a room
      named like the target, nobody else receives anything. */
  lemma SignalReachesTarget<P>(s: RelayState<P>, sender: ConnId, to: ConnId, payload: P, c: ConnId)
    requires Invariant(s) && sender in s.live && to in s.live && to != "" && c in s.outbox
    ensures var t := Step(s, SignalEvent(sender, Some(SignalRequest(Some(to), payload))));
            && t.outbox[to] == s.outbox[to] + [Signal(sender, payload)]
            && (Members(s, to) == {to} && c != to ==> t.outbox[c] == s.outbox[c])
            && t.live == s.live && t.rooms == s.rooms
  {
  }

  /** `signal` without a body or with an empty target changes nothing at all. */
  lemma SignalWithoutTargetIsNoop<P>(s: RelayState<P>, sender: ConnId, data: Option<SignalRequest<P>>)
    requires !HasTarget(data)
    ensures Step(s, SignalEvent(sender, data)) == s
  {
  }

  /** `disconnect`: every other live connection, whatever its rooms, receives one
      `user-disconnected`; the connection itself receives nothing and is in no room. */
  lemma DisconnectBroadcastsGlobally<P>(s: RelayState<P>, id: ConnId, c: ConnId)
    requires Invariant(s) && id in s.live && c in s.outbox
    ensures var t := Step(s, Disconnect(id));
            && t.live == s.live - {id}
            && (forall room :: room in t.rooms ==> id !in t.rooms[room])
            && (c in s.live && c != id ==> t.outbox[c] == s.outbox[c] + [UserDisconnected(id)])
            && (c !in s.live || c == id ==> t.outbox[c] == s.outbox[c])
  {
  }

  /** `ambulance-book`: every live connection, the sender included, receives the
      booking exactly as sent. */
  lemma AmbulanceReachesEveryone<P>(s: RelayState<P>, sender: ConnId, payload: P, stamp: int, c: ConnId)
    requires Invariant(s) && sender in s.live && c in s.outbox
    ensures var t := Step(s, AmbulanceBook(sender, payload, stamp));
            && t.outbox[sender] == s.outbox[sender] + [AmbulanceBooked(payload, stamp)]
            && (c in s.live ==> t.outbox[c] == s.outbox[c] + [AmbulanceBooked(payload, stamp)])
            && (c !in s.live ==> t.outbox[c] == s.outbox[c])
  {
  }

  /** A step appends at most the event's one message to each existing outbox and
      touches no other part of any outbox. */
  lemma StepAppendsOnly<P>(s: RelayState<P>, e: Event<P>, c: ConnId)
    requires c in s.outbox
    ensures var t := Step(s, e);
            c in t.outbox &&
            (t.outbox[c] == s.outbox[c] || t.outbox[c] == s.outbox[c] + [MessageOf(s, e)])
  {
  }

  /** Over any run of handlers, every outbox only grows at its end: what a
      connection had received stays, in the same order, before anything later. */
  lemma {:induction false} RunAppendsOnly<P>(s: RelayState<P>, events: seq<Event<P>>, c: ConnId)
    requires c in s.outbox
    ensures c in Run(s, events).outbox
    ensures s.outbox[c] <= Run(s, events).outbox[c]
    ensures Invariant(s) ==> Invariant(Run(s, events))
    decreases |events|
  {
    if events != [] {
      var t := Step(s, events[0]);
      StepAppendsOnly(s, events[0], c);
      if Invariant(s) { StepValid(s, events[0]); }
      RunAppendsOnly(t, events[1..], c);
    }
  }

  /** Running two batches of events one after the other is running their
      concatenation: the handlers compose in order. */
  lemma {:induction false} RunConcat<P>(s: RelayState<P>, first: seq<Event<P>>, second: seq<Event<P>>)
    ensures Run(s, first + second) == Run(Run(s, first), second)
    decreases |first|
  {
    if first == [] {
      assert first + second == second;
    } else {
      assert (first + second)[0] == first[0];
      assert (first + second)[1..] == first[1..] + second;
      RunConcat(Step(s, first[0]), first[1..], second);
    }
  }

  // ---------------------------------------------------------------------------
  // The relay as an object whose handlers update its fields

  class Relay<P> {
    var live: set<ConnId>
    var rooms: map<RoomName, set<ConnId>>
    var outbox: map<ConnId, seq<ServerMsg<P>>>

    function State(): RelayState<P>
      reads this
    {
      RelayState(live, rooms, outbox)
    }

    ghost predicate Valid()
      reads this
    {
      Invariant(State())
    }

    function RoomMembers(room: RoomName): set<ConnId>
      reads this
    {
      if room in rooms then rooms[room] else {}
    }

    constructor ()
      ensures Valid()
      ensures live == {} && rooms == map[] && outbox == map[]
    {
      live, rooms, outbox := {}, map[], map[];
    }

    /** The library's attach step for a new connection. */
    method Connect(id: ConnId)
      requires Valid() && id !in outbox
      modifies this
      ensures Valid()
      ensures State() == ConnectStep(old(State()), id)
      ensures live == old(live) + {id} && outbox == old(outbox)[id := []]
      ensures id in rooms && id in rooms[id]
    {
      rooms := rooms[id := RoomMembers(id) + {id}];
      live := live + {id};
      outbox := outbox[id := []];
      ConnectKeepsInvariant(old(State()), id);
    }

    /** The `join-room` handler. */
    method OnJoinRoom(sender: ConnId, room: RoomName)
      requires Valid() && sender in live
      modifies this
      ensures Valid()
      ensures State() == JoinRoomStep(old(State()), sender, room)
      ensures live == old(live)
      ensures rooms == old(rooms)[room := old(RoomMembers(room)) + {sender}]
      ensures outbox.Keys == old(outbox).Keys
      ensures forall c :: c in outbox ==>
                outbox[c] == if c in old(RoomMembers(room)) && c != sender
                             then old(outbox[c]) + [UserConnected(sender)] else old(outbox[c])
    {
      rooms := rooms[room := RoomMembers(room) + {sender}];
      outbox := Deliver(outbox, rooms[room] - {sender}, UserConnected(sender));
      JoinRoomKeepsInvariant(old(State()), sender, room);
    }

    /** The `signal` handler. */
    method OnSignal(sender: ConnId, data: Option<SignalRequest<P>>)
      requires Valid() && sender in live
      modifies this
      ensures Valid()
      ensures State() == SignalStep(old(State()), sender, data)
      ensures live == old(live) && rooms == old(rooms) && outbox.Keys == old(outbox).Keys
      ensures !HasTarget(data) ==> outbox == old(outbox)
      ensures HasTarget(data) ==> forall c :: c in outbox ==>
                outbox[c] == if c in RoomMembers(data.value.to.value)
                             then old(outbox[c]) + [Signal(sender, data.value.signal)] else old(outbox[c])
    {
      if data.Some? && data.value.to.Some? && data.value.to.value != "" {
        outbox := Deliver(outbox, RoomMembers(data.value.to.value), Signal(sender, data.value.signal));
      }
    }

    /** The `disconnect` handler, after the library has taken the connection out of its rooms. */
    method OnDisconnect(id: ConnId)
      requires Valid() && id in live
      modifies this
      ensures Valid()
      ensures State() == DisconnectStep(old(State()), id)
      ensures live == old(live) - {id}
      ensures forall room :: room in rooms ==> id !in rooms[room]
      ensures outbox.Keys == old(outbox).Keys
      ensures forall c :: c in outbox ==>
                outbox[c] == if c in live then old(outbox[c]) + [UserDisconnected(id)] else old(outbox[c])
    {
      rooms := LeaveAll(rooms, id);
      live := live - {id};
      outbox := Deliver(outbox, live, UserDisconnected(id));
      DisconnectKeepsInvariant(old(State()), id);
    }

    /** The `ambulance-book` handler; `stamp` is the `Date.now()` it attaches. */
    method OnAmbulanceBook(sender: ConnId, payload: P, stamp: int)
      requires Valid() && sender in live
      modifies this
      ensures Valid()
      ensures State() == AmbulanceBookStep(old(State()), payload, stamp)
      ensures live == old(live) && rooms == old(rooms) && outbox.Keys == old(outbox).Keys
      ensures forall c :: c in outbox ==>
                outbox[c] == if c in live then old(outbox[c]) + [AmbulanceBooked(payload, stamp)] else old(outbox[c])
    {
      outbox := Deliver(outbox, live, AmbulanceBooked(payload, stamp));
    }
  }
}
