/** The emergency page's client side: the doctor directory, the mapping between
    a doctor's name and the signaling room of the call, and the call state kept
    by `startCall`, its three socket handlers and `endCall` — a table of peer
    connections keyed by the remote connection id, the local media stream and
    the messages emitted to the relay.

    The browser's media and WebRTC objects are abstract: a stream is the list of
    its tracks, a peer connection is a record of what has been set on it, and
    each result the browser would produce (the stream of `getUserMedia`, the
    text of an offer or answer) is a parameter. */
module Emergency {
  import opened Wrappers
  import opened JsText
  import JsArray

  // ---------------------------------------------------------------------------
  // The doctor directory

  datatype CallKind = Video | Audio

  datatype Doctor = Doctor(name: string, specialization: string, location: string, available: bool)

  /** The fixed directory, per kind of call. */
  function DoctorsOf(kind: CallKind): seq<Doctor> {
    match kind
    case Video => [
      Doctor("Dr. Aisha Khan", "Cardiologist", "Delhi", true),
      Doctor("Dr. Meera Singh", "Neurologist", "Bengaluru", true),
      Doctor("Dr. Rajesh Verma", "Pediatrician", "Mumbai", true)]
    case Audio => [
      Doctor("Dr. Sunita Sharma", "General Physician", "Hyderabad", true),
      Doctor("Dr. Karan Verma", "ENT", "Jaipur", true),
      Doctor("Dr. Aman Gill", "Dermatologist", "Chennai", true)]
  }

  /** `showDoctors`' list: the doctors of that kind who are available. */
  function AvailableDoctors(kind: CallKind): seq<Doctor> {
    JsArray.Filter(DoctorsOf(kind), (d: Doctor) => d.available)
  }

  /** Every doctor in the directory is available, so the whole list is shown, in order. */
  lemma AllDoctorsShown(kind: CallKind)
    ensures AvailableDoctors(kind) == DoctorsOf(kind)
    ensures |AvailableDoctors(kind)| == 3
  {
    JsArray.FilterAllOrNone(DoctorsOf(kind), (d: Doctor) => d.available);
  }

  // ---------------------------------------------------------------------------
  // Room names

  const RoomPrefix: string := "doctor-"

  /** `connectDoctor`'s room: the prefix, then the name with each run of
      whitespace turned into one `-`. */
  function RoomName(name: string): (r: string)
    ensures RoomPrefix <= r
    ensures forall k :: |RoomPrefix| <= k < |r| ==> !IsWhitespace(r[k])
  {
    var tail := ReplaceWhitespaceRuns(name, '-');
    assert forall k :: |RoomPrefix| <= k < |RoomPrefix + tail| ==> (RoomPrefix + tail)[k] == tail[k - |RoomPrefix|];
    RoomPrefix + tail
  }

  /** The name shown in the call window: the first `doctor-` removed, then
      every `-` turned into a space. */
  function DisplayName(room: string): (r: string)
    ensures '-' !in r
    ensures RoomPrefix <= room ==>
              |r| == |room| - |RoomPrefix| &&
              forall k :: 0 <= k < |r| ==>
                r[k] == if room[|RoomPrefix| + k] == '-' then ' ' else room[|RoomPrefix| + k]
    ensures !Contains(room, RoomPrefix) ==>
              |r| == |room| && forall k :: 0 <= k < |r| ==> r[k] == if room[k] == '-' then ' ' else room[k]
  {
    ReplaceChar(RemoveFirst(room, RoomPrefix), '-', ' ')
  }

  /** A name without white space is used as it is. */
  lemma RoomNameOfPlainName(name: string)
    requires forall k :: 0 <= k < |name| ==> !IsWhitespace(name[k])
    ensures RoomName(name) == RoomPrefix + name
  {
    ReplaceRunsPlain(name, '-');
  }

  /** Each maximal run of white space in a name becomes one `-`, whatever its length. */
  lemma RoomNameCollapsesRun(a: string, w: string, b: string)
    requires w != [] && forall k :: 0 <= k < |w| ==> IsWhitespace(w[k])
    requires a == [] || !IsWhitespace(a[|a| - 1])
    requires b == [] || !IsWhitespace(b[0])
    ensures RoomName(a + w + b) == RoomName(a) + "-" + ReplaceWhitespaceRuns(b, '-')
  {
    var fa, fb := ReplaceWhitespaceRuns(a, '-'), ReplaceWhitespaceRuns(b, '-');
    calc {
      RoomName(a + w + b);
      RoomPrefix + ReplaceWhitespaceRuns(a + w + b, '-');
      { ReplaceRunsSplit(a, w, b, '-'); }
      RoomPrefix + (fa + "-" + fb);
      { Regroup(RoomPrefix, fa, "-", fb); }
      (RoomPrefix + fa) + "-" + fb;
      RoomName(a) + "-" + fb;
    }
  }

  /** The length and kind of a white-space run do not matter: a name typed with
      two spaces, or a tab, gets the room of the single-spaced name, and so the
      call window shows the single-spaced form. */
  lemma RunLengthIrrelevant(a: string, w: string, b: string)
    requires w != [] && forall k :: 0 <= k < |w| ==> IsWhitespace(w[k])
    requires a == [] || !IsWhitespace(a[|a| - 1])
    requires b == [] || !IsWhitespace(b[0])
    ensures RoomName(a + w + b) == RoomName(a + " " + b)
    ensures DisplayName(RoomName(a + w + b)) == DisplayName(RoomName(a + " " + b))
  {
    RoomNameCollapsesRun(a, w, b);
    RoomNameCollapsesRun(a, " ", b);
  }

  /** From position i on, the name's only whitespace is single spaces and it has no `-`. */
  predicate SingleSpacedFrom(name: string, i: nat)
    decreases |name| - i
  {
    i >= |name| ||
    (&& name[i] != '-'
     && (IsWhitespace(name[i]) ==> name[i] == ' ' && (i + 1 < |name| ==> name[i + 1] != ' '))
     && SingleSpacedFrom(name, i + 1))
  }

  /** Names whose only whitespace is single spaces and that have no `-`. */
  predicate SingleSpaced(name: string) {
    SingleSpacedFrom(name, 0)
  }

  lemma {:induction false} RunsRoundTrip(name: string, i: nat)
    requires i <= |name| && SingleSpacedFrom(name, i)
    ensures ReplaceChar(ReplaceWhitespaceRuns(name[i..], '-'), '-', ' ') == name[i..]
    decreases |name| - i
  {
    if i < |name| {
      var rest := name[i + 1..];
      assert name[i..][1..] == rest;
      RunsRoundTrip(name, i + 1);
      if IsWhitespace(name[i]) {
        assert rest != [] ==> !IsWhitespace(rest[0]);
        assert TrimStart(rest) == rest;
        ReplaceCharConcat(['-'], ReplaceWhitespaceRuns(rest, '-'), '-', ' ');
        assert ReplaceChar(['-'], '-', ' ') == [name[i]];
      } else {
        ReplaceCharConcat([name[i]], ReplaceWhitespaceRuns(rest, '-'), '-', ' ');
        assert ReplaceChar([name[i]], '-', ' ') == [name[i]];
      }
      assert name[i..] == [name[i]] + rest;
    }
  }

  /** The call window shows the doctor's own name for every single-spaced name
      without hyphens. */
  lemma DisplayNameRoundTrip(name: string)
    requires SingleSpaced(name)
    ensures DisplayName(RoomName(name)) == name
  {
    RunsRoundTrip(name, 0);
    assert name[0..] == name;
    assert RemoveFirst(RoomName(name), RoomPrefix) == ReplaceWhitespaceRuns(name, '-');
  }

  /** A name with a hyphen never comes back: the hyphen is shown as a space. */
  lemma HyphenatedNameNotRecovered(name: string)
    requires '-' in name
    ensures DisplayName(RoomName(name)) != name
  {
  }

  /** Every doctor on the video list has a single-spaced name, so each of them
      sees their own name in the call window. */
  lemma VideoNamesSingleSpaced()
    ensures forall d :: d in DoctorsOf(Video) ==> SingleSpaced(d.name)
  {
    AishaKhanSingleSpaced();
    MeeraSinghSingleSpaced();
    RajeshVermaSingleSpaced();
  }

  /** The same for the audio list. */
  lemma AudioNamesSingleSpaced()
    ensures forall d :: d in DoctorsOf(Audio) ==> SingleSpaced(d.name)
  {
    SunitaSharmaSingleSpaced();
    KaranVermaSingleSpaced();
    AmanGillSingleSpaced();
  }

  // One small lemma per literal name: checking the six names in a single proof
  // unfolds SingleSpacedFrom on all of them at once and costs far more. Each
  // lemma asserts the predicate at every third position, back to front, so each
  // unfolding is short.
  lemma AishaKhanSingleSpaced()
    ensures SingleSpaced("Dr. Aisha Khan")
  {
    assert SingleSpacedFrom("Dr. Aisha Khan", 12);
    assert SingleSpacedFrom("Dr. Aisha Khan", 9);
    assert SingleSpacedFrom("Dr. Aisha Khan", 6);
    assert SingleSpacedFrom("Dr. Aisha Khan", 3);
  }

  lemma MeeraSinghSingleSpaced()
    ensures SingleSpaced("Dr. Meera Singh")
  {
    assert SingleSpacedFrom("Dr. Meera Singh", 12);
    assert SingleSpacedFrom("Dr. Meera Singh", 9);
    assert SingleSpacedFrom("Dr. Meera Singh", 6);
    assert SingleSpacedFrom("Dr. Meera Singh", 3);
  }

  lemma RajeshVermaSingleSpaced()
    ensures SingleSpaced("Dr. Rajesh Verma")
  {
    assert SingleSpacedFrom("Dr. Rajesh Verma", 15);
    assert SingleSpacedFrom("Dr. Rajesh Verma", 12);
    assert SingleSpacedFrom("Dr. Rajesh Verma", 9);
    assert SingleSpacedFrom("Dr. Rajesh Verma", 6);
    assert SingleSpacedFrom("Dr. Rajesh Verma", 3);
  }

  lemma SunitaSharmaSingleSpaced()
    ensures SingleSpaced("Dr. Sunita Sharma")
  {
    assert SingleSpacedFrom("Dr. Sunita Sharma", 15);
    assert SingleSpacedFrom("Dr. Sunita Sharma", 12);
    assert SingleSpacedFrom("Dr. Sunita Sharma", 9);
    assert SingleSpacedFrom("Dr. Sunita Sharma", 6);
    assert SingleSpacedFrom("Dr. Sunita Sharma", 3);
  }

  lemma KaranVermaSingleSpaced()
    ensures SingleSpaced("Dr. Karan Verma")
  {
    assert SingleSpacedFrom("Dr. Karan Verma", 12);
    assert SingleSpacedFrom("Dr. Karan Verma", 9);
    assert SingleSpacedFrom("Dr. Karan Verma", 6);
    assert SingleSpacedFrom("Dr. Karan Verma", 3);
  }

  lemma AmanGillSingleSpaced()
    ensures SingleSpaced("Dr. Aman Gill")
  {
    assert SingleSpacedFrom("Dr. Aman Gill", 12);
    assert SingleSpacedFrom("Dr. Aman Gill", 9);
    assert SingleSpacedFrom("Dr. Aman Gill", 6);
    assert SingleSpacedFrom("Dr. Aman Gill", 3);
  }

  /** The names of the directory all come back unchanged. */
  lemma DirectoryNamesRoundTrip(kind: CallKind, d: Doctor)
    requires d in DoctorsOf(kind)
    ensures DisplayName(RoomName(d.name)) == d.name
  {
    assert SingleSpaced(d.name) by {
      match kind
      case Video => VideoNamesSingleSpaced();
      case Audio => AudioNamesSingleSpaced();
    }
    DisplayNameRoundTrip(d.name);
  }

  // ---------------------------------------------------------------------------
  // Call state

  /** A media track, by identity. */
  type Track = nat

  datatype SessionDescription = SessionDescription(sdpType: string, sdp: string)

  datatype IceCandidate = IceCandidate(candidate: string)

  /** The `signal` object exchanged through the relay; each part may be missing. */
  datatype SignalBody = SignalBody(sdp: Option<SessionDescription>, candidate: Option<IceCandidate>)

  /** What the page emits to the relay. */
  datatype ClientEmit =
    | JoinRoomEmit(room: string)
    | SignalEmit(to: string, signal: SignalBody)

  /** A peer connection: a handle standing for its identity, the tracks added
      to it, its descriptions and the remote candidates added to it. */
  datatype Peer = Peer(handle: nat, tracks: seq<Track>,
                       localDescription: Option<SessionDescription>,
                       remoteDescription: Option<SessionDescription>,
                       candidates: seq<IceCandidate>)

  const Connecting: string := "Connecting…"
  const Connected: string := "Connected ✅"
  const Failed: string := "Failed to connect"

  function Offer(sdp: string): SessionDescription { SessionDescription("offer", sdp) }
  function Answer(sdp: string): SessionDescription { SessionDescription("answer", sdp) }

  predicate IsOffer(d: SessionDescription) { d.sdpType == "offer" }

  /** What a `signal` body does to the connection it is processed on: its sdp,
      if any, becomes the remote description (and an offer is answered), then
      its candidate, if any, is added. */
  function Received(p: Peer, body: SignalBody, answerSdp: string): Peer {
    var described :=
      if body.sdp.Some? then
        p.(remoteDescription := body.sdp,
           localDescription := if IsOffer(body.sdp.value) then Some(Answer(answerSdp)) else p.localDescription)
      else p;
    if body.candidate.Some? then described.(candidates := described.candidates + [body.candidate.value])
    else described
  }

  /** What the page sends back for a `signal` body from `from`. */
  function Replies(from: string, body: SignalBody, answerSdp: string): seq<ClientEmit> {
    if body.sdp.Some? && IsOffer(body.sdp.value) then [SignalEmit(from, SignalBody(Some(Answer(answerSdp)), None))]
    else []
  }

  /** The effect of a `signal` body: an offer is answered exactly once, back to
      its sender; an answer or other description is only recorded; a candidate
      is appended after whatever description the same body carried; the
      connection's identity and tracks stay. */
  lemma ReceivedEffects(from: string, p: Peer, body: SignalBody, answerSdp: string)
    ensures var q := Received(p, body, answerSdp);
            var replies := Replies(from, body, answerSdp);
            && q.handle == p.handle && q.tracks == p.tracks
            && q.remoteDescription == (if body.sdp.Some? then body.sdp else p.remoteDescription)
            && (body.sdp.Some? && IsOffer(body.sdp.value) ==>
                  q.localDescription == Some(Answer(answerSdp)) &&
                  replies == [SignalEmit(from, SignalBody(Some(Answer(answerSdp)), None))])
            && (!(body.sdp.Some? && IsOffer(body.sdp.value)) ==>
                  q.localDescription == p.localDescription && replies == [])
            && q.candidates == p.candidates + (if body.candidate.Some? then [body.candidate.value] else [])
  {
  }

  /** The handles of the peers stored under the given keys. */
  function HandlesOf(peers: map<string, Peer>, keys: set<string>): set<nat>
    requires keys <= peers.Keys
  {
    set id | id in keys :: peers[id].handle
  }

  /** HandlesOf grows one key at a time. */
  lemma HandlesOfAdd(peers: map<string, Peer>, keys: set<string>, id: string)
    requires keys <= peers.Keys && id in peers
    ensures HandlesOf(peers, keys + {id}) == HandlesOf(peers, keys) + {peers[id].handle}
  {
  }

  /** The peer table's invariant: every stored connection is open and is the
      one its handle belongs to (so handles are not shared), handles are
      given out in increasing order. `owner` records whose each handle is. */
  ghost predicate PeerTable(peers: map<string, Peer>, nextHandle: nat, closed: set<nat>, owner: map<nat, string>) {
    && (forall id :: id in peers ==>
          && peers[id].handle < nextHandle && peers[id].handle !in closed
          && peers[id].handle in owner && owner[peers[id].handle] == id)
    && (forall h :: h in closed ==> h < nextHandle)
  }

  /** Closing every stored connection and emptying the table keeps the invariant. */
  lemma EmptyKeepsTable(peers: map<string, Peer>, nextHandle: nat, closed: set<nat>, owner: map<nat, string>)
    requires PeerTable(peers, nextHandle, closed, owner)
    ensures PeerTable(map[], nextHandle, closed + HandlesOf(peers, peers.Keys), owner)
  {
  }

  /** `endCall`'s first loop: every stored connection's handle is closed, one key at a time. */
  method CloseAll(peers: map<string, Peer>, closed: set<nat>) returns (shut: set<nat>)
    ensures shut == closed + HandlesOf(peers, peers.Keys)
  {
    var remaining := peers.Keys;
    shut := closed;
    ghost var done: set<string> := {};
    while remaining != {}
      invariant remaining <= peers.Keys && done == peers.Keys - remaining
      invariant shut == closed + HandlesOf(peers, done)
      decreases remaining
    {
      var id :| id in remaining;
      HandlesOfAdd(peers, done, id);
      shut := shut + {peers[id].handle};
      remaining := remaining - {id};
      done := done + {id};
    }
    assert done == peers.Keys;
  }

  /** The tracks of a stream, as a set. */
  function TrackSet(tracks: seq<Track>): set<Track> {
    set t | t in tracks
  }

  /** `endCall`'s second loop: every track of the stream is stopped. */
  method StopAll(tracks: seq<Track>, stopped: set<Track>) returns (halted: set<Track>)
    ensures halted == stopped + TrackSet(tracks)
  {
    halted := stopped;
    for k := 0 to |tracks|
      invariant halted == stopped + TrackSet(tracks[..k])
    {
      assert tracks[..k + 1] == tracks[..k] + [tracks[k]];
      halted := halted + {tracks[k]};
    }
    assert tracks[..|tracks|] == tracks;
  }

  /** Changing what is set on a stored connection keeps the table's invariant. */
  lemma SameHandleKeepsTable(peers: map<string, Peer>, nextHandle: nat, closed: set<nat>, owner: map<nat, string>,
                             id: string, p: Peer)
    requires PeerTable(peers, nextHandle, closed, owner) && id in peers && p.handle == peers[id].handle
    ensures PeerTable(peers[id := p], nextHandle, closed, owner)
  {
  }

  /** Storing a connection with the next handle keeps the table's invariant. */
  lemma FreshHandleKeepsTable(peers: map<string, Peer>, nextHandle: nat, closed: set<nat>, owner: map<nat, string>,
                              id: string, p: Peer)
    requires PeerTable(peers, nextHandle, closed, owner) && p.handle == nextHandle
    ensures PeerTable(peers[id := p], nextHandle + 1, closed, owner[nextHandle := id])
  {
  }

  /** Closing and removing a stored connection keeps the table's invariant:
      no other stored connection shares its handle. */
  lemma RemoveKeepsTable(peers: map<string, Peer>, nextHandle: nat, closed: set<nat>, owner: map<nat, string>, id: string)
    requires PeerTable(peers, nextHandle, closed, owner) && id in peers
    ensures PeerTable(peers - {id}, nextHandle, closed + {peers[id].handle}, owner)
  {
  }

  /** The page's fields that a call does not touch. */
  datatype Listing = Listing(selectedDoctors: seq<Doctor>, showDoctorList: bool, showAmbulances: bool)

  class EmergencyPage {
    var selectedDoctors: seq<Doctor>
    var showDoctorList: bool
    var showAmbulances: bool

    var callModal: bool
    var callDoctor: string
    var callStatus: string

    /** Whether the socket was created when the page mounted. */
    var socketReady: bool
    /** The stream in `localStreamRef`. */
    var localStream: Option<seq<Track>>
    /** The stream captured by the installed socket handlers; None while no
        `startCall` has reached the point of installing them. */
    var handlers: Option<seq<Track>>
    /** `peersRef`: remote connection id to peer connection. */
    var peers: map<string, Peer>
    /** The handle the next peer connection gets. */
    var nextHandle: nat
    /** Handles of the peer connections that have been closed. */
    var closed: set<nat>
    /** Tracks that have been stopped. */
    var stopped: set<Track>
    /** Everything emitted to the relay, in order. */
    var emits: seq<ClientEmit>
    /** Which key each handle was stored under when it was created. */
    ghost var owner: map<nat, string>

    /** Every stored peer connection is open and has its own handle; handles
        are given out in increasing order. */
    ghost predicate Valid()
      reads this
    {
      PeerTable(peers, nextHandle, closed, owner)
    }

    function ListingState(): Listing
      reads this
    {
      Listing(selectedDoctors, showDoctorList, showAmbulances)
    }

    /** The page as mounted, with or without a socket. */
    constructor (socketReady: bool)
      ensures Valid()
      ensures ListingState() == Listing([], false, false)
      ensures !callModal && callDoctor == "" && callStatus == Connecting
      ensures this.socketReady == socketReady
      ensures localStream == None && handlers == None && peers == map[]
      ensures nextHandle == 0 && closed == {} && stopped == {} && emits == []
    {
      selectedDoctors, showDoctorList, showAmbulances := [], false, false;
      callModal, callDoctor, callStatus := false, "", Connecting;
      this.socketReady := socketReady;
      localStream, handlers, peers := None, None, map[];
      nextHandle, closed, stopped, emits := 0, {}, {}, [];
      owner := map[];
    }

    /** `showDoctors`: lists the available doctors of a kind and hides the ambulances. */
    method ShowDoctors(kind: CallKind)
      modifies this
      ensures ListingState() == Listing(AvailableDoctors(kind), true, false)
      ensures selectedDoctors == DoctorsOf(kind)
      ensures callModal == old(callModal) && callDoctor == old(callDoctor) && callStatus == old(callStatus)
      ensures localStream == old(localStream) && handlers == old(handlers) && peers == old(peers)
      ensures nextHandle == old(nextHandle) && closed == old(closed) && stopped == old(stopped)
      ensures emits == old(emits) && socketReady == old(socketReady)
    {
      AllDoctorsShown(kind);
      var available := AvailableDoctors(kind);
      selectedDoctors, showDoctorList, showAmbulances := available, true, false;
    }

    /** `startCall`; `media` is what `getUserMedia` gave, None when it failed.
        (Whether video is requested only shapes that request.) */
    method StartCall(roomName: string, media: Option<seq<Track>>)
      requires Valid()
      modifies this
      ensures Valid()
      ensures callModal && callDoctor == DisplayName(roomName)
      ensures media.None? ==>
                callStatus == Failed && localStream == old(localStream) &&
                handlers == old(handlers) && emits == old(emits)
      ensures media.Some? && !socketReady ==>
                callStatus == Failed && localStream == media &&
                handlers == old(handlers) && emits == old(emits)
      ensures media.Some? && socketReady ==>
                callStatus == Connected && localStream == media &&
                handlers == media && emits == old(emits) + [JoinRoomEmit(roomName)]
      ensures (peers, nextHandle, closed, stopped, socketReady, ListingState()) ==
              old((peers, nextHandle, closed, stopped, socketReady, ListingState()))
    {
      // The window opens showing "Connecting…"; the status below replaces it
      // before the step ends.
      callModal, callDoctor := true, DisplayName(roomName);
      if media.None? {
        callStatus := Failed;
      } else if !socketReady {
        localStream, callStatus := media, Failed;
      } else {
        localStream := media;
        emits, handlers := emits + [JoinRoomEmit(roomName)], media;
        callStatus := Connected;
      }
    }

    /** `connectDoctor`: a call in the doctor's room. */
    method ConnectDoctor(name: string, media: Option<seq<Track>>)
      requires Valid()
      modifies this
      ensures Valid()
      ensures callModal && callDoctor == DisplayName(RoomName(name))
      ensures SingleSpaced(name) ==> callDoctor == name
      ensures media.Some? && socketReady ==>
                callStatus == Connected && handlers == media &&
                emits == old(emits) + [JoinRoomEmit(RoomName(name))]
      ensures !(media.Some? && socketReady) ==> callStatus == Failed && emits == old(emits) && handlers == old(handlers)
      ensures localStream == (if media.Some? then media else old(localStream))
      ensures peers == old(peers) && nextHandle == old(nextHandle) && closed == old(closed)
      ensures stopped == old(stopped) && socketReady == old(socketReady)
      ensures ListingState() == old(ListingState())
    {
      StartCall(RoomName(name), media);
      if SingleSpaced(name) {
        DisplayNameRoundTrip(name);
      }
    }

    /** A new peer connection under id with every track of the stream added,
        replacing (without closing) any connection stored there. */
    method CreatePeer(id: string, stream: seq<Track>)
      requires Valid()
      modifies this
      ensures Valid()
      ensures peers == old(peers)[id := Peer(old(nextHandle), stream, None, None, [])]
      ensures nextHandle == old(nextHandle) + 1
      ensures closed == old(closed) && emits == old(emits) && handlers == old(handlers)
      ensures localStream == old(localStream) && stopped == old(stopped)
      ensures callModal == old(callModal) && callDoctor == old(callDoctor) && callStatus == old(callStatus)
      ensures socketReady == old(socketReady) && ListingState() == old(ListingState())
    {
      var added: seq<Track> := [];
      for k := 0 to |stream|
        invariant added == stream[..k]
        modifies {}
      {
        added := added + [stream[k]];
      }
      assert added == stream;
      FreshHandleKeepsTable(peers, nextHandle, closed, owner, id, Peer(nextHandle, added, None, None, []));
      peers := peers[id := Peer(nextHandle, added, None, None, [])];
      owner := owner[nextHandle := id];
      nextHandle := nextHandle + 1;
    }

    /** The `user-connected` handler: a fresh connection for userId carrying
        every local track, with its offer set and sent to userId. */
    method OnUserConnected(userId: string, offerSdp: string)
      requires Valid()
      modifies this
      ensures Valid()
      ensures handlers.None? ==>
                peers == old(peers) && nextHandle == old(nextHandle) && emits == old(emits)
      ensures handlers.Some? ==>
                && peers == old(peers)[userId := Peer(old(nextHandle), handlers.value, Some(Offer(offerSdp)), None, [])]
                && old(nextHandle) !in closed
                && nextHandle == old(nextHandle) + 1
                && emits == old(emits) + [SignalEmit(userId, SignalBody(Some(Offer(offerSdp)), None))]
      ensures closed == old(closed) && handlers == old(handlers) && localStream == old(localStream)
      ensures stopped == old(stopped) && socketReady == old(socketReady)
      ensures callModal == old(callModal) && callDoctor == old(callDoctor) && callStatus == old(callStatus)
      ensures ListingState() == old(ListingState())
    {
      if handlers.None? {
        return;
      }
      CreatePeer(userId, handlers.value);
      SameHandleKeepsTable(peers, nextHandle, closed, owner, userId, peers[userId].(localDescription := Some(Offer(offerSdp))));
      peers := peers[userId := peers[userId].(localDescription := Some(Offer(offerSdp)))];
      emits := emits + [SignalEmit(userId, SignalBody(Some(Offer(offerSdp)), None))];
    }

    /** A `signal` body processed on the connection stored under `from`. */
    method ProcessSignal(from: string, body: SignalBody, answerSdp: string)
      requires Valid() && from in peers
      modifies this
      ensures Valid()
      ensures peers == old(peers)[from := Received(old(peers[from]), body, answerSdp)]
      ensures emits == old(emits) + Replies(from, body, answerSdp)
      ensures nextHandle == old(nextHandle) && closed == old(closed) && handlers == old(handlers)
      ensures localStream == old(localStream) && stopped == old(stopped) && socketReady == old(socketReady)
      ensures callModal == old(callModal) && callDoctor == old(callDoctor) && callStatus == old(callStatus)
      ensures ListingState() == old(ListingState())
    {
      if body.sdp.Some? {
        var p := peers[from].(remoteDescription := body.sdp);
        if body.sdp.value.sdpType == "offer" {
          p := p.(localDescription := Some(Answer(answerSdp)));
          emits := emits + [SignalEmit(from, SignalBody(Some(Answer(answerSdp)), None))];
        }
        SameHandleKeepsTable(peers, nextHandle, closed, owner, from, p);
        peers := peers[from := p];
      }
      if body.candidate.Some? {
        var p := peers[from].(candidates := peers[from].candidates + [body.candidate.value]);
        SameHandleKeepsTable(peers, nextHandle, closed, owner, from, p);
        peers := peers[from := p];
      }
    }

    /** The `signal` handler for a message from `from` carrying `signal` (None
        when the message has no signal object: reading its parts throws, after
        the connection has been made); `answerSdp` is what `createAnswer` gives.
        The message is processed on the connection stored under `from`, or on
        a fresh one with the local tracks; no other entry changes. */
    method OnSignal(from: string, signal: Option<SignalBody>, answerSdp: string)
      requires Valid()
      modifies this
      ensures Valid()
      ensures handlers.None? ==>
                peers == old(peers) && nextHandle == old(nextHandle) && emits == old(emits)
      ensures handlers.Some? ==>
                var before := if from in old(peers) then old(peers[from])
                              else Peer(old(nextHandle), handlers.value, None, None, []);
                && peers == old(peers)[from := if signal.Some? then Received(before, signal.value, answerSdp) else before]
                && emits == old(emits) + (if signal.Some? then Replies(from, signal.value, answerSdp) else [])
                && nextHandle == (if from in old(peers) then old(nextHandle) else old(nextHandle) + 1)
      ensures closed == old(closed) && handlers == old(handlers) && localStream == old(localStream)
      ensures stopped == old(stopped) && socketReady == old(socketReady)
      ensures callModal == old(callModal) && callDoctor == old(callDoctor) && callStatus == old(callStatus)
      ensures ListingState() == old(ListingState())
    {
      if handlers.None? {
        return;
      }
      if from !in peers {
        CreatePeer(from, handlers.value);
      }
      assert peers == old(peers)[from := peers[from]];
      if signal.Some? {
        ProcessSignal(from, signal.value, answerSdp);
      }
    }

    /** A connection made for remoteId found a local candidate (None: the end
        of gathering); the candidate is sent to remoteId. */
    method OnIceCandidate(remoteId: string, candidate: Option<IceCandidate>)
      requires Valid()
      modifies this
      ensures Valid()
      ensures emits == old(emits) +
                (if candidate.Some? then [SignalEmit(remoteId, SignalBody(None, candidate))] else [])
      ensures peers == old(peers) && nextHandle == old(nextHandle) && closed == old(closed)
      ensures handlers == old(handlers) && localStream == old(localStream)
      ensures stopped == old(stopped) && socketReady == old(socketReady)
      ensures callModal == old(callModal) && callDoctor == old(callDoctor) && callStatus == old(callStatus)
      ensures ListingState() == old(ListingState())
    {
      if candidate.Some? {
        emits := emits + [SignalEmit(remoteId, SignalBody(None, candidate))];
      }
    }

    /** The `user-disconnected` handler: that connection, if stored, is closed
        and removed; nothing else changes. */
    method OnUserDisconnected(id: string)
      requires Valid()
      modifies this
      ensures Valid()
      ensures handlers.Some? && id in old(peers) ==>
                peers == old(peers) - {id} && closed == old(closed) + {old(peers[id].handle)}
      ensures handlers.None? || id !in old(peers) ==>
                peers == old(peers) && closed == old(closed)
      ensures id !in old(peers) ==> id !in peers
      ensures nextHandle == old(nextHandle) && emits == old(emits)
      ensures handlers == old(handlers) && localStream == old(localStream)
      ensures stopped == old(stopped) && socketReady == old(socketReady)
      ensures callModal == old(callModal) && callDoctor == old(callDoctor) && callStatus == old(callStatus)
      ensures ListingState() == old(ListingState())
    {
      if handlers.None? {
        return;
      }
      if id in peers {
        RemoveKeepsTable(peers, nextHandle, closed, owner, id);
        closed := closed + {peers[id].handle};
        peers := peers - {id};
      }
    }

    /** `endCall`: closes every stored connection, empties the table, stops every
        local track, drops the stream and closes the window. The socket
        handlers stay installed. */
    method EndCall()
      requires Valid()
      modifies this
      ensures Valid()
      ensures peers == map[]
      ensures closed == old(closed) + HandlesOf(old(peers), old(peers).Keys)
      ensures stopped == old(stopped) +
                (if old(localStream).Some? then TrackSet(old(localStream).value) else {})
      ensures localStream == None && !callModal
      ensures (nextHandle, emits, handlers, callDoctor, callStatus, socketReady, ListingState()) ==
              old((nextHandle, emits, handlers, callDoctor, callStatus, socketReady, ListingState()))
    {
      var shut := CloseAll(peers, closed);
      EmptyKeepsTable(peers, nextHandle, closed, owner);
      var halted := stopped;
      if localStream.Some? {
        halted := StopAll(localStream.value, stopped);
      }
      // A missing stream stays missing, so one assignment covers both cases.
      closed, peers, stopped, localStream, callModal := shut, map[], halted, None, false;
    }
  }
}
