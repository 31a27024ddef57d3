/**
 The signaling relay as a state machine over interleaved steps: the hub's rooms
 and peers, and where the goroutine serving each connection stands. Everything
 done under one hold of the hub lock is one step; a relay gives the lock up
 between choosing its target, sending to it and evicting it, so those are three.

 Peers are numbered in the order they joined and stay in the state after they
 leave. `log`, `accepted`, `fate` and `greeting` are history: what was ever
 queued to a peer and why, what the peer's own nonce guard let through and where
 each such message ended up, and how its arrival was announced.
 */
module HubModel {
  import opened Basics
  import opened Protocol
  import Replay

  /** Messages that may wait for a slow peer before it is disconnected. */
  const OUTBOUND_BUFFER := 64

  type PeerId = nat

  datatype Origin = JoinNote(who: PeerId) | LeftNote(who: PeerId) | Relay(from: PeerId, seqNo: nat)

  datatype Entry = Entry(raw: Raw, origin: Origin)

  /** Where an entry sits: `index` in the log of peer `to`. */
  datatype Place = Place(to: PeerId, index: nat)

  /** `older` was in the room; its own announcement is at `at` in its log unless its buffer was full. */
  datatype Greeting = Greeting(older: PeerId, at: Option<nat>)

  datatype Peer = Peer(
    session: string,
    role: Role,
    log: seq<Entry>,
    taken: nat,
    closed: bool,
    guard: Option<u64>,
    accepted: seq<Raw>,
    fate: seq<Option<Place>>,
    greeting: Option<Greeting>)
  {
    /** Room left in the outbound channel. */
    predicate HasRoom() {
      |log| < taken + OUTBOUND_BUFFER
    }
  }

  /** Who holds each of a room's two roles. */
  datatype Room = Room(controller: Option<PeerId>, agent: Option<PeerId>) {
    function Get(role: Role): Option<PeerId> {
      if role == Controller then controller else agent
    }

    function Set(role: Role, who: Option<PeerId>): (room: Room)
      ensures room.Get(role) == who && room.Get(role.Other()) == Get(role.Other())
    {
      if role == Controller then this.(controller := who) else this.(agent := who)
    }
  }

  const EMPTY_ROOM := Room(None, None)

  datatype Hub = Hub(rooms: map<string, Room>, peers: seq<Peer>) {
    /** The peer holding `role` in `session`. */
    function Holder(session: string, role: Role): Option<PeerId> {
      if session in rooms then rooms[session].Get(role) else None
    }

    predicate Registered(p: PeerId)
      requires p < |peers|
    {
      Holder(peers[p].session, peers[p].role) == Some(p)
    }

    function OpponentOf(p: PeerId): Option<PeerId>
      requires p < |peers|
    {
      Holder(peers[p].session, peers[p].role.Other())
    }
  }

  function SetPeer(h: Hub, p: PeerId, peer: Peer): Hub
    requires p < |h.peers|
  {
    h.(peers := h.peers[p := peer])
  }

  /** A non-blocking send on the peer's channel: refused when closed or full. */
  predicate CanEnqueue(h: Hub, to: PeerId)
    requires to < |h.peers|
  {
    !h.peers[to].closed && h.peers[to].HasRoom()
  }

  function Enqueue(h: Hub, to: PeerId, e: Entry): Hub
    requires to < |h.peers|
  {
    if CanEnqueue(h, to) then SetPeer(h, to, h.peers[to].(log := h.peers[to].log + [e])) else h
  }

  function RoomOf(h: Hub, session: string): Room {
    if session in h.rooms then h.rooms[session] else EMPTY_ROOM
  }

  /** Register a new peer with an empty, open channel. */
  function Admit(h: Hub, session: string, role: Role): Hub {
    Hub(h.rooms[session := RoomOf(h, session).Set(role, Some(|h.peers|))],
        h.peers + [Peer(session, role, [], 0, false, None, [], [], None)])
  }

  function Announce(h: Hub, to: PeerId, who: PeerId): Hub
    requires to < |h.peers| && who < |h.peers|
  {
    Enqueue(h, to, Entry(Control(h.peers[who].session, PeerJoined(h.peers[who].role)), JoinNote(who)))
  }

  function Farewell(h: Hub, to: PeerId, who: PeerId): Hub
    requires to < |h.peers| && who < |h.peers|
  {
    Enqueue(h, to, Entry(Control(h.peers[who].session, PeerLeft(h.peers[who].role)), LeftNote(who)))
  }

  function Greet(h: Hub, p: PeerId, greeting: Greeting): Hub
    requires p < |h.peers|
  {
    SetPeer(h, p, h.peers[p].(greeting := Some(greeting)))
  }

  /** `Join` for a free role: register, then exchange presence with whoever is there. */
  function Join(h: Hub, session: string, role: Role): Hub
    requires RoomsInRange(h)
  {
    var p := |h.peers|;
    var h1 := Admit(h, session, role);
    match h.Holder(session, role.Other())
    case None => h1
    case Some(older) =>
      var at := if CanEnqueue(h, older) then Some(|h.peers[older].log|) else None;
      Greet(Announce(Announce(h1, older, p), p, older), p, Greeting(older, at))
  }

  /** Take a registered peer out of its room, and the room out with its last peer, and close its channel. */
  function Drop(h: Hub, p: PeerId): Hub
    requires p < |h.peers| && h.Registered(p)
  {
    var me := h.peers[p];
    var room := h.rooms[me.session].Set(me.role, None);
    Hub(if room == EMPTY_ROOM then h.rooms - {me.session} else h.rooms[me.session := room],
        h.peers[p := me.(closed := true)])
  }

  /** `Leave`: nothing unless `p` itself holds its place; otherwise drop it and tell the other side. */
  function Leave(h: Hub, p: PeerId): Hub
    requires RoomsInRange(h) && p < |h.peers|
  {
    if !h.Registered(p) then h else
    match h.OpponentOf(p)
    case None => Drop(h, p)
    case Some(other) => Farewell(Drop(h, p), other, p)
  }

  predicate SeatInRange(seat: Option<PeerId>, n: nat) {
    seat.Some? ==> seat.value < n
  }

  /** Rooms only name peers that exist. */
  ghost predicate RoomsInRange(h: Hub) {
    forall s :: s in h.rooms ==> SeatInRange(h.rooms[s].controller, |h.peers|) && SeatInRange(h.rooms[s].agent, |h.peers|)
  }

  /** The message passed the peer's nonce guard. */
  function Accept(h: Hub, p: PeerId, raw: Raw, nonce: u64): Hub
    requires p < |h.peers|
  {
    var me := h.peers[p];
    SetPeer(h, p, me.(guard := Some(nonce), accepted := me.accepted + [raw], fate := me.fate + [None]))
  }

  /** Send the `k`-th message accepted from `from` to `to`. */
  function Deliver(h: Hub, from: PeerId, k: nat, to: PeerId): Hub
    requires from < |h.peers| && to < |h.peers| && k < |h.peers[from].accepted| && k < |h.peers[from].fate|
  {
    if !CanEnqueue(h, to) then h else
    var place := Place(to, |h.peers[to].log|);
    var sent := Enqueue(h, to, Entry(h.peers[from].accepted[k], Relay(from, k)));
    SetPeer(sent, from, sent.peers[from].(fate := sent.peers[from].fate[k := Some(place)]))
  }

  /** The writer takes the oldest waiting message, if there is one. */
  function Drain(h: Hub, p: PeerId): Hub
    requires p < |h.peers|
  {
    var me := h.peers[p];
    if me.taken < |me.log| then SetPeer(h, p, me.(taken := me.taken + 1)) else h
  }

  /** How `serve` proceeds after a dispatch. */
  datatype Verdict = Continue | Reject | ByeBye

  /** Where the goroutine serving a connection stands. */
  datatype Pc =
    | Reading
    | Sending(to: PeerId, seqNo: nat, verdict: Verdict)
    | Evicting(to: PeerId, verdict: Verdict)
    | Closing
    | Gone

  function Resume(verdict: Verdict): Pc {
    if verdict == Continue then Reading else Closing
  }

  datatype World = World(hub: Hub, pcs: seq<Pc>)

  function Init(): World {
    World(Hub(map[], []), [])
  }

  datatype Event =
    | Joins(session: string, role: Role)   // a connection arrives
    | Dispatches(p: PeerId, raw: Raw)      // a message arrives; ends at the relay's unlock
    | Sends(p: PeerId)                     // the relay's send to the target it chose
    | Evicts(p: PeerId)                    // the relay's `Leave` of a target that could not take it
    | HangsUp(p: PeerId)                   // the reader fails
    | CleansUp(p: PeerId)                  // the `Leave` at the end of `serve`
    | Drains(p: PeerId)                    // the writer takes one queued message

  /** What `Dispatch` does with a message before any relaying. */
  datatype Ruling = Refuse | Swallow | Forward(verdict: Verdict)

  function Rule(payload: Payload): Ruling {
    match payload
    case Heartbeat => Swallow
    case Bye => Forward(ByeBye)
    case Offer(_) => Forward(Continue)
    case Answer(_) => Forward(Continue)
    case IceCandidate(_, _) => Forward(Continue)
    case _ => Refuse
  }

  /** The envelope of a message that `Dispatch` lets past version, session and nonce checks. */
  function Admitted(me: Peer, raw: Raw): Option<Envelope> {
    match Parse(raw)
    case None => None
    case Some(env) =>
      if env.sessionId != me.session || !Replay.Fresh(me.guard, env.nonce) then None else Some(env)
  }

  function JoinStep(w: World, session: string, role: Role): World
    requires WellFormed(w)
  {
    if w.hub.Holder(session, role).Some? then w
    else World(Join(w.hub, session, role), w.pcs + [Reading])
  }

  function DispatchStep(w: World, p: PeerId, raw: Raw): World
    requires WellFormed(w)
  {
    if p >= |w.pcs| || w.pcs[p] != Reading then w else
    match Admitted(w.hub.peers[p], raw)
    case None => w.(pcs := w.pcs[p := Closing])
    case Some(env) =>
      var pc := match Rule(env.payload.value)
        case Refuse => Closing
        case Swallow => Reading
        case Forward(verdict) =>
          match w.hub.OpponentOf(p)
          case None => Resume(verdict)
          case Some(to) => Sending(to, |w.hub.peers[p].accepted|, verdict);
      World(Accept(w.hub, p, raw, env.nonce), w.pcs[p := pc])
  }

  function SendStep(w: World, p: PeerId): World
    requires WellFormed(w)
  {
    if p >= |w.pcs| || !w.pcs[p].Sending? then w else
    var Sending(to, k, verdict) := w.pcs[p];
    World(Deliver(w.hub, p, k, to),
          w.pcs[p := if CanEnqueue(w.hub, to) then Resume(verdict) else Evicting(to, verdict)])
  }

  function EvictStep(w: World, p: PeerId): World
    requires WellFormed(w)
  {
    if p >= |w.pcs| || !w.pcs[p].Evicting? then w
    else World(Leave(w.hub, w.pcs[p].to), w.pcs[p := Resume(w.pcs[p].verdict)])
  }

  function HangUpStep(w: World, p: PeerId): World
    requires WellFormed(w)
  {
    if p >= |w.pcs| || w.pcs[p] != Reading then w else w.(pcs := w.pcs[p := Closing])
  }

  function CleanUpStep(w: World, p: PeerId): World
    requires WellFormed(w)
  {
    if p >= |w.pcs| || w.pcs[p] != Closing then w else World(Leave(w.hub, p), w.pcs[p := Gone])
  }

  function DrainStep(w: World, p: PeerId): World
    requires WellFormed(w)
  {
    if p >= |w.pcs| then w else World(Drain(w.hub, p), w.pcs)
  }

  /** One step; an event that is not enabled changes nothing. */
  function Step(w: World, e: Event): World
    requires WellFormed(w)
  {
    match e
    case Joins(session, role) => JoinStep(w, session, role)
    case Dispatches(p, raw) => DispatchStep(w, p, raw)
    case Sends(p) => SendStep(w, p)
    case Evicts(p) => EvictStep(w, p)
    case HangsUp(p) => HangUpStep(w, p)
    case CleansUp(p) => CleanUpStep(w, p)
    case Drains(p) => DrainStep(w, p)
  }

  /** Every peer number in use names a peer, and the histories of what was accepted line up. */
  ghost predicate WellFormed(w: World) {
    && RoomsInRange(w.hub)
    && |w.pcs| == |w.hub.peers|
    && (forall p :: 0 <= p < |w.pcs| ==> |w.hub.peers[p].accepted| == |w.hub.peers[p].fate|)
    && (forall p :: 0 <= p < |w.pcs| && w.pcs[p].Sending? ==>
         w.pcs[p].to < |w.pcs| && w.pcs[p].seqNo < |w.hub.peers[p].accepted|)
    && (forall p :: 0 <= p < |w.pcs| && w.pcs[p].Evicting? ==> w.pcs[p].to < |w.pcs|)
  }

  /** `h'` has the same peers as `h`, and perhaps newer ones. */
  ghost predicate Extends(h: Hub, h': Hub) {
    && |h.peers| <= |h'.peers|
    && forall p :: 0 <= p < |h.peers| ==>
         && h'.peers[p].session == h.peers[p].session
         && h'.peers[p].role == h.peers[p].role
         && h'.peers[p].accepted == h.peers[p].accepted
         && |h'.peers[p].fate| == |h.peers[p].fate|
  }

  lemma EnqueueExtends(h: Hub, to: PeerId, e: Entry)
    requires RoomsInRange(h) && to < |h.peers|
    ensures var h' := Enqueue(h, to, e); Extends(h, h') && h'.rooms == h.rooms && |h'.peers| == |h.peers|
  {
  }

  lemma JoinExtends(h: Hub, session: string, role: Role)
    requires RoomsInRange(h)
    ensures var h' := Join(h, session, role); Extends(h, h') && RoomsInRange(h') && |h'.peers| == |h.peers| + 1
    ensures var me := Join(h, session, role).peers[|h.peers|]; me.accepted == [] && me.fate == []
  {
    var p, h1 := |h.peers|, Admit(h, session, role);
    assert Extends(h, h1) && RoomsInRange(h1);
    match h.Holder(session, role.Other())
    case None =>
    case Some(older) =>
      EnqueueExtends(h1, older, Entry(Control(session, PeerJoined(role)), JoinNote(p)));
      var h2 := Announce(h1, older, p);
      EnqueueExtends(h2, p, Entry(Control(session, PeerJoined(role.Other())), JoinNote(older)));
  }

  lemma LeaveExtends(h: Hub, p: PeerId)
    requires RoomsInRange(h) && p < |h.peers|
    ensures var h' := Leave(h, p); Extends(h, h') && RoomsInRange(h') && |h'.peers| == |h.peers|
  {
    if h.Registered(p) {
      assert RoomsInRange(Drop(h, p));
      assert Extends(h, Drop(h, p));
    }
  }

  lemma JoinWellFormed(w: World, session: string, role: Role)
    requires WellFormed(w)
    ensures WellFormed(JoinStep(w, session, role))
  {
    if w.hub.Holder(session, role).None? { JoinExtends(w.hub, session, role); }
  }

  lemma DispatchWellFormed(w: World, p: PeerId, raw: Raw)
    requires WellFormed(w)
    ensures WellFormed(DispatchStep(w, p, raw))
  {
  }

  lemma SendWellFormed(w: World, p: PeerId)
    requires WellFormed(w)
    ensures WellFormed(SendStep(w, p))
  {
    if p < |w.pcs| && w.pcs[p].Sending? {
      assert Extends(w.hub, SendStep(w, p).hub);
    }
  }

  lemma LeaveWellFormed(w: World, p: PeerId)
    requires WellFormed(w)
    ensures WellFormed(EvictStep(w, p)) && WellFormed(CleanUpStep(w, p))
  {
    if p < |w.pcs| {
      LeaveExtends(w.hub, p);
      if w.pcs[p].Evicting? { LeaveExtends(w.hub, w.pcs[p].to); }
    }
  }

  lemma DrainWellFormed(w: World, p: PeerId)
    requires WellFormed(w)
    ensures WellFormed(DrainStep(w, p)) && WellFormed(HangUpStep(w, p))
  {
  }

  lemma StepWellFormed(w: World, e: Event)
    requires WellFormed(w)
    ensures WellFormed(Step(w, e))
  {
    match e
    case Joins(session, role) => JoinWellFormed(w, session, role);
    case Dispatches(p, raw) => DispatchWellFormed(w, p, raw);
    case Sends(p) => SendWellFormed(w, p);
    case Evicts(p) => LeaveWellFormed(w, p);
    case HangsUp(p) => DrainWellFormed(w, p);
    case CleansUp(p) => LeaveWellFormed(w, p);
    case Drains(p) => DrainWellFormed(w, p);
  }

  /** The world after a whole run. */
  function Run(events: seq<Event>): (w: World)
    ensures WellFormed(w)
  {
    if events == [] then Init() else
    var last := |events| - 1;
    StepWellFormed(Run(events[..last]), events[last]);
    Step(Run(events[..last]), events[last])
  }
}
