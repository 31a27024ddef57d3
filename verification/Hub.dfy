/**
 The relay as it is built: peers and the hub are objects updated in place. Each
 method does to the object graph what the state machine's step does to its
 state, so everything proved of runs holds of the objects.
 */
module Hub {
  import opened Basics
  import opened Protocol
  import Model = HubModel
  import Replay

  /** One side of a session. `queue` and `open` are its outbound channel. */
  class Peer {
    ghost const id: nat
    const sessionId: string
    const role: Role
    const guard: Replay.NonceGuard
    var queue: seq<Raw>
    var open: bool
    var closed: bool

    constructor (ghost id: nat, sessionId: string, role: Role)
      ensures this.id == id && this.sessionId == sessionId && this.role == role
      ensures fresh(guard) && guard.owner == id && guard.View() == None
      ensures queue == [] && open && !closed
    {
      this.id := id;
      this.sessionId := sessionId;
      this.role := role;
      guard := new Replay.NonceGuard(id);
      queue, open, closed := [], true, false;
    }

    /** A non-blocking channel send. Sending on a closed channel would panic. */
    method TrySend(msg: Raw) returns (ok: bool)
      requires open
      modifies this`queue
      ensures ok == (|old(queue)| < Model.OUTBOUND_BUFFER)
      ensures queue == if ok then old(queue) + [msg] else old(queue)
    {
      ok := |queue| < Model.OUTBOUND_BUFFER;
      if ok { queue := queue + [msg]; }
    }

    /** Closing a closed channel would panic. */
    method CloseChannel()
      requires open
      modifies this`open
      ensures !open
    {
      open := false;
    }

    method Enqueue(msg: Raw) returns (ok: bool)
      requires open == !closed
      modifies this`queue
      ensures ok == (!closed && |old(queue)| < Model.OUTBOUND_BUFFER)
      ensures queue == if ok then old(queue) + [msg] else old(queue)
    {
      if closed {
        return false;
      }
      ok := TrySend(msg);
    }

    method Close()
      requires open == !closed
      modifies this`open, this`closed
      ensures closed && !open
    {
      if !closed {
        closed := true;
        CloseChannel();
      }
    }

    /** The writer receives the next queued message, if any. */
    method Receive() returns (msg: Option<Raw>)
      modifies this`queue
      ensures old(queue) == [] ==> msg == None && queue == []
      ensures old(queue) != [] ==> msg == Some(old(queue)[0]) && queue == old(queue)[1..]
    {
      if queue == [] {
        return None;
      }
      msg := Some(queue[0]);
      queue := queue[1..];
    }
  }

  function RawsOf(log: seq<Model.Entry>): seq<Raw> {
    seq(|log|, i requires 0 <= i < |log| => log[i].raw)
  }

  /** The peer object is in the state `m` says. */
  ghost predicate Couples(p: Peer, m: Model.Peer)
    reads p, p.guard
  {
    && p.sessionId == m.session && p.role == m.role
    && p.closed == m.closed && p.open == !m.closed
    && p.guard.View() == m.guard
    && m.taken <= |m.log| && p.queue == RawsOf(m.log[m.taken..])
  }

  type Rooms = map<string, map<Role, Peer>>

  /** The object holding a role is the one the state machine's seat names. */
  ghost predicate Seated(rooms: Rooms, all: seq<Peer>, h: Model.Hub, s: string, role: Role) {
    var seat := h.Holder(s, role);
    var here := s in rooms && role in rooms[s];
    && (here <==> seat.Some?)
    && (here ==> seat.value < |all| && rooms[s][role] == all[seat.value])
  }

  ghost predicate AllSeated(rooms: Rooms, all: seq<Peer>, h: Model.Hub) {
    && rooms.Keys == h.rooms.Keys
    && (forall s, role :: Seated(rooms, all, h, s, role))
  }

  lemma AdmitSeats(rooms: Rooms, all: seq<Peer>, h: Model.Hub, session: string, role: Role, p: Peer)
    requires AllSeated(rooms, all, h) && |all| == |h.peers|
    ensures var room: map<Role, Peer> := if session in rooms then rooms[session] else map[];
      AllSeated(rooms[session := room[role := p]], all + [p], Model.Admit(h, session, role))
  {
    var room: map<Role, Peer> := if session in rooms then rooms[session] else map[];
    var rooms', all', h' := rooms[session := room[role := p]], all + [p], Model.Admit(h, session, role);
    forall s, r ensures Seated(rooms', all', h', s, r) {
      assert Seated(rooms, all, h, s, r);
    }
  }

  lemma DropHolder(h: Model.Hub, p: nat, s: string, r: Role)
    requires p < |h.peers| && h.Registered(p)
    ensures Model.Drop(h, p).Holder(s, r) == if s == h.peers[p].session && r == h.peers[p].role then None else h.Holder(s, r)
    ensures s in Model.Drop(h, p).rooms <==> s in h.rooms && (s == h.peers[p].session ==> h.Holder(s, h.peers[p].role.Other()).Some?)
  {
    assert r == h.peers[p].role || r == h.peers[p].role.Other();
  }

  lemma DropSeats(rooms: Rooms, all: seq<Peer>, h: Model.Hub, p: nat)
    requires AllSeated(rooms, all, h) && p < |h.peers| && h.Registered(p)
    ensures var me := h.peers[p];
      && me.session in rooms && me.role in rooms[me.session]
      && var room := rooms[me.session] - {me.role};
         AllSeated(if room == map[] then rooms - {me.session} else rooms[me.session := room], all, Model.Drop(h, p))
  {
    var me := h.peers[p];
    var other := me.role.Other();
    assert Seated(rooms, all, h, me.session, me.role) && Seated(rooms, all, h, me.session, other);
    var room := rooms[me.session] - {me.role};
    var rooms' := if room == map[] then rooms - {me.session} else rooms[me.session := room];
    assert room != map[] <==> other in room by {
      if room != map[] {
        var r :| r in room;
        assert r == other;
      }
    }
    var h' := Model.Drop(h, p);
    forall s, r ensures Seated(rooms', all, h', s, r) && (s in rooms' <==> s in h'.rooms) {
      assert Seated(rooms, all, h, s, r);
      DropHolder(h, p, s, r);
    }
    assert rooms'.Keys == h'.rooms.Keys;
  }

  lemma AdmitInRange(h: Model.Hub, session: string, role: Role)
    requires Model.RoomsInRange(h)
    ensures Model.RoomsInRange(Model.Admit(h, session, role))
  {
  }

  /** Seats depend only on the rooms. */
  lemma SameRoomsSeats(rooms: Rooms, all: seq<Peer>, h: Model.Hub, h': Model.Hub)
    requires AllSeated(rooms, all, h) && h'.rooms == h.rooms
    ensures AllSeated(rooms, all, h')
  {
    forall s, r ensures Seated(rooms, all, h', s, r) { assert Seated(rooms, all, h, s, r); }
  }

  datatype DispatchResult = Continue | Reject | ByeResult

  /** A relay with nothing in between: choose the target, send to it, and evict it if it cannot take the message. */
  function RelayWhole(h: Model.Hub, from: nat, k: nat): Model.Hub
    requires Model.RoomsInRange(h) && from < |h.peers| && k < |h.peers[from].accepted| == |h.peers[from].fate|
  {
    match h.OpponentOf(from)
    case None => h
    case Some(to) => if Model.CanEnqueue(h, to) then Model.Deliver(h, from, k, to) else Model.Leave(h, to)
  }

  /** A dispatch with nothing in between. */
  function DispatchWhole(h: Model.Hub, p: nat, raw: Raw): (Model.Hub, DispatchResult)
    requires Model.RoomsInRange(h) && p < |h.peers| && |h.peers[p].accepted| == |h.peers[p].fate|
  {
    match Model.Admitted(h.peers[p], raw)
    case None => (h, Reject)
    case Some(env) =>
      var h' := Model.Accept(h, p, raw, env.nonce);
      match Model.Rule(env.payload.value)
      case Refuse => (h', Reject)
      case Swallow => (h', Continue)
      case Forward(v) => (RelayWhole(h', p, |h.peers[p].accepted|), if v == Model.Continue then Continue else ByeResult)
  }

  /**
   What the state machine's steps of one connection do to the hub, piece by piece: the guard and the choice of a target;
   the send; the eviction. `Hub.Accepts`, `Hub.Target`, `Hub.SendTo` and `Hub.Leave` do these from any hub state.
   */
  lemma StepsArePieces(w: Model.World, p: nat, raw: Raw)
    requires Model.WellFormed(w) && p < |w.pcs|
    ensures w.pcs[p] == Model.Reading ==>
              match Model.Admitted(w.hub.peers[p], raw)
              case None => Model.DispatchStep(w, p, raw).hub == w.hub
              case Some(env) =>
                var accepted, pc := Model.Accept(w.hub, p, raw, env.nonce), Model.DispatchStep(w, p, raw).pcs[p];
                && Model.DispatchStep(w, p, raw).hub == accepted
                && (pc.Sending? ==> accepted.OpponentOf(p) == Some(pc.to) && pc.seqNo == |w.hub.peers[p].accepted|)
    ensures w.pcs[p].Sending? ==>
              var w' := Model.SendStep(w, p);
              && w'.hub == Model.Deliver(w.hub, p, w.pcs[p].seqNo, w.pcs[p].to)
              && (w'.pcs[p].Evicting? <==> !Model.CanEnqueue(w.hub, w.pcs[p].to))
              && (w'.pcs[p].Evicting? ==> w'.pcs[p].to == w.pcs[p].to)
    ensures w.pcs[p].Evicting? ==> Model.EvictStep(w, p).hub == Model.Leave(w.hub, w.pcs[p].to)
  {
  }

  /** The two steps that may follow a dispatch, with no other step before them. */
  lemma RelaySteps(w: Model.World, p: nat)
    requires Model.WellFormed(w) && p < |w.pcs|
    requires !w.pcs[p].Evicting?
    ensures Model.WellFormed(Model.SendStep(w, p))
    ensures var w3 := Model.EvictStep(Model.SendStep(w, p), p);
      w3 == match w.pcs[p]
            case Sending(to, k, v) =>
              Model.World(if Model.CanEnqueue(w.hub, to) then Model.Deliver(w.hub, p, k, to) else Model.Leave(w.hub, to),
                          w.pcs[p := Model.Resume(v)])
            case _ => w
  {
    Model.SendWellFormed(w, p);
    if w.pcs[p].Sending? {
      var v := w.pcs[p].verdict;
      assert w.pcs[p := Model.Evicting(w.pcs[p].to, v)][p := Model.Resume(v)] == w.pcs[p := Model.Resume(v)];
    }
  }

  /** That is what the dispatching connection's own steps do when no other step comes between them. */
  lemma DispatchWholeIsItsSteps(w: Model.World, p: nat, raw: Raw)
    requires Model.WellFormed(w) && p < |w.pcs| && w.pcs[p] == Model.Reading
    ensures var w1 := Model.Step(w, Model.Dispatches(p, raw));
      Model.WellFormed(w1) && var w2 := Model.Step(w1, Model.Sends(p));
      Model.WellFormed(w2) && var w3 := Model.Step(w2, Model.Evicts(p));
      var (h, r) := DispatchWhole(w.hub, p, raw);
      w3.hub == h && w3.pcs == w.pcs[p := if r == Continue then Model.Reading else Model.Closing]
  {
    var w1 := Model.DispatchStep(w, p, raw);
    Model.DispatchWellFormed(w, p, raw);
    RelaySteps(w1, p);
    if w1.pcs[p].Sending? {
      assert w.hub.OpponentOf(p) == Some(w1.pcs[p].to) == w1.hub.OpponentOf(p);
      assert w1.pcs[p := Model.Resume(w1.pcs[p].verdict)] == w.pcs[p := Model.Resume(w1.pcs[p].verdict)];
    }
  }

  class Hub {
    var rooms: Rooms
    /** Every peer that ever joined, and the state-machine state the objects stand for. */
    ghost var all: seq<Peer>
    ghost var model: Model.Hub

    ghost predicate Valid()
      reads this, all, set p | p in all :: p.guard
    {
      && |all| == |model.peers|
      && (forall i :: 0 <= i < |all| ==> all[i].id == i && all[i].guard.owner == i && Couples(all[i], model.peers[i]))
      && AllSeated(rooms, all, model)
      && Model.RoomsInRange(model)
    }

    ghost predicate Knows(p: Peer)
      reads this
    {
      p.id < |all| && all[p.id] == p
    }

    constructor ()
      ensures Valid() && all == [] && model == Model.Init().hub
    {
      rooms := map[];
      all := [];
      model := Model.Init().hub;
    }

    /** Queue `msg` to a known peer, recording why. */
    method EnqueueTo(to: Peer, msg: Raw, ghost origin: Model.Origin) returns (ok: bool)
      requires Valid() && Knows(to)
      modifies this`model, to`queue
      ensures Valid()
      ensures ok == Model.CanEnqueue(old(model), to.id)
      ensures model == Model.Enqueue(old(model), to.id, Model.Entry(msg, origin))
    {
      ok := to.Enqueue(msg);
      var m := model.peers[to.id];
      assert |RawsOf(m.log[m.taken..])| == |m.log| - m.taken;
      model := Model.Enqueue(model, to.id, Model.Entry(msg, origin));
      if ok {
        var m' := model.peers[to.id];
        assert m'.log[m'.taken..] == m.log[m.taken..] + [Model.Entry(msg, origin)];
      }
      SameRoomsSeats(rooms, all, old(model), model);
    }

    /** Register a fresh peer. */
    method Admit(session: string, role: Role) returns (p: Peer)
      requires Valid() && model.Holder(session, role).None?
      modifies this
      ensures Valid() && fresh(p) && fresh(p.guard)
      ensures p.id == |old(all)| && all == old(all) + [p]
      ensures model == Model.Admit(old(model), session, role)
      ensures session in rooms
    {
      p := new Peer(|all|, session, role);
      var room: map<Role, Peer> := if session in rooms then rooms[session] else map[];
      AdmitSeats(rooms, all, model, session, role, p);
      AdmitInRange(model, session, role);
      rooms := rooms[session := room[role := p]];
      all := all + [p];
      model := Model.Admit(model, session, role);
    }

    /** Refused when the role is taken; otherwise the new peer and the one already there are told of each other. */
    method Join(session: string, role: Role) returns (r: Option<Peer>)
      requires Valid()
      modifies this, all
      ensures Valid()
      ensures r.None? <==> old(model).Holder(session, role).Some?
      ensures r.None? ==> model == old(model) && all == old(all)
      ensures r.Some? ==> fresh(r.value) && fresh(r.value.guard) && all == old(all) + [r.value] && Knows(r.value)
      ensures r.Some? ==> model == Model.Join(old(model), session, role)
    {
      assert Seated(rooms, all, model, session, role);
      if session in rooms && role in rooms[session] {
        return None;
      }
      var p := Admit(session, role);
      assert Seated(rooms, all, model, session, role.Other());
      if role.Other() in rooms[session] {
        Introduce(p, rooms[session][role.Other()], old(model));
      }
      r := Some(p);
    }

    /** The presence exchange between a newcomer and the peer already there. */
    method Introduce(p: Peer, other: Peer, ghost before: Model.Hub)
      requires Valid() && Knows(p) && Knows(other) && other.id < |before.peers| && p != other
      modifies this`model, p`queue, other`queue
      ensures Valid()
      ensures model == Model.Greet(Model.Announce(Model.Announce(old(model), other.id, p.id), p.id, other.id), p.id,
        Model.Greeting(other.id, if Model.CanEnqueue(before, other.id) then Some(|before.peers[other.id].log|) else None))
    {
      var told := EnqueueTo(other, Control(p.sessionId, PeerJoined(p.role)), Model.JoinNote(p.id));
      told := EnqueueTo(p, Control(other.sessionId, PeerJoined(other.role)), Model.JoinNote(other.id));
      ghost var at := if Model.CanEnqueue(before, other.id) then Some(|before.peers[other.id].log|) else None;
      Record(Model.Greet(model, p.id, Model.Greeting(other.id, at)));
    }

    /** Update histories the objects do not hold. */
    ghost method Record(h: Model.Hub)
      requires Valid() && h.rooms == model.rooms && |h.peers| == |model.peers|
      requires forall i :: 0 <= i < |h.peers| ==>
        h.peers[i] == model.peers[i].(greeting := h.peers[i].greeting, accepted := h.peers[i].accepted, fate := h.peers[i].fate)
      modifies this`model
      ensures Valid() && model == h
    {
      SameRoomsSeats(rooms, all, model, h);
      model := h;
    }

    /** Take a registered peer out of its room and close it. */
    method Drop(p: Peer)
      requires Valid() && Knows(p) && model.Registered(p.id)
      modifies this`model, this`rooms, p`open, p`closed
      ensures Valid()
      ensures model == Model.Drop(old(model), p.id)
    {
      DropSeats(rooms, all, model, p.id);
      var room := rooms[p.sessionId] - {p.role};
      if room == map[] {
        rooms := rooms - {p.sessionId};
      } else {
        rooms := rooms[p.sessionId := room];
      }
      p.Close();
      model := Model.Drop(model, p.id);
    }

    /** Nothing unless `p` itself holds its place; otherwise out of its room, closed, and the other side told. */
    method Leave(p: Peer)
      requires Valid() && Knows(p)
      modifies this`model, this`rooms, all
      ensures Valid()
      ensures model == Model.Leave(old(model), p.id)
    {
      assert Seated(rooms, all, model, p.sessionId, p.role);
      if p.sessionId !in rooms || p.role !in rooms[p.sessionId] || rooms[p.sessionId][p.role] != p {
        return;
      }
      Drop(p);
      assert Seated(rooms, all, model, p.sessionId, p.role.Other());
      if p.sessionId in rooms && p.role.Other() in rooms[p.sessionId] {
        var told := EnqueueTo(rooms[p.sessionId][p.role.Other()], Control(p.sessionId, PeerLeft(p.role)), Model.LeftNote(p.id));
      }
    }

    /** The other peer in `from`'s room. */
    method Target(from: Peer) returns (target: Option<Peer>)
      requires Valid() && Knows(from)
      ensures target.None? <==> model.OpponentOf(from.id).None?
      ensures target.Some? ==> Knows(target.value) && model.OpponentOf(from.id) == Some(target.value.id)
    {
      assert Seated(rooms, all, model, from.sessionId, from.role.Other());
      if from.sessionId in rooms && from.role.Other() in rooms[from.sessionId] {
        return Some(rooms[from.sessionId][from.role.Other()]);
      }
      return None;
    }

    /** Send the `k`-th message accepted from `from` to the target chosen for it, whatever became of the target since. */
    method SendTo(from: Peer, to: Peer, raw: Raw, ghost k: nat) returns (ok: bool)
      requires Valid() && Knows(from) && Knows(to)
      requires k < |model.peers[from.id].accepted| == |model.peers[from.id].fate| && model.peers[from.id].accepted[k] == raw
      modifies this`model, to`queue
      ensures Valid()
      ensures ok == Model.CanEnqueue(old(model), to.id)
      ensures model == Model.Deliver(old(model), from.id, k, to.id)
    {
      ghost var delivered := Model.Deliver(model, from.id, k, to.id);
      ok := EnqueueTo(to, raw, Model.Relay(from.id, k));
      if ok {
        Record(delivered);
      }
    }

    /** Forward the `k`-th message accepted from `from`; a target that cannot keep up is disconnected. */
    method Relay(from: Peer, raw: Raw, ghost k: nat)
      requires Valid() && Knows(from)
      requires k < |model.peers[from.id].accepted| == |model.peers[from.id].fate| && model.peers[from.id].accepted[k] == raw
      modifies this`model, this`rooms, all
      ensures Valid()
      ensures model == RelayWhole(old(model), from.id, k)
    {
      var target := Target(from);
      if target.None? {
        return;
      }
      var ok := SendTo(from, target.value, raw, k);
      if !ok {
        Leave(target.value);
      }
    }

    /** Validate and route one inbound message. */
    method Dispatch(p: Peer, raw: Raw) returns (r: DispatchResult)
      requires Valid() && Knows(p)
      requires |model.peers[p.id].accepted| == |model.peers[p.id].fate|
      modifies this`model, this`rooms, all, p.guard
      ensures Valid()
      ensures (model, r) == DispatchWhole(old(model), p.id, raw)
    {
      var env := Parse(raw);
      if env.None? {
        return Reject;
      }
      if env.value.sessionId != p.sessionId {
        return Reject;
      }
      ghost var k := |model.peers[p.id].accepted|;
      var accepted := Accepts(p, raw, env.value.nonce);
      if !accepted {
        return Reject;
      }
      match env.value.payload.value {
        case Heartbeat => return Continue;
        case Bye =>
          Relay(p, raw, k);
          return ByeResult;
        case Offer(_) =>
          Relay(p, raw, k);
          return Continue;
        case Answer(_) =>
          Relay(p, raw, k);
          return Continue;
        case IceCandidate(_, _) =>
          Relay(p, raw, k);
          return Continue;
        case _ => return Reject;
      }
    }

    /** Ask the peer's nonce guard, recording what it lets through. */
    method Accepts(p: Peer, raw: Raw, nonce: u64) returns (ok: bool)
      requires Valid() && Knows(p)
      modifies this`model, p.guard
      ensures Valid()
      ensures ok == Replay.Fresh(old(model).peers[p.id].guard, nonce)
      ensures model == if ok then Model.Accept(old(model), p.id, raw, nonce) else old(model)
    {
      ok := p.guard.Accept(nonce);
      if ok {
        SameRoomsSeats(rooms, all, model, Model.Accept(model, p.id, raw, nonce));
        model := Model.Accept(model, p.id, raw, nonce);
      }
    }

    /** The writer takes a peer's next message. */
    method Drain(p: Peer) returns (msg: Option<Raw>)
      requires Valid() && Knows(p)
      modifies this`model, p`queue
      ensures Valid()
      ensures model == Model.Drain(old(model), p.id)
      ensures var m := old(model).peers[p.id];
        msg == if m.taken < |m.log| then Some(m.log[m.taken].raw) else None
    {
      ghost var m := model.peers[p.id];
      assert |RawsOf(m.log[m.taken..])| == |m.log| - m.taken;
      msg := p.Receive();
      SameRoomsSeats(rooms, all, model, Model.Drain(model, p.id));
      model := Model.Drain(model, p.id);
      assert m.taken < |m.log| ==> RawsOf(m.log[m.taken..])[1..] == RawsOf(m.log[m.taken + 1..]);
    }
  }
}
