/** What every step of the relay keeps, and hence what holds in every run. */
module HubInvariants {
  import opened Basics
  import opened Protocol
  import opened HubModel
  import Replay

  predicate SeatedAs(ps: seq<Peer>, seat: Option<PeerId>, session: string, role: Role) {
    seat.Some? ==>
      seat.value < |ps| && ps[seat.value].session == session && ps[seat.value].role == role && !ps[seat.value].closed
  }

  /** A peer is registered under its own session and role exactly while its channel is open; rooms are never empty. */
  ghost predicate Lifecycle(h: Hub) {
    && (forall s :: s in h.rooms ==>
         && h.rooms[s] != EMPTY_ROOM
         && SeatedAs(h.peers, h.rooms[s].controller, s, Controller)
         && SeatedAs(h.peers, h.rooms[s].agent, s, Agent))
    && (forall p :: 0 <= p < |h.peers| && !h.peers[p].closed ==> h.Registered(p))
  }

  /** Two peers on opposite sides of one session. */
  predicate Opponents(ps: seq<Peer>, p: PeerId, q: PeerId) {
    p < |ps| && q < |ps| && ps[p].session == ps[q].session && ps[p].role == ps[q].role.Other()
  }

  /** Entry `i` of peer `t`'s log is the announcement or the relayed message its origin says it is. */
  predicate EntryJustified(ps: seq<Peer>, t: PeerId, i: nat)
    requires t < |ps| && i < |ps[t].log|
  {
    var e := ps[t].log[i];
    match e.origin
    case JoinNote(who) => Opponents(ps, t, who) && e.raw == Control(ps[t].session, PeerJoined(ps[who].role))
    case LeftNote(who) => Opponents(ps, t, who) && e.raw == Control(ps[t].session, PeerLeft(ps[who].role))
    case Relay(from, k) =>
      && Opponents(ps, t, from)
      && k < |ps[from].accepted| == |ps[from].fate|
      && ps[from].accepted[k] == e.raw
      && ps[from].fate[k] == Some(Place(t, i))
      && Parse(e.raw).Some?
      && Relayable(Parse(e.raw).value.payload.value)
  }

  ghost predicate Routing(ps: seq<Peer>) {
    forall t, i :: 0 <= t < |ps| && 0 <= i < |ps[t].log| ==> EntryJustified(ps, t, i)
  }

  /** Messages of one sender appear in a log in the order they were accepted. */
  predicate InOrder(log: seq<Entry>) {
    forall i, j :: 0 <= i < j < |log| && log[i].origin.Relay? && log[j].origin.Relay? ==>
      log[i].origin.from == log[j].origin.from ==> log[i].origin.seqNo < log[j].origin.seqNo
  }

  function Nonce(raw: Raw): u64 {
    if Parse(raw).Some? then Parse(raw).value.nonce else 0
  }

  /** What a peer's guard let through: valid messages for its session, nonces rising to the guard's own. */
  predicate GuardHistory(me: Peer) {
    && |me.accepted| == |me.fate|
    && (forall k :: 0 <= k < |me.accepted| ==> Parse(me.accepted[k]).Some? && Parse(me.accepted[k]).value.sessionId == me.session)
    && (forall j, k :: 0 <= j < k < |me.accepted| ==> Nonce(me.accepted[j]) < Nonce(me.accepted[k]))
    && me.guard == (if me.accepted == [] then None else Some(Nonce(me.accepted[|me.accepted| - 1])))
  }

  ghost predicate Histories(ps: seq<Peer>) {
    forall p :: 0 <= p < |ps| ==> InOrder(ps[p].log) && GuardHistory(ps[p])
  }

  /** The announcements made when `n` joined a peer already there are where its greeting says. */
  predicate Greeted(ps: seq<Peer>, n: PeerId)
    requires n < |ps|
  {
    ps[n].greeting.Some? ==>
      var g := ps[n].greeting.value;
      && Opponents(ps, n, g.older)
      && g.older < n
      && |ps[n].log| > 0
      && ps[n].log[0] == Entry(Control(ps[n].session, PeerJoined(ps[g.older].role)), JoinNote(g.older))
      && (g.at.Some? ==>
           && g.at.value < |ps[g.older].log|
           && ps[g.older].log[g.at.value] == Entry(Control(ps[n].session, PeerJoined(ps[n].role)), JoinNote(n))
           && forall j :: 0 <= j <= g.at.value ==>
                !(ps[g.older].log[j].origin.Relay? && ps[g.older].log[j].origin.from == n))
  }

  ghost predicate Presence(ps: seq<Peer>) {
    forall n :: 0 <= n < |ps| ==> Greeted(ps, n)
  }

  /** The newest accepted message of `from`, not yet placed anywhere, is on its way to an opponent. */
  ghost predicate Deliverable(ps: seq<Peer>, from: PeerId, k: nat, to: PeerId) {
    && Opponents(ps, from, to)
    && k + 1 == |ps[from].accepted| == |ps[from].fate|
    && ps[from].fate[k] == None
    && Parse(ps[from].accepted[k]).Some?
    && Relayable(Parse(ps[from].accepted[k]).value.payload.value)
  }

  /** What a goroutine inside a relay relies on. */
  ghost predicate PcJustified(ps: seq<Peer>, p: PeerId, pc: Pc) {
    match pc
    case Sending(to, k, _) => Deliverable(ps, p, k, to)
    case Evicting(to, _) => Opponents(ps, p, to)
    case _ => true
  }

  ghost predicate Pending(w: World) {
    && |w.pcs| == |w.hub.peers|
    && forall p :: 0 <= p < |w.pcs| ==> PcJustified(w.hub.peers, p, w.pcs[p])
  }

  ghost predicate HubInv(h: Hub) {
    RoomsInRange(h) && Lifecycle(h) && Routing(h.peers) && Histories(h.peers) && Presence(h.peers)
  }

  ghost predicate Inv(w: World) {
    WellFormed(w) && HubInv(w.hub) && Pending(w)
  }

  // ---------- the lifecycle ----------

  lemma AdmitLifecycle(h: Hub, session: string, role: Role)
    requires Lifecycle(h) && h.Holder(session, role).None?
    ensures Lifecycle(Admit(h, session, role))
  {
    var h' := Admit(h, session, role);
    forall s | s in h'.rooms
      ensures h'.rooms[s] != EMPTY_ROOM
      ensures SeatedAs(h'.peers, h'.rooms[s].controller, s, Controller) && SeatedAs(h'.peers, h'.rooms[s].agent, s, Agent)
    {
      if s in h.rooms {
        assert SeatedAs(h.peers, h.rooms[s].controller, s, Controller) && SeatedAs(h.peers, h.rooms[s].agent, s, Agent);
      }
    }
    forall p | 0 <= p < |h'.peers| && !h'.peers[p].closed ensures h'.Registered(p) {
      if p < |h.peers| { assert h.Registered(p); }
    }
  }

  lemma DropLifecycle(h: Hub, p: PeerId)
    requires Lifecycle(h) && p < |h.peers| && h.Registered(p)
    ensures Lifecycle(Drop(h, p))
  {
    var me, h' := h.peers[p], Drop(h, p);
    forall s | s in h'.rooms
      ensures h'.rooms[s] != EMPTY_ROOM
      ensures SeatedAs(h'.peers, h'.rooms[s].controller, s, Controller) && SeatedAs(h'.peers, h'.rooms[s].agent, s, Agent)
    {
      assert SeatedAs(h.peers, h.rooms[s].controller, s, Controller) && SeatedAs(h.peers, h.rooms[s].agent, s, Agent);
      if s == me.session { assert h'.rooms[s].Get(me.role) == None; }
    }
    forall q | 0 <= q < |h'.peers| && !h'.peers[q].closed ensures h'.Registered(q) {
      assert h.Registered(q) && q != p;
    }
  }

  /** Rooms and channels look only at who a peer is and whether it is closed. */
  lemma SamePeersLifecycle(h: Hub, h': Hub)
    requires Lifecycle(h) && h'.rooms == h.rooms && |h'.peers| == |h.peers|
    requires forall p :: 0 <= p < |h.peers| ==>
      h'.peers[p].session == h.peers[p].session && h'.peers[p].role == h.peers[p].role &&
      h'.peers[p].closed == h.peers[p].closed
    ensures Lifecycle(h')
  {
    forall p | 0 <= p < |h.peers| && !h'.peers[p].closed ensures h'.Registered(p) {
      assert h.Registered(p);
    }
  }

  // ---------- a note queued to a peer ----------

  function Note(ps: seq<Peer>, who: PeerId, joined: bool): Entry
    requires who < |ps|
  {
    if joined then Entry(Control(ps[who].session, PeerJoined(ps[who].role)), JoinNote(who))
    else Entry(Control(ps[who].session, PeerLeft(ps[who].role)), LeftNote(who))
  }

  lemma NoteRouting(h: Hub, to: PeerId, who: PeerId, joined: bool)
    requires Routing(h.peers) && Opponents(h.peers, to, who)
    ensures Routing(Enqueue(h, to, Note(h.peers, who, joined)).peers)
  {
    var ps, ps' := h.peers, Enqueue(h, to, Note(h.peers, who, joined)).peers;
    forall t, i | 0 <= t < |ps'| && 0 <= i < |ps'[t].log| ensures EntryJustified(ps', t, i) {
      if i < |ps[t].log| { assert EntryJustified(ps, t, i); }
    }
  }

  lemma NoteHistories(h: Hub, to: PeerId, who: PeerId, joined: bool)
    requires Histories(h.peers) && to < |h.peers| && who < |h.peers|
    ensures Histories(Enqueue(h, to, Note(h.peers, who, joined)).peers)
  {
    var ps, ps' := h.peers, Enqueue(h, to, Note(h.peers, who, joined)).peers;
    assert InOrder(ps[to].log) && GuardHistory(ps[to]);
  }

  lemma NotePresence(h: Hub, to: PeerId, who: PeerId, joined: bool)
    requires Presence(h.peers) && to < |h.peers| && who < |h.peers|
    ensures Presence(Enqueue(h, to, Note(h.peers, who, joined)).peers)
  {
    var ps, ps' := h.peers, Enqueue(h, to, Note(h.peers, who, joined)).peers;
    forall n | 0 <= n < |ps'| ensures Greeted(ps', n) {
      assert Greeted(ps, n);
    }
  }

  lemma NoteKeeps(h: Hub, to: PeerId, who: PeerId, joined: bool)
    requires HubInv(h) && Opponents(h.peers, to, who)
    ensures HubInv(Enqueue(h, to, Note(h.peers, who, joined)))
  {
    NoteRouting(h, to, who, joined);
    NoteHistories(h, to, who, joined);
    NotePresence(h, to, who, joined);
    SamePeersLifecycle(h, Enqueue(h, to, Note(h.peers, who, joined)));
  }

  // ---------- joining and leaving ----------

  /** Every log is as it was, and accepted messages and their fates only got longer. */
  ghost predicate SameLogs(ps: seq<Peer>, ps': seq<Peer>) {
    && |ps| <= |ps'|
    && (forall p :: 0 <= p < |ps| ==>
         && ps'[p].session == ps[p].session && ps'[p].role == ps[p].role && ps'[p].log == ps[p].log
         && ps[p].accepted <= ps'[p].accepted && ps[p].fate <= ps'[p].fate
         && |ps'[p].accepted| == |ps'[p].fate|)
    && (forall p :: |ps| <= p < |ps'| ==> ps'[p].log == [] && ps'[p].greeting == None)
  }

  lemma SameLogsRouting(ps: seq<Peer>, ps': seq<Peer>)
    requires Routing(ps) && SameLogs(ps, ps')
    ensures Routing(ps')
  {
    forall t, i | 0 <= t < |ps'| && 0 <= i < |ps'[t].log| ensures EntryJustified(ps', t, i) {
      assert EntryJustified(ps, t, i);
    }
  }

  lemma SameLogsGreeted(ps: seq<Peer>, ps': seq<Peer>, n: PeerId)
    requires n < |ps'| && SameLogs(ps, ps') && (n < |ps| ==> Greeted(ps, n) && ps'[n].greeting == ps[n].greeting)
    ensures Greeted(ps', n)
  {
  }

  lemma SameLogsKeep(ps: seq<Peer>, ps': seq<Peer>)
    requires Histories(ps) && Presence(ps) && SameLogs(ps, ps')
    requires forall p :: 0 <= p < |ps'| ==> GuardHistory(ps'[p])
    requires forall p :: 0 <= p < |ps| ==> ps'[p].greeting == ps[p].greeting
    ensures Histories(ps') && Presence(ps')
  {
    forall p | 0 <= p < |ps'| ensures InOrder(ps'[p].log) {
      if p < |ps| { assert InOrder(ps[p].log); }
    }
    forall n | 0 <= n < |ps'| ensures Greeted(ps', n) { SameLogsGreeted(ps, ps', n); }
  }

  lemma AdmitKeeps(h: Hub, session: string, role: Role)
    requires HubInv(h) && h.Holder(session, role).None?
    ensures HubInv(Admit(h, session, role))
  {
    var ps, ps' := h.peers, Admit(h, session, role).peers;
    AdmitLifecycle(h, session, role);
    forall p | 0 <= p < |ps'| ensures GuardHistory(ps'[p]) {
      if p < |ps| { assert GuardHistory(ps[p]); }
    }
    SameLogsRouting(ps, ps');
    SameLogsKeep(ps, ps');
  }

  lemma GreetShape(h: Hub, p: PeerId, g: Greeting)
    requires p < |h.peers| && Histories(h.peers)
    ensures SameLogs(h.peers, Greet(h, p, g).peers) && Histories(Greet(h, p, g).peers)
  {
    var ps, ps' := h.peers, Greet(h, p, g).peers;
    forall q | 0 <= q < |ps'| ensures InOrder(ps'[q].log) && GuardHistory(ps'[q]) {
      assert InOrder(ps[q].log) && GuardHistory(ps[q]);
    }
  }

  lemma GreetKeeps(h: Hub, p: PeerId, g: Greeting)
    requires HubInv(h) && p < |h.peers| && Greeted(Greet(h, p, g).peers, p)
    ensures HubInv(Greet(h, p, g))
  {
    var ps, ps' := h.peers, Greet(h, p, g).peers;
    SamePeersLifecycle(h, Greet(h, p, g));
    GreetShape(h, p, g);
    SameLogsRouting(ps, ps');
    forall n | 0 <= n < |ps'| ensures Greeted(ps', n) { if n != p { SameLogsGreeted(ps, ps', n); } }
  }

  /** No log mentions a peer that has not joined yet. */
  lemma NotYetMentioned(h: Hub, t: PeerId, i: nat)
    requires Routing(h.peers) && t < |h.peers| && i < |h.peers[t].log|
    ensures h.peers[t].log[i].origin.Relay? ==> h.peers[t].log[i].origin.from < |h.peers|
  {
    assert EntryJustified(h.peers, t, i);
  }

  /** The announcements of a join are where the newcomer's greeting says. */
  lemma JoinGreets(h: Hub, session: string, role: Role, older: PeerId)
    requires RoomsInRange(h) && Routing(h.peers) && h.Holder(session, role.Other()) == Some(older)
    requires older < |h.peers| && h.peers[older].session == session && h.peers[older].role == role.Other()
    ensures Greeted(Join(h, session, role).peers, |h.peers|)
  {
    forall j | 0 <= j < |h.peers[older].log|
      ensures h.peers[older].log[j].origin.Relay? ==> h.peers[older].log[j].origin.from != |h.peers|
    {
      NotYetMentioned(h, older, j);
    }
  }

  lemma JoinKeeps(h: Hub, session: string, role: Role)
    requires HubInv(h) && h.Holder(session, role).None?
    ensures HubInv(Join(h, session, role))
  {
    var p, h1 := |h.peers|, Admit(h, session, role);
    AdmitKeeps(h, session, role);
    match h.Holder(session, role.Other())
    case None =>
    case Some(older) =>
      JoinGreets(h, session, role, older);
      NoteKeeps(h1, older, p, true);
      var h2 := Announce(h1, older, p);
      NoteKeeps(h2, p, older, true);
      var at := if CanEnqueue(h, older) then Some(|h.peers[older].log|) else None;
      GreetKeeps(Announce(h2, p, older), p, Greeting(older, at));
  }

  /** Changing nothing but whether a peer is closed, or how much its writer took, keeps all but the lifecycle. */
  lemma TouchKeeps(ps: seq<Peer>, p: PeerId, closed: bool, taken: nat)
    requires Routing(ps) && Histories(ps) && Presence(ps) && p < |ps|
    ensures var ps' := ps[p := ps[p].(closed := closed, taken := taken)];
      Routing(ps') && Histories(ps') && Presence(ps')
  {
    var ps' := ps[p := ps[p].(closed := closed, taken := taken)];
    forall q | 0 <= q < |ps'| ensures GuardHistory(ps'[q]) { assert GuardHistory(ps[q]); }
    SameLogsRouting(ps, ps');
    SameLogsKeep(ps, ps');
  }

  lemma DropKeeps(h: Hub, p: PeerId)
    requires HubInv(h) && p < |h.peers| && h.Registered(p)
    ensures HubInv(Drop(h, p))
  {
    DropLifecycle(h, p);
    TouchKeeps(h.peers, p, true, h.peers[p].taken);
    assert Drop(h, p).peers == h.peers[p := h.peers[p].(closed := true, taken := h.peers[p].taken)];
  }

  lemma LeaveKeeps(h: Hub, p: PeerId)
    requires HubInv(h) && p < |h.peers|
    ensures HubInv(Leave(h, p))
  {
    if h.Registered(p) {
      DropKeeps(h, p);
      match h.OpponentOf(p)
      case None =>
      case Some(other) => NoteKeeps(Drop(h, p), other, p, false);
    }
  }

  // ---------- messages ----------

  lemma AcceptGuard(me: Peer, raw: Raw)
    requires GuardHistory(me) && Admitted(me, raw).Some?
    ensures GuardHistory(me.(guard := Some(Nonce(raw)), accepted := me.accepted + [raw], fate := me.fate + [None]))
  {
  }

  lemma AcceptKeeps(h: Hub, p: PeerId, raw: Raw)
    requires HubInv(h) && p < |h.peers| && Admitted(h.peers[p], raw).Some?
    ensures HubInv(Accept(h, p, raw, Nonce(raw)))
  {
    var h' := Accept(h, p, raw, Nonce(raw));
    var ps, ps' := h.peers, h'.peers;
    SamePeersLifecycle(h, h');
    forall q | 0 <= q < |ps'| ensures GuardHistory(ps'[q]) {
      assert GuardHistory(ps[q]);
      if q == p { AcceptGuard(ps[p], raw); }
    }
    SameLogsRouting(ps, ps');
    SameLogsKeep(ps, ps');
  }

  lemma DeliverEntry(h: Hub, from: PeerId, k: nat, to: PeerId, t: PeerId, i: nat)
    requires Routing(h.peers) && Deliverable(h.peers, from, k, to) && t < |h.peers| && i < |h.peers[t].log|
    ensures var ps' := Deliver(h, from, k, to).peers; t < |ps'| && i < |ps'[t].log| && EntryJustified(ps', t, i)
  {
    assert EntryJustified(h.peers, t, i);
  }

  lemma DeliveredEntry(h: Hub, from: PeerId, k: nat, to: PeerId)
    requires Deliverable(h.peers, from, k, to) && CanEnqueue(h, to)
    ensures var ps' := Deliver(h, from, k, to).peers; var i := |h.peers[to].log|;
      to < |ps'| && i < |ps'[to].log| && EntryJustified(ps', to, i)
  {
  }

  lemma DeliverRouting(h: Hub, from: PeerId, k: nat, to: PeerId)
    requires Routing(h.peers) && Deliverable(h.peers, from, k, to)
    ensures Routing(Deliver(h, from, k, to).peers)
  {
    var ps, ps' := h.peers, Deliver(h, from, k, to).peers;
    forall t, i | 0 <= t < |ps'| && 0 <= i < |ps'[t].log| ensures EntryJustified(ps', t, i) {
      if i < |ps[t].log| { DeliverEntry(h, from, k, to, t, i); } else { DeliveredEntry(h, from, k, to); }
    }
  }

  lemma DeliverHistories(h: Hub, from: PeerId, k: nat, to: PeerId)
    requires Routing(h.peers) && Histories(h.peers) && Deliverable(h.peers, from, k, to)
    ensures Histories(Deliver(h, from, k, to).peers)
  {
    var ps, ps' := h.peers, Deliver(h, from, k, to).peers;
    assert InOrder(ps[to].log) && GuardHistory(ps[from]);
    forall i | 0 <= i < |ps[to].log| && ps[to].log[i].origin.Relay? && ps[to].log[i].origin.from == from
      ensures ps[to].log[i].origin.seqNo < k
    {
      assert EntryJustified(ps, to, i);
    }
    assert InOrder(ps'[to].log);
  }

  lemma DeliverPresence(h: Hub, from: PeerId, k: nat, to: PeerId)
    requires Presence(h.peers) && Deliverable(h.peers, from, k, to)
    ensures Presence(Deliver(h, from, k, to).peers)
  {
    var ps, ps' := h.peers, Deliver(h, from, k, to).peers;
    forall n | 0 <= n < |ps'| ensures Greeted(ps', n) {
      assert Greeted(ps, n);
    }
  }

  lemma DeliverLifecycle(h: Hub, from: PeerId, k: nat, to: PeerId)
    requires RoomsInRange(h) && Lifecycle(h) && Deliverable(h.peers, from, k, to)
    ensures RoomsInRange(Deliver(h, from, k, to)) && Lifecycle(Deliver(h, from, k, to))
  {
    SamePeersLifecycle(h, Deliver(h, from, k, to));
  }

  lemma DeliverKeeps(h: Hub, from: PeerId, k: nat, to: PeerId)
    requires HubInv(h) && Deliverable(h.peers, from, k, to)
    ensures HubInv(Deliver(h, from, k, to))
  {
    DeliverRouting(h, from, k, to);
    DeliverHistories(h, from, k, to);
    DeliverPresence(h, from, k, to);
    DeliverLifecycle(h, from, k, to);
  }

  lemma DrainTouches(h: Hub, p: PeerId)
    requires p < |h.peers| && h.peers[p].taken < |h.peers[p].log|
    ensures Drain(h, p).rooms == h.rooms
    ensures Drain(h, p).peers == h.peers[p := h.peers[p].(closed := h.peers[p].closed, taken := h.peers[p].taken + 1)]
  {
  }

  lemma DrainKeeps(h: Hub, p: PeerId)
    requires HubInv(h) && p < |h.peers|
    ensures HubInv(Drain(h, p))
  {
    if h.peers[p].taken < |h.peers[p].log| {
      DrainTouches(h, p);
      TouchKeeps(h.peers, p, h.peers[p].closed, h.peers[p].taken + 1);
      SamePeersLifecycle(h, Drain(h, p));
    }
  }

  // ---------- steps ----------

  /** A goroutine inside a relay stays entitled to go on while its peer's accepted messages and fates are left alone. */
  lemma PcKept(ps: seq<Peer>, ps': seq<Peer>, p: PeerId, pc: Pc)
    requires PcJustified(ps, p, pc) && p < |ps| <= |ps'|
    requires forall q :: 0 <= q < |ps| ==> ps'[q].session == ps[q].session && ps'[q].role == ps[q].role
    requires ps'[p].accepted == ps[p].accepted && ps'[p].fate == ps[p].fate
    ensures PcJustified(ps', p, pc)
  {
  }

  lemma PendingKept(w: World, w': World)
    requires Pending(w) && Extends(w.hub, w'.hub) && |w'.pcs| == |w'.hub.peers|
    requires forall p :: 0 <= p < |w.pcs| ==> w'.hub.peers[p].fate == w.hub.peers[p].fate
    requires forall p :: 0 <= p < |w'.pcs| ==>
      (p < |w.pcs| && w'.pcs[p] == w.pcs[p]) || (!w'.pcs[p].Sending? && !w'.pcs[p].Evicting?)
    ensures Pending(w')
  {
    forall p | 0 <= p < |w'.pcs| ensures PcJustified(w'.hub.peers, p, w'.pcs[p]) {
      if p < |w.pcs| && w'.pcs[p] == w.pcs[p] { PcKept(w.hub.peers, w'.hub.peers, p, w.pcs[p]); }
    }
  }

  lemma JoinFates(h: Hub, session: string, role: Role)
    requires RoomsInRange(h)
    ensures forall p :: 0 <= p < |h.peers| ==> Join(h, session, role).peers[p].fate == h.peers[p].fate
  {
  }

  lemma LeaveFates(h: Hub, p: PeerId)
    requires RoomsInRange(h) && p < |h.peers|
    ensures forall q :: 0 <= q < |h.peers| ==> Leave(h, p).peers[q].fate == h.peers[q].fate
  {
  }

  lemma JoinStepKeeps(w: World, session: string, role: Role)
    requires Inv(w)
    ensures Inv(JoinStep(w, session, role))
  {
    if w.hub.Holder(session, role).None? {
      JoinWellFormed(w, session, role);
      JoinKeeps(w.hub, session, role);
      JoinExtends(w.hub, session, role);
      JoinFates(w.hub, session, role);
      PendingKept(w, JoinStep(w, session, role));
    }
  }

  lemma LeaveStepKeeps(w: World, p: PeerId, target: PeerId, pc: Pc)
    requires Inv(w) && p < |w.pcs| && target < |w.pcs| && !pc.Sending? && !pc.Evicting?
    ensures var w' := World(Leave(w.hub, target), w.pcs[p := pc]); HubInv(w'.hub) && Pending(w')
  {
    LeaveKeeps(w.hub, target);
    LeaveExtends(w.hub, target);
    LeaveFates(w.hub, target);
    PendingKept(w, World(Leave(w.hub, target), w.pcs[p := pc]));
  }

  /** One goroutine moves on; only its own peer's accepted messages and fates may have changed. */
  lemma PendingBut(w: World, w': World, p: PeerId)
    requires Pending(w) && |w'.pcs| == |w'.hub.peers| == |w.pcs| && p < |w.pcs|
    requires forall q :: 0 <= q < |w.pcs| ==>
      w'.hub.peers[q].session == w.hub.peers[q].session && w'.hub.peers[q].role == w.hub.peers[q].role
    requires forall q :: 0 <= q < |w.pcs| && q != p ==>
      && w'.pcs[q] == w.pcs[q]
      && w'.hub.peers[q].accepted == w.hub.peers[q].accepted && w'.hub.peers[q].fate == w.hub.peers[q].fate
    requires PcJustified(w'.hub.peers, p, w'.pcs[p])
    ensures Pending(w')
  {
    forall q | 0 <= q < |w'.pcs| ensures PcJustified(w'.hub.peers, q, w'.pcs[q]) {
      if q != p { PcKept(w.hub.peers, w'.hub.peers, q, w.pcs[q]); }
    }
  }

  /** The opponent a peer finds in its room is across the session from it. */
  lemma OpponentsMeet(h: Hub, p: PeerId)
    requires Lifecycle(h) && p < |h.peers| && h.OpponentOf(p).Some?
    ensures Opponents(h.peers, p, h.OpponentOf(p).value)
  {
  }

  lemma DispatchPc(w: World, p: PeerId, raw: Raw)
    requires Inv(w) && p < |w.pcs| && w.pcs[p] == Reading && Admitted(w.hub.peers[p], raw).Some?
    ensures var w' := DispatchStep(w, p, raw); PcJustified(w'.hub.peers, p, w'.pcs[p])
  {
    assert GuardHistory(w.hub.peers[p]);
    if w.hub.OpponentOf(p).Some? { OpponentsMeet(w.hub, p); }
  }

  lemma DispatchPending(w: World, p: PeerId, raw: Raw)
    requires Inv(w) && p < |w.pcs|
    ensures Pending(DispatchStep(w, p, raw))
  {
    if w.pcs[p] == Reading {
      if Admitted(w.hub.peers[p], raw).Some? { DispatchPc(w, p, raw); }
      PendingBut(w, DispatchStep(w, p, raw), p);
    }
  }

  lemma DispatchStepKeeps(w: World, p: PeerId, raw: Raw)
    requires Inv(w)
    ensures Inv(DispatchStep(w, p, raw))
  {
    DispatchWellFormed(w, p, raw);
    if p < |w.pcs| && w.pcs[p] == Reading {
      DispatchPending(w, p, raw);
      if Admitted(w.hub.peers[p], raw).Some? { AcceptKeeps(w.hub, p, raw); }
    }
  }

  lemma SendPending(w: World, p: PeerId)
    requires Pending(w) && WellFormed(w) && p < |w.pcs| && w.pcs[p].Sending?
    ensures Pending(SendStep(w, p))
  {
    assert PcJustified(w.hub.peers, p, w.pcs[p]);
    PendingBut(w, SendStep(w, p), p);
  }

  lemma SendStepKeeps(w: World, p: PeerId)
    requires Inv(w)
    ensures Inv(SendStep(w, p))
  {
    SendWellFormed(w, p);
    if p < |w.pcs| && w.pcs[p].Sending? {
      assert PcJustified(w.hub.peers, p, w.pcs[p]);
      SendPending(w, p);
      DeliverKeeps(w.hub, p, w.pcs[p].seqNo, w.pcs[p].to);
    }
  }

  lemma DrainStepKeeps(w: World, p: PeerId)
    requires Inv(w)
    ensures Inv(DrainStep(w, p))
  {
    DrainWellFormed(w, p);
    if p < |w.pcs| {
      DrainKeeps(w.hub, p);
      DrainPending(w, p);
    }
  }

  lemma DrainPending(w: World, p: PeerId)
    requires Pending(w) && WellFormed(w) && p < |w.pcs|
    ensures Pending(DrainStep(w, p)) && Pending(HangUpStep(w, p))
  {
    PcKept(w.hub.peers, DrainStep(w, p).hub.peers, p, w.pcs[p]);
    PendingBut(w, DrainStep(w, p), p);
    PendingBut(w, HangUpStep(w, p), p);
  }

  lemma StepKeeps(w: World, e: Event)
    requires Inv(w)
    ensures Inv(Step(w, e))
  {
    match e
    case Joins(session, role) => JoinStepKeeps(w, session, role);
    case Dispatches(p, raw) => DispatchStepKeeps(w, p, raw);
    case Sends(p) => SendStepKeeps(w, p);
    case Evicts(p) =>
      LeaveWellFormed(w, p);
      if p < |w.pcs| && w.pcs[p].Evicting? { LeaveStepKeeps(w, p, w.pcs[p].to, Resume(w.pcs[p].verdict)); }
    case HangsUp(p) =>
      DrainWellFormed(w, p);
      if p < |w.pcs| { DrainPending(w, p); }
    case CleansUp(p) =>
      LeaveWellFormed(w, p);
      if p < |w.pcs| { LeaveStepKeeps(w, p, p, Gone); }
    case Drains(p) => DrainStepKeeps(w, p);
  }

  /** Every state of every run satisfies the invariant. */
  lemma {:induction false} RunKeeps(events: seq<Event>)
    ensures Inv(Run(events))
  {
    if events != [] {
      var last := |events| - 1;
      RunKeeps(events[..last]);
      StepKeeps(Run(events[..last]), events[last]);
    }
  }
}
