/** What the relay promises, for every run of interleaved steps. */
module HubTheorems {
  import opened Basics
  import opened Protocol
  import opened HubModel
  import opened HubInvariants

  function HubAfter(events: seq<Event>): Hub {
    Run(events).hub
  }

  // ---------- rooms and channels ----------

  /** A peer holds its own role in its own session exactly while its channel is open. */
  lemma RegisteredIffOpen(events: seq<Event>, p: PeerId)
    requires p < |HubAfter(events).peers|
    ensures HubAfter(events).Registered(p) <==> !HubAfter(events).peers[p].closed
  {
    RunKeeps(events);
  }

  /** Rooms are never empty, and a role in a session is held by at most one open peer, who has that role and session. */
  lemma RoomsAreSound(events: seq<Event>, session: string)
    ensures var h := HubAfter(events); session in h.rooms <==>
      exists p :: 0 <= p < |h.peers| && h.peers[p].session == session && !h.peers[p].closed
    ensures var ps := HubAfter(events).peers;
      forall p, q :: 0 <= p < q < |ps| && ps[p].session == ps[q].session && ps[p].role == ps[q].role ==>
        ps[p].closed || ps[q].closed
  {
    RunKeeps(events);
    var h := HubAfter(events);
    if session in h.rooms {
      var room := h.rooms[session];
      var p := if room.controller.Some? then room.controller.value else room.agent.value;
      assert h.peers[p].session == session && !h.peers[p].closed;
    }
    forall p | 0 <= p < |h.peers| && !h.peers[p].closed ensures h.Registered(p) {}
  }

  lemma LeaveSpares(h: Hub, p: PeerId, q: PeerId)
    requires RoomsInRange(h) && Lifecycle(h) && p < |h.peers| && q < |h.peers| && q != p && h.Registered(q)
    ensures q < |Leave(h, p).peers| && Leave(h, p).Registered(q)
  {
  }

  /** A run that is another with one more event ends a step later. */
  lemma RunStep(longer: seq<Event>, events: seq<Event>, e: Event)
    requires longer == events + [e]
    ensures Run(longer) == Step(Run(events), e)
  {
    assert longer[..|longer| - 1] == events;
  }

  lemma OneMore(events: seq<Event>, e: Event)
    ensures Run(events + [e]) == Step(Run(events), e)
  {
    RunStep(events + [e], events, e);
  }

  lemma EvictingLeaves(w: World, p: PeerId)
    requires WellFormed(w) && p < |w.pcs| && w.pcs[p].Evicting? && w.pcs[p].to < |w.hub.peers|
    ensures Step(w, Evicts(p)).hub == Leave(w.hub, w.pcs[p].to)
  {
  }

  /** Evicting a target takes away no registration but the target's own; a target already replaced is left alone altogether. */
  lemma EvictionSparesOthers(events: seq<Event>, p: PeerId, to: PeerId, q: PeerId)
    requires p < |Run(events).pcs| && Run(events).pcs[p].Evicting? && Run(events).pcs[p].to == to < |HubAfter(events).peers|
    requires q < |HubAfter(events).peers| && HubAfter(events).Registered(q) && q != to
    ensures var h' := HubAfter(events + [Evicts(p)]); q < |h'.peers| && h'.Registered(q)
    ensures !HubAfter(events).Registered(to) ==> HubAfter(events + [Evicts(p)]) == HubAfter(events)
  {
    OneMore(events, Evicts(p));
    EvictingLeaves(Run(events), p);
    RunKeeps(events);
    LeaveSpares(HubAfter(events), to, q);
  }

  /** What a step may do to the peers already there. */
  ghost predicate Evolves(h: Hub, h': Hub) {
    && |h.peers| <= |h'.peers|
    && forall p :: 0 <= p < |h.peers| ==> PeerEvolves(h.peers[p], h'.peers[p])
  }

  /** Histories only grow, a closed peer stays closed and gets nothing more, and a greeting is never rewritten. */
  ghost predicate PeerEvolves(me: Peer, me': Peer) {
    && me'.session == me.session && me'.role == me.role
    && me.log <= me'.log && me.accepted <= me'.accepted && me.taken <= me'.taken
    && me'.greeting == me.greeting
    && (me.closed ==> me'.closed && me'.log == me.log)
  }

  lemma EnqueueEvolves(h: Hub, to: PeerId, e: Entry)
    requires to < |h.peers|
    ensures Evolves(h, Enqueue(h, to, e))
  {
  }

  lemma EvolvesTransitive(h: Hub, h': Hub, h'': Hub)
    requires Evolves(h, h') && Evolves(h', h'')
    ensures Evolves(h, h'')
  {
    forall p | 0 <= p < |h.peers| ensures PeerEvolves(h.peers[p], h''.peers[p]) {
      assert PeerEvolves(h.peers[p], h'.peers[p]) && PeerEvolves(h'.peers[p], h''.peers[p]);
    }
  }

  lemma JoinEvolves(h: Hub, session: string, role: Role)
    requires RoomsInRange(h)
    ensures Evolves(h, Join(h, session, role))
  {
    var p, h1 := |h.peers|, Admit(h, session, role);
    match h.Holder(session, role.Other())
    case None =>
    case Some(older) =>
      EnqueueEvolves(h1, older, Entry(Control(session, PeerJoined(role)), JoinNote(p)));
      var h2 := Announce(h1, older, p);
      EnqueueEvolves(h2, p, Entry(Control(session, PeerJoined(role.Other())), JoinNote(older)));
      EvolvesTransitive(h1, h2, Announce(h2, p, older));
  }

  lemma LeaveEvolves(h: Hub, p: PeerId)
    requires RoomsInRange(h) && p < |h.peers|
    ensures Evolves(h, Leave(h, p))
  {
    if h.Registered(p) && h.OpponentOf(p).Some? {
      var h1 := Drop(h, p);
      EnqueueEvolves(h1, h.OpponentOf(p).value, Entry(Control(h.peers[p].session, PeerLeft(h.peers[p].role)), LeftNote(p)));
      EvolvesTransitive(h, h1, Leave(h, p));
    }
  }

  lemma DeliverEvolves(h: Hub, from: PeerId, k: nat, to: PeerId)
    requires from < |h.peers| && to < |h.peers| && k < |h.peers[from].accepted| && k < |h.peers[from].fate|
    ensures Evolves(h, Deliver(h, from, k, to))
  {
  }

  lemma StepEvolves(w: World, e: Event)
    requires WellFormed(w)
    ensures Evolves(w.hub, Step(w, e).hub)
  {
    match e
    case Joins(session, role) => JoinEvolves(w.hub, session, role);
    case Evicts(p) => if p < |w.pcs| && w.pcs[p].Evicting? { LeaveEvolves(w.hub, w.pcs[p].to); }
    case CleansUp(p) => if p < |w.pcs| { LeaveEvolves(w.hub, p); }
    case Sends(p) => if p < |w.pcs| && w.pcs[p].Sending? { DeliverEvolves(w.hub, p, w.pcs[p].seqNo, w.pcs[p].to); }
    case _ =>
  }

  /** However a run goes on, queued messages stay where they are and nothing is sent to a closed channel. */
  lemma {:induction false} RunEvolves(events: seq<Event>, more: seq<Event>)
    ensures Evolves(HubAfter(events), HubAfter(events + more))
  {
    if more == [] {
      assert events + more == events;
    } else {
      var before := more[..|more| - 1];
      RunEvolves(events, before);
      RunLast(events, more);
      StepEvolves(Run(events + before), more[|more| - 1]);
      EvolvesTransitive(HubAfter(events), HubAfter(events + before), HubAfter(events + more));
    }
  }

  // ---------- routing ----------

  /**
   Every message ever queued to a peer is a presence note about an opponent, or the very message, nonce and all, that an
   opposite-role peer of the same session sent for that session and that got past its nonce guard.
   */
  lemma OutboundProvenance(events: seq<Event>, t: PeerId, i: nat)
    requires t < |HubAfter(events).peers| && i < |HubAfter(events).peers[t].log|
    ensures var ps := HubAfter(events).peers; var e := ps[t].log[i];
      match e.origin
      case JoinNote(who) => Opponents(ps, t, who) && e.raw == Control(ps[t].session, PeerJoined(ps[who].role))
      case LeftNote(who) => Opponents(ps, t, who) && e.raw == Control(ps[t].session, PeerLeft(ps[who].role))
      case Relay(from, k) =>
        && Opponents(ps, t, from)
        && k < |ps[from].accepted| && ps[from].accepted[k] == e.raw
        && Parse(e.raw).Some? && Parse(e.raw).value.sessionId == ps[t].session
        && Relayable(Parse(e.raw).value.payload.value)
  {
    RunKeeps(events);
    var ps := HubAfter(events).peers;
    assert EntryJustified(ps, t, i);
    if ps[t].log[i].origin.Relay? { assert GuardHistory(ps[ps[t].log[i].origin.from]); }
  }

  /** One accepted message is queued at most once, to at most one peer. */
  lemma QueuedAtMostOnce(events: seq<Event>, t: PeerId, i: nat, t': PeerId, i': nat)
    requires t < |HubAfter(events).peers| && i < |HubAfter(events).peers[t].log|
    requires t' < |HubAfter(events).peers| && i' < |HubAfter(events).peers[t'].log|
    requires HubAfter(events).peers[t].log[i].origin.Relay?
    requires HubAfter(events).peers[t].log[i].origin == HubAfter(events).peers[t'].log[i'].origin
    ensures t == t' && i == i'
  {
    RunKeeps(events);
    assert EntryJustified(HubAfter(events).peers, t, i);
    assert EntryJustified(HubAfter(events).peers, t', i');
  }

  /** A peer sees the messages of one sender in the order of strictly rising nonces. */
  lemma RelayedInNonceOrder(events: seq<Event>, t: PeerId, i: nat, j: nat)
    requires t < |HubAfter(events).peers| && i < j < |HubAfter(events).peers[t].log|
    requires HubAfter(events).peers[t].log[i].origin.Relay? && HubAfter(events).peers[t].log[j].origin.Relay?
    requires HubAfter(events).peers[t].log[i].origin.from == HubAfter(events).peers[t].log[j].origin.from
    ensures Nonce(HubAfter(events).peers[t].log[i].raw) < Nonce(HubAfter(events).peers[t].log[j].raw)
  {
    RunKeeps(events);
    var ps := HubAfter(events).peers;
    assert EntryJustified(ps, t, i);
    assert EntryJustified(ps, t, j);
    assert InOrder(ps[t].log);
    assert GuardHistory(ps[ps[t].log[i].origin.from]);
  }

  // ---------- presence ----------

  /** The greeting recorded at a join says whether the peer already there had room. */
  lemma GreetingAtJoin(h: Hub, session: string, role: Role)
    requires RoomsInRange(h) && Lifecycle(h) && h.Holder(session, role.Other()).Some?
    ensures var older := h.Holder(session, role.Other()).value;
      && older < |h.peers| < |Join(h, session, role).peers|
      && Join(h, session, role).peers[|h.peers|].greeting ==
         Some(Greeting(older, if h.peers[older].HasRoom() then Some(|h.peers[older].log|) else None))
  {
  }

  /**
   A peer that joins a session where the other role is already connected has that role's `peer_joined` as the first
   message of its whole life. If the peer already there had room for one more message, its `peer_joined` for the
   newcomer is in its log from then on, ahead of everything ever relayed from the newcomer.
   */
  lemma PresenceOrder(events: seq<Event>, session: string, role: Role, more: seq<Event>)
    requires HubAfter(events).Holder(session, role).None? && HubAfter(events).Holder(session, role.Other()).Some?
    ensures var before := HubAfter(events); var ps := HubAfter(events + [Joins(session, role)] + more).peers;
      var n, older := |before.peers|, before.Holder(session, role.Other()).value;
      && older < n < |ps|
      && |ps[n].log| > 0 && ps[n].log[0].raw == Control(session, PeerJoined(role.Other()))
      && (before.peers[older].HasRoom() ==>
           var at := |before.peers[older].log|;
           && at < |ps[older].log| && ps[older].log[at] == Entry(Control(session, PeerJoined(role)), JoinNote(n))
           && forall j :: 0 <= j < |ps[older].log| && ps[older].log[j].origin.Relay? ==>
                ps[older].log[j].origin.from == n ==> at < j)
  {
    var joined := events + [Joins(session, role)];
    var n, ps := |HubAfter(events).peers|, HubAfter(joined + more).peers;
    assert joined[..|events|] == events;
    RunKeeps(events);
    GreetingAtJoin(HubAfter(events), session, role);
    RunEvolves(joined, more);
    JoinerIs(HubAfter(events), session, role);
    assert PeerEvolves(HubAfter(joined).peers[n], ps[n]);
    assert Greeted(ps, n) by { RunKeeps(joined + more); }
    GreetingLasts(HubAfter(joined).peers[n], ps, n);
  }

  /** What a peer's greeting says of any later state. */
  lemma GreetingLasts(me: Peer, ps: seq<Peer>, n: PeerId)
    requires n < |ps| && PeerEvolves(me, ps[n]) && Greeted(ps, n) && me.greeting.Some?
    ensures var older := me.greeting.value.older;
      && older < |ps| && |ps[n].log| > 0 && ps[n].log[0].raw == Control(me.session, PeerJoined(me.role.Other()))
      && (me.greeting.value.at.Some? ==>
           var at := me.greeting.value.at.value;
           && at < |ps[older].log| && ps[older].log[at] == Entry(Control(me.session, PeerJoined(me.role)), JoinNote(n))
           && forall j :: 0 <= j < |ps[older].log| && ps[older].log[j].origin.Relay? ==>
                ps[older].log[j].origin.from == n ==> at < j)
  {
  }

  lemma JoinerIs(h: Hub, session: string, role: Role)
    requires RoomsInRange(h)
    ensures |h.peers| < |Join(h, session, role).peers|
    ensures var me := Join(h, session, role).peers[|h.peers|]; me.session == session && me.role == role
  {
  }

  /** A log announces the arrival of `n`. */
  predicate Announces(log: seq<Entry>, n: PeerId) {
    exists i :: 0 <= i < |log| && log[i].origin == JoinNote(n)
  }

  lemma EnqueueAnnounces(h: Hub, to: PeerId, e: Entry, n: PeerId, t: PeerId)
    requires to < |h.peers| && t < |h.peers|
    ensures |Enqueue(h, to, e).peers| == |h.peers|
    ensures Announces(Enqueue(h, to, e).peers[t].log, n) <==>
            Announces(h.peers[t].log, n) || (t == to && CanEnqueue(h, to) && e.origin == JoinNote(n))
  {
    var log, log' := h.peers[t].log, Enqueue(h, to, e).peers[t].log;
    if i :| 0 <= i < |log| && log[i].origin == JoinNote(n) { assert log'[i].origin == JoinNote(n); }
    if t == to && CanEnqueue(h, to) && e.origin == JoinNote(n) { assert log'[|log|].origin == JoinNote(n); }
  }

  /** A join announces the newcomer to the peer already there, if that one can take it, and nobody to the others. */
  lemma JoinAnnounces(h: Hub, session: string, role: Role, n: PeerId, t: PeerId)
    requires RoomsInRange(h) && t < |h.peers|
    ensures t < |Join(h, session, role).peers|
    ensures Announces(Join(h, session, role).peers[t].log, n) <==>
            Announces(h.peers[t].log, n) || (n == |h.peers| && h.Holder(session, role.Other()) == Some(t) && CanEnqueue(h, t))
  {
    var p, h1 := |h.peers|, Admit(h, session, role);
    match h.Holder(session, role.Other())
    case None =>
    case Some(older) =>
      EnqueueAnnounces(h1, older, Entry(Control(session, PeerJoined(role)), JoinNote(p)), n, t);
      var h2 := Announce(h1, older, p);
      EnqueueAnnounces(h2, p, Entry(Control(session, PeerJoined(role.Other())), JoinNote(older)), n, t);
  }

  lemma LeaveAnnounces(h: Hub, p: PeerId, n: PeerId, t: PeerId)
    requires RoomsInRange(h) && p < |h.peers| && t < |h.peers|
    ensures t < |Leave(h, p).peers| && (Announces(Leave(h, p).peers[t].log, n) <==> Announces(h.peers[t].log, n))
  {
    if h.Registered(p) && h.OpponentOf(p).Some? {
      EnqueueAnnounces(Drop(h, p), h.OpponentOf(p).value, Entry(Control(h.peers[p].session, PeerLeft(h.peers[p].role)), LeftNote(p)), n, t);
    }
  }

  lemma DeliverAnnounces(h: Hub, from: PeerId, k: nat, to: PeerId, n: PeerId, t: PeerId)
    requires from < |h.peers| && to < |h.peers| && k < |h.peers[from].accepted| && k < |h.peers[from].fate| && t < |h.peers|
    ensures t < |Deliver(h, from, k, to).peers|
    ensures Announces(Deliver(h, from, k, to).peers[t].log, n) <==> Announces(h.peers[t].log, n)
  {
    EnqueueAnnounces(h, to, Entry(h.peers[from].accepted[k], Relay(from, k)), n, t);
  }

  /** Nobody already there is announced to anybody already there. */
  lemma StepAnnounces(w: World, e: Event, n: PeerId, t: PeerId)
    requires WellFormed(w) && n < |w.hub.peers| && t < |w.hub.peers|
    ensures t < |Step(w, e).hub.peers| && (Announces(Step(w, e).hub.peers[t].log, n) <==> Announces(w.hub.peers[t].log, n))
  {
    match e
    case Joins(session, role) => JoinAnnounces(w.hub, session, role, n, t);
    case Evicts(p) => if p < |w.pcs| && w.pcs[p].Evicting? { LeaveAnnounces(w.hub, w.pcs[p].to, n, t); }
    case CleansUp(p) => if p < |w.pcs| { LeaveAnnounces(w.hub, p, n, t); }
    case Sends(p) => if p < |w.pcs| && w.pcs[p].Sending? { DeliverAnnounces(w.hub, p, w.pcs[p].seqNo, w.pcs[p].to, n, t); }
    case _ =>
  }

  lemma {:induction false} RunAnnounces(events: seq<Event>, more: seq<Event>, n: PeerId, t: PeerId)
    requires n < |HubAfter(events).peers| && t < |HubAfter(events).peers|
    ensures t < |HubAfter(events + more).peers| && n < |HubAfter(events + more).peers|
    ensures Announces(HubAfter(events + more).peers[t].log, n) <==> Announces(HubAfter(events).peers[t].log, n)
  {
    if more == [] {
      assert events + more == events;
    } else {
      var before := more[..|more| - 1];
      RunAnnounces(events, before, n, t);
      RunLast(events, more);
      StepAnnounces(Run(events + before), more[|more| - 1], n, t);
      StepEvolves(Run(events + before), more[|more| - 1]);
    }
  }

  lemma RunLast(events: seq<Event>, more: seq<Event>)
    requires more != []
    ensures Run(events + more) == Step(Run(events + more[..|more| - 1]), more[|more| - 1])
  {
    AppendSnoc(events, more);
    RunStep(events + more, events + more[..|more| - 1], more[|more| - 1]);
  }

  /** No log mentions a peer before it joins. */
  lemma NotAnnouncedYet(events: seq<Event>, t: PeerId)
    requires t < |HubAfter(events).peers|
    ensures !Announces(HubAfter(events).peers[t].log, |HubAfter(events).peers|)
  {
    RunKeeps(events);
    var ps := HubAfter(events).peers;
    forall i | 0 <= i < |ps[t].log| ensures ps[t].log[i].origin != JoinNote(|ps|) { assert EntryJustified(ps, t, i); }
  }

  /**
   Whether the peer already there is ever told of a newcomer is settled when the newcomer joins: it is told exactly if it
   has room for one more message then. Otherwise the note is lost for good, however the run goes on.
   */
  lemma OlderToldIff(events: seq<Event>, session: string, role: Role, more: seq<Event>)
    requires HubAfter(events).Holder(session, role).None? && HubAfter(events).Holder(session, role.Other()).Some?
    ensures var before := HubAfter(events); var ps := HubAfter(events + [Joins(session, role)] + more).peers;
      var n, older := |before.peers|, before.Holder(session, role.Other()).value;
      older < n < |ps| && (Announces(ps[older].log, n) <==> before.peers[older].HasRoom())
  {
    var before := HubAfter(events);
    var n, older := |before.peers|, before.Holder(session, role.Other()).value;
    RunKeeps(events);
    OneMore(events, Joins(session, role));
    GreetingAtJoin(before, session, role);
    JoinAnnounces(before, session, role, n, older);
    NotAnnouncedYet(events, older);
    RunAnnounces(events + [Joins(session, role)], more, n, older);
  }

  // ---------- what does get through ----------

  lemma TwoMore(events: seq<Event>, e: Event, e': Event)
    ensures WellFormed(Step(Run(events), e)) && Run(events + [e, e']) == Step(Step(Run(events), e), e')
  {
    OneMore(events, e);
    RunStep(events + [e, e'], events + [e], e');
  }

  /** The relay takes this message, and has an opponent to forward it to. */
  ghost predicate Forwards(w: World, p: PeerId, raw: Raw, to: PeerId)
    requires WellFormed(w)
  {
    && p < |w.pcs| && w.pcs[p] == Reading && Admitted(w.hub.peers[p], raw).Some?
    && Rule(Admitted(w.hub.peers[p], raw).value.payload.value).Forward?
    && w.hub.OpponentOf(p) == Some(to) && to < |w.hub.peers|
  }

  lemma RelayStepsDeliver(w: World, p: PeerId, raw: Raw, to: PeerId)
    requires WellFormed(w) && Lifecycle(w.hub) && Forwards(w, p, raw, to) && w.hub.peers[to].HasRoom()
    requires WellFormed(DispatchStep(w, p, raw))
    ensures var h, h' := w.hub, SendStep(DispatchStep(w, p, raw), p).hub;
      && |h'.peers| == |h.peers| && h'.rooms == h.rooms
      && h'.peers[to].log == h.peers[to].log + [Entry(raw, Relay(p, |h.peers[p].accepted|))]
      && forall q :: 0 <= q < |h.peers| && q != to ==> h'.peers[q].log == h.peers[q].log
  {
    var w1 := DispatchStep(w, p, raw);
    assert to != p && !w.hub.peers[to].closed;
    assert w1.hub.peers[to] == w.hub.peers[to];
  }

  /** A message the relay takes, to an opponent with room, is the very next thing in that opponent's log, and in nobody else's. */
  lemma RelayDelivers(events: seq<Event>, p: PeerId, raw: Raw, to: PeerId)
    requires Forwards(Run(events), p, raw, to) && HubAfter(events).peers[to].HasRoom()
    ensures var h, h' := HubAfter(events), HubAfter(events + [Dispatches(p, raw), Sends(p)]);
      && |h'.peers| == |h.peers| && h'.rooms == h.rooms
      && h'.peers[to].log == h.peers[to].log + [Entry(raw, Relay(p, |h.peers[p].accepted|))]
      && forall q :: 0 <= q < |h.peers| && q != to ==> h'.peers[q].log == h.peers[q].log
  {
    TwoMore(events, Dispatches(p, raw), Sends(p));
    RunKeeps(events);
    RelayStepsDeliver(Run(events), p, raw, to);
  }

  /** A message that is malformed, for another session, or not fresh reaches nobody and costs its sender the connection. */
  lemma RefusedGoesNowhere(events: seq<Event>, p: PeerId, raw: Raw)
    requires p < |Run(events).pcs| && Run(events).pcs[p] == Reading
    requires var me := HubAfter(events).peers[p];
      match Parse(raw)
      case None => true
      case Some(env) => env.sessionId != me.session || (me.accepted != [] && env.nonce <= Nonce(me.accepted[|me.accepted| - 1]))
    ensures HubAfter(events + [Dispatches(p, raw)]) == HubAfter(events)
    ensures Run(events + [Dispatches(p, raw)]).pcs == Run(events).pcs[p := Closing]
  {
    OneMore(events, Dispatches(p, raw));
    RunKeeps(events);
    assert GuardHistory(HubAfter(events).peers[p]);
  }

  lemma FailedSendEvicts(w: World, p: PeerId)
    requires WellFormed(w) && p < |w.pcs| && w.pcs[p].Sending? && w.pcs[p].to < |w.hub.peers|
    requires !CanEnqueue(w.hub, w.pcs[p].to) && WellFormed(SendStep(w, p))
    ensures EvictStep(SendStep(w, p), p).hub == Leave(w.hub, w.pcs[p].to)
  {
  }

  lemma EvictionCloses(w: World, p: PeerId, to: PeerId, w': World)
    requires WellFormed(w) && p < |w.pcs| && w.pcs[p].Sending? && w.pcs[p].to == to < |w.hub.peers|
    requires RoomsInRange(w.hub) && Lifecycle(w.hub) && !CanEnqueue(w.hub, to)
    requires WellFormed(Step(w, Sends(p))) && w' == Step(Step(w, Sends(p)), Evicts(p))
    ensures var h' := w'.hub; to < |h'.peers| && !h'.Registered(to) && h'.peers[to].closed && h'.peers[to].log == w.hub.peers[to].log
  {
    FailedSendEvicts(w, p);
    LeaveCloses(w.hub, to);
  }

  /** A target that cannot take a message is out of its room, its channel closed, once the relay is done. */
  lemma SlowTargetIsEvicted(events: seq<Event>, p: PeerId, to: PeerId)
    requires p < |Run(events).pcs| && Run(events).pcs[p].Sending? && Run(events).pcs[p].to == to
    requires to < |HubAfter(events).peers| && !CanEnqueue(HubAfter(events), to)
    ensures var h' := HubAfter(events + [Sends(p), Evicts(p)]);
      to < |h'.peers| && !h'.Registered(to) && h'.peers[to].closed && h'.peers[to].log == HubAfter(events).peers[to].log
  {
    RunKeeps(events);
    TwoMore(events, Sends(p), Evicts(p));
    EvictionCloses(Run(events), p, to, Run(events + [Sends(p), Evicts(p)]));
  }

  lemma LeaveCloses(h: Hub, p: PeerId)
    requires RoomsInRange(h) && Lifecycle(h) && p < |h.peers|
    ensures var h' := Leave(h, p); p < |h'.peers| && !h'.Registered(p) && h'.peers[p].closed && h'.peers[p].log == h.peers[p].log
  {
  }

  lemma LeaveTells(h: Hub, p: PeerId, other: PeerId)
    requires RoomsInRange(h) && Lifecycle(h) && p < |h.peers| && h.Registered(p) && h.OpponentOf(p) == Some(other) && other < |h.peers|
    ensures var h' := Leave(h, p);
      && other < |h'.peers| && h'.Registered(other)
      && h'.peers[other].log == h.peers[other].log +
           if h.peers[other].HasRoom() then [Entry(Control(h.peers[p].session, PeerLeft(h.peers[p].role)), LeftNote(p))] else []
  {
  }

  lemma CleanUpLeaves(w: World, p: PeerId)
    requires WellFormed(w) && p < |w.pcs| && w.pcs[p] == Closing
    ensures p < |w.hub.peers| && Step(w, CleansUp(p)).hub == Leave(w.hub, p)
  {
  }

  /** When a connection ends, the peer left behind is told, if it has room, and keeps its place. */
  lemma LeavingIsTold(events: seq<Event>, p: PeerId, other: PeerId)
    requires p < |Run(events).pcs| && Run(events).pcs[p] == Closing && HubAfter(events).Registered(p)
    requires HubAfter(events).OpponentOf(p) == Some(other) && other < |HubAfter(events).peers|
    ensures var h, h' := HubAfter(events), Step(Run(events), CleansUp(p)).hub;
      && other < |h'.peers| && h'.Registered(other)
      && h'.peers[other].log == h.peers[other].log +
           if h.peers[other].HasRoom() then [Entry(Control(h.peers[p].session, PeerLeft(h.peers[p].role)), LeftNote(p))] else []
  {
    RunKeeps(events);
    CleanUpLeaves(Run(events), p);
    LeaveTells(HubAfter(events), p, other);
  }
}
