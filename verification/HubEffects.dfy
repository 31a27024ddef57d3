/** What a message, a join and a departure do to everybody's channel, for every kind of message and every interleaving. */
module HubEffects {
  import opened Basics
  import opened Protocol
  import opened HubModel
  import opened HubInvariants
  import opened HubTheorems
  import Replay

  /** A decoded envelope of protocol version 1 with a session and a payload. */
  predicate Readable(raw: Raw, env: Envelope) {
    Decode(raw) == Some(env) && env.v == 1 && env.sessionId != "" && env.payload.Some?
  }

  /** For the sender's own session, with a nonce above all it ever had accepted. */
  predicate Timely(me: Peer, env: Envelope) {
    env.sessionId == me.session && forall k :: 0 <= k < |me.accepted| ==> Nonce(me.accepted[k]) < env.nonce
  }

  lemma ParseReads(raw: Raw, env: Envelope)
    ensures Parse(raw) == Some(env) <==> Readable(raw, env)
  {
  }

  lemma TimelyIsFresh(me: Peer, env: Envelope)
    requires GuardHistory(me) && env.sessionId == me.session
    ensures Timely(me, env) <==> Replay.Fresh(me.guard, env.nonce)
  {
    if me.accepted != [] {
      var last := |me.accepted| - 1;
      assert forall k :: 0 <= k < |me.accepted| ==> Nonce(me.accepted[k]) <= Nonce(me.accepted[last]);
    }
  }

  /** Nobody's log changed, except perhaps `but`'s. */
  ghost predicate OthersLogsKept(h: Hub, h': Hub, but: Option<PeerId>) {
    |h'.peers| == |h.peers| && forall q :: 0 <= q < |h.peers| && Some(q) != but ==> h'.peers[q].log == h.peers[q].log
  }

  // ---------- one dispatch, undisturbed ----------

  predicate KeepsReading(payload: Payload) {
    payload.Offer? || payload.Answer? || payload.IceCandidate? || payload.Heartbeat?
  }

  /** Where a dispatch leaves the goroutine and the hub: at the relay's send, or done. */
  lemma DispatchDecides(w: World, p: PeerId, raw: Raw, env: Envelope)
    requires WellFormed(w) && p < |w.pcs| && w.pcs[p] == Reading && GuardHistory(w.hub.peers[p])
    requires Readable(raw, env) && Timely(w.hub.peers[p], env)
    ensures var w', k := DispatchStep(w, p, raw), |w.hub.peers[p].accepted|;
      && |w'.pcs| == |w.pcs| && w'.hub == Accept(w.hub, p, raw, env.nonce)
      && w'.pcs[p] == (
           if Relayable(env.payload.value) && w.hub.OpponentOf(p).Some?
           then Sending(w.hub.OpponentOf(p).value, k, if env.payload.value.Bye? then ByeBye else Continue)
           else if KeepsReading(env.payload.value) then Reading else Closing)
  {
    ParseReads(raw, env);
    TimelyIsFresh(w.hub.peers[p], env);
  }

  /** Accepting a message changes the sender's history and nothing else. */
  lemma AcceptKeepsLogs(h: Hub, p: PeerId, raw: Raw, nonce: u64)
    requires p < |h.peers|
    ensures var h' := Accept(h, p, raw, nonce);
      && h'.rooms == h.rooms && OthersLogsKept(h, h', None) && h'.peers[p].accepted == h.peers[p].accepted + [raw]
      && forall q :: 0 <= q < |h.peers| ==> h'.peers[q].closed == h.peers[q].closed && h'.peers[q].taken == h.peers[q].taken
  {
  }

  /** A send to a peer that can take it appends the message to that peer's log alone; any other send does nothing. */
  lemma SendAppends(w: World, p: PeerId, to: PeerId, k: nat, verdict: Verdict)
    requires WellFormed(w) && p < |w.pcs| && w.pcs[p] == Sending(to, k, verdict) && to < |w.hub.peers| && to != p
    requires k < |w.hub.peers[p].accepted|
    ensures var h, w' := w.hub, SendStep(w, p);
      && |w'.pcs| == |w.pcs| && OthersLogsKept(h, w'.hub, Some(to)) && w'.hub.rooms == h.rooms
      && w'.hub.peers[p].accepted == h.peers[p].accepted
      && w'.hub.peers[to].log == h.peers[to].log + (if CanEnqueue(h, to) then [Entry(h.peers[p].accepted[k], Relay(p, k))] else [])
      && w'.pcs[p] == (if !CanEnqueue(h, to) then Evicting(to, verdict) else if verdict == Continue then Reading else Closing)
  {
  }

  lemma EvictCloses(w: World, p: PeerId, to: PeerId, verdict: Verdict)
    requires WellFormed(w) && RoomsInRange(w.hub) && Lifecycle(w.hub)
    requires p < |w.pcs| && w.pcs[p] == Evicting(to, verdict) && to < |w.hub.peers|
    ensures var h, w' := w.hub, EvictStep(w, p);
      && |w'.pcs| == |w.pcs| && |w'.hub.peers| == |h.peers|
      && w'.hub.peers[to].closed && !w'.hub.Registered(to) && w'.hub.peers[to].log == h.peers[to].log
      && (forall q :: 0 <= q < |h.peers| ==> w'.hub.peers[q].accepted == h.peers[q].accepted)
      && w'.pcs[p] == (if verdict == Continue then Reading else Closing)
  {
    LeaveCloses(w.hub, to);
    LeaveExtends(w.hub, to);
  }

  /** What a dispatch and the rest of its relay did to the hub and to the connection, with nothing in between. */
  ghost predicate Effect(w: World, w': World, p: PeerId, raw: Raw, payload: Payload)
    requires p < |w.pcs| == |w.hub.peers|
  {
    var h, h', k, to := w.hub, w'.hub, |w.hub.peers[p].accepted|, w.hub.OpponentOf(p);
    && |w'.pcs| == |w'.hub.peers| == |h.peers|
    && h'.peers[p].accepted == h.peers[p].accepted + [raw]
    && w'.pcs[p] == (if KeepsReading(payload) then Reading else Closing)
    && (!Relayable(payload) || to.None? ==> OthersLogsKept(h, h', None) && h'.rooms == h.rooms)
    && (Relayable(payload) && to.Some? ==>
         && to.value < |h.peers|
         && (if h.peers[to.value].HasRoom()
             then h'.peers[to.value].log == h.peers[to.value].log + [Entry(raw, Relay(p, k))]
                  && OthersLogsKept(h, h', to) && h'.rooms == h.rooms
             else h'.peers[to.value].log == h.peers[to.value].log && h'.peers[to.value].closed && !h'.Registered(to.value)))
  }

  /** The rest of a relay, from the send on. */
  lemma RelayTakesEffect(w: World, w1: World, p: PeerId, raw: Raw, payload: Payload)
    requires WellFormed(w) && WellFormed(w1) && p < |w.pcs| == |w1.pcs| && Relayable(payload)
    requires RoomsInRange(w1.hub) && Lifecycle(w1.hub) && w1.hub.rooms == w.hub.rooms && OthersLogsKept(w.hub, w1.hub, None)
    requires w1.hub.peers[p].accepted == w.hub.peers[p].accepted + [raw]
    requires forall q :: 0 <= q < |w.hub.peers| ==> w1.hub.peers[q].closed == w.hub.peers[q].closed && w1.hub.peers[q].taken == w.hub.peers[q].taken
    requires w.hub.OpponentOf(p).Some? && w.hub.OpponentOf(p).value != p && w.hub.OpponentOf(p).value < |w.hub.peers|
    requires !w.hub.peers[w.hub.OpponentOf(p).value].closed
    requires w1.pcs[p] == Sending(w.hub.OpponentOf(p).value, |w.hub.peers[p].accepted|, if payload.Bye? then ByeBye else Continue)
    requires WellFormed(SendStep(w1, p)) && RoomsInRange(SendStep(w1, p).hub) && Lifecycle(SendStep(w1, p).hub)
    ensures Effect(w, EvictStep(SendStep(w1, p), p), p, raw, payload)
  {
    var Sending(to, k, verdict) := w1.pcs[p];
    SendAppends(w1, p, to, k, verdict);
    var w2 := SendStep(w1, p);
    if w2.pcs[p].Evicting? { EvictCloses(w2, p, to, verdict); }
  }

  lemma OwnStepsKeep(w: World, p: PeerId, raw: Raw)
    requires Inv(w)
    ensures Inv(DispatchStep(w, p, raw)) && Inv(SendStep(DispatchStep(w, p, raw), p))
  {
    StepKeeps(w, Dispatches(p, raw));
    StepKeeps(DispatchStep(w, p, raw), Sends(p));
  }

  /** A message that is not relayed, or has no one to go to: there is nothing more to do. */
  lemma NothingToRelay(w: World, w1: World, p: PeerId, raw: Raw, payload: Payload)
    requires WellFormed(w) && WellFormed(w1) && p < |w.pcs| == |w1.pcs| && (!Relayable(payload) || w.hub.OpponentOf(p).None?)
    requires w1.hub.rooms == w.hub.rooms && OthersLogsKept(w.hub, w1.hub, None)
    requires w1.hub.peers[p].accepted == w.hub.peers[p].accepted + [raw]
    requires w1.pcs[p] == if KeepsReading(payload) then Reading else Closing
    ensures WellFormed(SendStep(w1, p)) && Effect(w, EvictStep(SendStep(w1, p), p), p, raw, payload)
  {
  }

  lemma StepsTakeEffect(w: World, p: PeerId, raw: Raw, env: Envelope)
    requires Inv(w) && p < |w.pcs| && w.pcs[p] == Reading && Readable(raw, env) && Timely(w.hub.peers[p], env)
    ensures var w1 := DispatchStep(w, p, raw);
      WellFormed(w1) && var w2 := SendStep(w1, p);
      WellFormed(w2) && Effect(w, EvictStep(w2, p), p, raw, env.payload.value)
  {
    var w1 := DispatchStep(w, p, raw);
    OwnStepsKeep(w, p, raw);
    DispatchDecides(w, p, raw, env);
    AcceptKeepsLogs(w.hub, p, raw, env.nonce);
    if w1.pcs[p].Sending? {
      OpponentIsOpen(w.hub, p, w1.pcs[p].to);
      RelayTakesEffect(w, w1, p, raw, env.payload.value);
    } else {
      NothingToRelay(w, w1, p, raw, env.payload.value);
    }
  }

  lemma OpponentIsOpen(h: Hub, p: PeerId, to: PeerId)
    requires RoomsInRange(h) && Lifecycle(h) && p < |h.peers| && h.OpponentOf(p) == Some(to)
    ensures to < |h.peers| && to != p && !h.peers[to].closed && h.peers[to].role == h.peers[p].role.Other()
  {
  }

  lemma ThreeMore(events: seq<Event>, e: Event, e': Event, e'': Event)
    ensures WellFormed(Step(Run(events), e)) && WellFormed(Step(Step(Run(events), e), e'))
    ensures Run(events + [e, e', e'']) == Step(Step(Step(Run(events), e), e'), e'')
  {
    TwoMore(events, e, e');
    StepWellFormed(Step(Run(events), e), e');
    ThirdStep(events, e, e', e'', Step(Step(Run(events), e), e'));
  }

  lemma ThirdStep(events: seq<Event>, e: Event, e': Event, e'': Event, w: World)
    requires w == Run(events + [e, e'])
    ensures Run(events + [e, e', e'']) == Step(w, e'')
  {
    RunStep(events + [e, e', e''], events + [e, e'], e'');
  }

  lemma OwnStepsTakeEffect(w: World, w': World, p: PeerId, raw: Raw, env: Envelope)
    requires Inv(w) && p < |w.pcs| && w.pcs[p] == Reading && Readable(raw, env) && Timely(w.hub.peers[p], env)
    requires var w1 := Step(w, Dispatches(p, raw)); WellFormed(w1) && WellFormed(Step(w1, Sends(p))) && w' == Step(Step(w1, Sends(p)), Evicts(p))
    ensures Effect(w, w', p, raw, env.payload.value)
  {
    StepsTakeEffect(w, p, raw, env);
  }

  /**
   What each kind of message does, once it is readable, for the sender's own session and newer than all before it. Offers,
   answers, candidates and byes go verbatim to the end of the opponent's log and to nobody else's, or cost a full opponent
   its place; heartbeats and all other kinds reach nobody. Byes and all other kinds end the sender's connection.
   */
  lemma MessageEffect(events: seq<Event>, p: PeerId, raw: Raw, env: Envelope)
    requires p < |Run(events).pcs| && Run(events).pcs[p] == Reading && Readable(raw, env) && Timely(HubAfter(events).peers[p], env)
    ensures Effect(Run(events), Run(events + [Dispatches(p, raw), Sends(p), Evicts(p)]), p, raw, env.payload.value)
  {
    RunKeeps(events);
    ThreeMore(events, Dispatches(p, raw), Sends(p), Evicts(p));
    OwnStepsTakeEffect(Run(events), Run(events + [Dispatches(p, raw), Sends(p), Evicts(p)]), p, raw, env);
  }

  /** A message is taken exactly when it is readable and timely; any other changes nothing and ends the connection. */
  lemma TakenIff(events: seq<Event>, p: PeerId, raw: Raw)
    requires p < |Run(events).pcs| && Run(events).pcs[p] == Reading
    ensures var me, w' := HubAfter(events).peers[p], Run(events + [Dispatches(p, raw)]);
      && p < |w'.pcs| == |w'.hub.peers|
      && (w'.hub.peers[p].accepted == me.accepted + [raw] <==>
            Decode(raw).Some? && Readable(raw, Decode(raw).value) && Timely(me, Decode(raw).value))
      && (w'.hub.peers[p].accepted != me.accepted + [raw] ==> w'.hub == HubAfter(events) && w'.pcs[p] == Closing)
  {
    RunKeeps(events);
    OneMore(events, Dispatches(p, raw));
    TakesIff(Run(events), p, raw);
  }

  lemma TakesIff(w: World, p: PeerId, raw: Raw)
    requires WellFormed(w) && p < |w.pcs| && w.pcs[p] == Reading && GuardHistory(w.hub.peers[p])
    ensures var me, w' := w.hub.peers[p], DispatchStep(w, p, raw);
      && p < |w'.pcs| == |w'.hub.peers|
      && (w'.hub.peers[p].accepted == me.accepted + [raw] <==>
            Decode(raw).Some? && Readable(raw, Decode(raw).value) && Timely(me, Decode(raw).value))
      && (w'.hub.peers[p].accepted != me.accepted + [raw] ==> w'.hub == w.hub && w'.pcs[p] == Closing)
  {
    if Decode(raw).Some? {
      ParseReads(raw, Decode(raw).value);
      if Decode(raw).value.sessionId == w.hub.peers[p].session { TimelyIsFresh(w.hub.peers[p], Decode(raw).value); }
    }
  }

  // ---------- the relay, disturbed ----------

  lemma StepWaits(w: World, e: Event, p: PeerId)
    requires WellFormed(w) && p < |w.pcs| && w.pcs[p].Sending? && e != Sends(p)
    ensures p < |Step(w, e).pcs| && Step(w, e).pcs[p] == w.pcs[p]
  {
  }

  lemma {:induction false} SendingWaits(events: seq<Event>, between: seq<Event>, p: PeerId)
    requires p < |Run(events).pcs| && Run(events).pcs[p].Sending? && Sends(p) !in between
    ensures p < |Run(events + between).pcs| && Run(events + between).pcs[p] == Run(events).pcs[p]
  {
    if between == [] {
      assert events + between == events;
    } else {
      var last := |between| - 1;
      SendingWaits(events, between[..last], p);
      RunLast(events, between);
      StepWaits(Run(events + between[..last]), between[last], p);
    }
  }

  lemma SendingStarts(events: seq<Event>, p: PeerId, raw: Raw, env: Envelope, to: PeerId)
    requires p < |Run(events).pcs| && Run(events).pcs[p] == Reading && Readable(raw, env) && Timely(HubAfter(events).peers[p], env)
    requires Relayable(env.payload.value) && HubAfter(events).OpponentOf(p) == Some(to)
    ensures var w', k := Run(events + [Dispatches(p, raw)]), |HubAfter(events).peers[p].accepted|;
      && p < |w'.pcs| == |w'.hub.peers| && to < |w'.hub.peers| && to != p
      && w'.pcs[p].Sending? && w'.pcs[p].to == to && w'.pcs[p].seqNo == k
      && w'.hub.peers[p].accepted == HubAfter(events).peers[p].accepted + [raw]
  {
    RunKeeps(events);
    OneMore(events, Dispatches(p, raw));
    DispatchDecides(Run(events), p, raw, env);
    AcceptKeepsLogs(HubAfter(events), p, raw, env.nonce);
    OpponentIsOpen(HubAfter(events), p, to);
  }

  lemma AcceptedStays(events: seq<Event>, more: seq<Event>, p: PeerId)
    requires p < |HubAfter(events).peers|
    ensures |HubAfter(events).peers| <= |HubAfter(events + more).peers|
    ensures HubAfter(events).peers[p].accepted <= HubAfter(events + more).peers[p].accepted
  {
    RunEvolves(events, more);
    assert PeerEvolves(HubAfter(events).peers[p], HubAfter(events + more).peers[p]);
  }

  lemma LateSend(mid: seq<Event>, p: PeerId, to: PeerId, k: nat, raw: Raw)
    requires p < |Run(mid).pcs| && Run(mid).pcs[p].Sending? && Run(mid).pcs[p].to == to && Run(mid).pcs[p].seqNo == k
    requires to < |HubAfter(mid).peers| && to != p && k < |HubAfter(mid).peers[p].accepted| && HubAfter(mid).peers[p].accepted[k] == raw
    ensures var h, h' := HubAfter(mid), HubAfter(mid + [Sends(p)]);
      && OthersLogsKept(h, h', Some(to))
      && h'.peers[to].log == h.peers[to].log + (if !h.peers[to].closed && h.peers[to].HasRoom() then [Entry(raw, Relay(p, k))] else [])
  {
    OneMore(mid, Sends(p));
    SendAppends(Run(mid), p, to, k, Run(mid).pcs[p].verdict);
  }

  /**
   However long the relay's send is put off and whatever the other connections do meanwhile, it appends the message to the
   opponent chosen at the dispatch, and to nobody else's log, exactly if that peer's channel is then open and has room.
   */
  lemma RelayCompletes(events: seq<Event>, p: PeerId, raw: Raw, env: Envelope, between: seq<Event>, to: PeerId)
    requires p < |Run(events).pcs| && Run(events).pcs[p] == Reading && Readable(raw, env) && Timely(HubAfter(events).peers[p], env)
    requires Relayable(env.payload.value) && HubAfter(events).OpponentOf(p) == Some(to) && Sends(p) !in between
    ensures var mid := events + [Dispatches(p, raw)] + between;
      var h, h', k := HubAfter(mid), HubAfter(mid + [Sends(p)]), |HubAfter(events).peers[p].accepted|;
      && to < |h.peers| && OthersLogsKept(h, h', Some(to))
      && h'.peers[to].log == h.peers[to].log + (if !h.peers[to].closed && h.peers[to].HasRoom() then [Entry(raw, Relay(p, k))] else [])
  {
    var dispatched := events + [Dispatches(p, raw)];
    var mid := dispatched + between;
    SendingStarts(events, p, raw, env, to);
    SendingWaits(dispatched, between, p);
    AcceptedStays(dispatched, between, p);
    LateSend(mid, p, to, |HubAfter(events).peers[p].accepted|, raw);
  }

  // ---------- joining and leaving ----------

  /** A connection gets a place exactly when no open peer has its session and role; a refusal changes nothing. */
  lemma JoinSucceedsIff(events: seq<Event>, session: string, role: Role)
    ensures var w, w' := Run(events), Run(events + [Joins(session, role)]); var n := |w.hub.peers|;
      && (|w'.hub.peers| == n + 1 <==> forall q :: 0 <= q < n && !w.hub.peers[q].closed ==>
                                         !(w.hub.peers[q].session == session && w.hub.peers[q].role == role))
      && (|w'.hub.peers| == n + 1 ==>
           && w'.hub.Registered(n) && !w'.hub.peers[n].closed && w'.hub.peers[n].session == session && w'.hub.peers[n].role == role
           && w'.hub.peers[n].accepted == [] && w'.pcs == w.pcs + [Reading])
      && (|w'.hub.peers| != n + 1 ==> w' == w)
  {
    var w := Run(events);
    RunKeeps(events);
    OneMore(events, Joins(session, role));
    HolderIff(w.hub, session, role);
    if w.hub.Holder(session, role).None? {
      JoinExtends(w.hub, session, role);
      RunKeeps(events + [Joins(session, role)]);
      JoinerIs(w.hub, session, role);
      JoinerRegistered(w.hub, session, role);
    }
  }

  lemma HolderIff(h: Hub, session: string, role: Role)
    requires RoomsInRange(h) && Lifecycle(h)
    ensures h.Holder(session, role).Some? <==>
      exists q :: 0 <= q < |h.peers| && !h.peers[q].closed && h.peers[q].session == session && h.peers[q].role == role
  {
    if h.Holder(session, role).Some? {
      var q := h.Holder(session, role).value;
      assert !h.peers[q].closed && h.peers[q].session == session && h.peers[q].role == role;
    }
    if q :| 0 <= q < |h.peers| && !h.peers[q].closed && h.peers[q].session == session && h.peers[q].role == role {
      assert h.Registered(q);
    }
  }

  lemma JoinerRegistered(h: Hub, session: string, role: Role)
    requires RoomsInRange(h) && h.Holder(session, role).None?
    ensures var h' := Join(h, session, role); |h.peers| < |h'.peers| && !h'.peers[|h.peers|].closed && h'.Registered(|h.peers|)
  {
  }

  /** When a connection is over its peer is out of its room and its channel closed, for good. */
  lemma CleanedUp(events: seq<Event>, p: PeerId, more: seq<Event>)
    requires p < |Run(events).pcs| && Run(events).pcs[p] == Closing
    ensures var w := Run(events + [CleansUp(p)] + more);
      p < |w.hub.peers| == |w.pcs| && w.hub.peers[p].closed && !w.hub.Registered(p) && w.hub.peers[p].log == HubAfter(events).peers[p].log
  {
    var cleaned := events + [CleansUp(p)];
    RunKeeps(events);
    OneMore(events, CleansUp(p));
    CleanUpLeaves(Run(events), p);
    LeaveCloses(HubAfter(events), p);
    RunEvolves(cleaned, more);
    assert PeerEvolves(HubAfter(cleaned).peers[p], HubAfter(cleaned + more).peers[p]);
    RegisteredIffOpen(cleaned + more, p);
  }

  // ---------- the outbound channel ----------

  /** At most 64 messages wait for a peer, and the peer has taken none that was not queued. */
  predicate Bounded(me: Peer) {
    me.taken <= |me.log| <= me.taken + 64
  }

  ghost predicate AllBounded(h: Hub) {
    forall p :: 0 <= p < |h.peers| ==> Bounded(h.peers[p])
  }

  lemma EnqueueBounded(h: Hub, to: PeerId, e: Entry)
    requires to < |h.peers| && AllBounded(h)
    ensures AllBounded(Enqueue(h, to, e))
  {
  }

  lemma JoinBounded(h: Hub, session: string, role: Role)
    requires RoomsInRange(h) && AllBounded(h)
    ensures AllBounded(Join(h, session, role))
  {
    var p, h1 := |h.peers|, Admit(h, session, role);
    match h.Holder(session, role.Other())
    case None =>
    case Some(older) =>
      EnqueueBounded(h1, older, Entry(Control(session, PeerJoined(role)), JoinNote(p)));
      var h2 := Announce(h1, older, p);
      EnqueueBounded(h2, p, Entry(Control(session, PeerJoined(role.Other())), JoinNote(older)));
  }

  lemma LeaveBounded(h: Hub, p: PeerId)
    requires RoomsInRange(h) && p < |h.peers| && AllBounded(h)
    ensures AllBounded(Leave(h, p))
  {
  }

  lemma StepBounded(w: World, e: Event)
    requires WellFormed(w) && AllBounded(w.hub)
    ensures AllBounded(Step(w, e).hub)
  {
    match e
    case Joins(session, role) => JoinBounded(w.hub, session, role);
    case Evicts(p) => if p < |w.pcs| && w.pcs[p].Evicting? { LeaveBounded(w.hub, w.pcs[p].to); }
    case CleansUp(p) => if p < |w.pcs| { LeaveBounded(w.hub, p); }
    case _ =>
  }

  lemma {:induction false} RunBounded(events: seq<Event>)
    ensures AllBounded(HubAfter(events))
  {
    if events != [] {
      var last := |events| - 1;
      RunBounded(events[..last]);
      StepBounded(Run(events[..last]), events[last]);
    }
  }

  /** In every run between none and 64 messages wait for a peer, and it is full exactly at 64. */
  lemma QueueBounded(events: seq<Event>, p: PeerId)
    requires p < |HubAfter(events).peers|
    ensures var me := HubAfter(events).peers[p]; 0 <= |me.log| - me.taken <= 64 && (!me.HasRoom() <==> |me.log| - me.taken == 64)
  {
    RunBounded(events);
    assert Bounded(HubAfter(events).peers[p]);
  }
}
