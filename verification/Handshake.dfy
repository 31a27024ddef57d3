/**
 The whole handshake: the relay with all its sessions, and the endpoints of one
 session, each running a negotiation machine on the messages its connection
 delivers. What an endpoint sends may be dispatched by its connection at any
 time, in any order and any number of times; nonces are arbitrary; connections
 of other sessions send anything at all.
 */
module Handshake {
  import opened Basics
  import opened Protocol
  import opened HubModel
  import opened HubInvariants
  import opened HubTheorems
  import N = Negotiation

  /**
   One connection's client. `inputs` is all its machine was fed, `got` how many messages it read, `sent` what it put on
   the wire, `offers` the SDPs it created, `answers` the offers it accepted with the answers it produced for them.
   */
  datatype Endpoint = Endpoint(
    inputs: seq<N.Input>,
    got: nat,
    sent: set<Raw>,
    offers: seq<string>,
    answers: seq<(string, string)>,
    done: bool)

  datatype Net = Net(world: World, ends: seq<Endpoint>)

  /** What the runtime chooses when it builds an envelope, and the SDP its peer connection comes up with. */
  datatype Choice = Choice(text: string, nonce: u64, tsMs: u64, sdp: Option<string>)

  datatype NetEvent =
    | Relays(e: Event)                         // a step of the relay
    | Reads(p: PeerId, c: Choice)              // a client handles its next message
    | Volunteers(p: PeerId, c: Choice, payload: Payload) // a local candidate, a heartbeat or a goodbye
    | LinksUp(p: PeerId)
    | GivesUp(p: PeerId)

  const NEW_CLIENT := Endpoint([], 0, {}, [], [], false)

  function Wrap(session: string, c: Choice, payload: Payload): Raw {
    Text(c.text, Some(Envelope(VERSION, c.nonce, c.tsMs, session, Some(payload))))
  }

  /** The payload a client makes of a message; nothing when it cannot be deserialised. */
  function Understood(raw: Raw): Option<Payload> {
    match Decode(raw)
    case None => None
    case Some(env) => if env.payload.None? || env.payload.value.Unrecognised? then None else env.payload
  }

  /** Carry out a machine's action. */
  function Perform(session: string, me: Endpoint, action: N.Action, c: Choice): Endpoint {
    match action
    case CreateOffer =>
      (match c.sdp
       case None => me.(done := true)
       case Some(sdp) => me.(offers := me.offers + [sdp], sent := me.sent + {Wrap(session, c, Offer(sdp))}))
    case CreateAnswer(offer) =>
      (match c.sdp
       case None => me.(done := true)
       case Some(sdp) => me.(answers := me.answers + [(offer, sdp)], sent := me.sent + {Wrap(session, c, Answer(sdp))}))
    case CloseConnection => me.(done := true)
    case _ => me
  }

  function Feed(session: string, role: Role, me: Endpoint, input: N.Input, c: Choice): Endpoint {
    var action := N.React(N.After(role, me.inputs), input).1;
    Perform(session, me.(inputs := me.inputs + [input]), action, c)
  }

  /** The relay's step, kept honest: a connection of `session` dispatches only what its client sent. */
  predicate Honest(session: string, n: Net, e: Event)
    requires |n.ends| == |n.world.hub.peers|
  {
    e.Dispatches? && e.p < |n.ends| && n.world.hub.peers[e.p].session == session ==> e.raw in n.ends[e.p].sent
  }

  function RelayStep(session: string, n: Net, e: Event): Net
    requires WellFormed(n.world) && |n.ends| == |n.world.hub.peers|
  {
    if !Honest(session, n, e) then n else
    var world := Step(n.world, e);
    Net(world, if |world.hub.peers| > |n.ends| then n.ends + [NEW_CLIENT] else n.ends)
  }

  function ReadStep(session: string, n: Net, p: PeerId, c: Choice): Net
    requires |n.ends| == |n.world.hub.peers|
  {
    if p >= |n.ends| then n else
    var me, peer := n.ends[p], n.world.hub.peers[p];
    if peer.session != session || me.done || me.got >= peer.taken || me.got >= |peer.log| then n else
    var me' := me.(got := me.got + 1);
    match Understood(peer.log[me.got].raw)
    case None => n.(ends := n.ends[p := me'.(done := true)])
    case Some(payload) => n.(ends := n.ends[p := Feed(session, peer.role, me', N.Signal(payload), c)])
  }

  function LocalStep(session: string, n: Net, p: PeerId, input: N.Input, c: Choice): Net
    requires |n.ends| == |n.world.hub.peers|
  {
    if p >= |n.ends| || n.world.hub.peers[p].session != session || n.ends[p].done then n
    else n.(ends := n.ends[p := Feed(session, n.world.hub.peers[p].role, n.ends[p], input, c)])
  }

  function VolunteerStep(session: string, n: Net, p: PeerId, c: Choice, payload: Payload): Net
    requires |n.ends| == |n.world.hub.peers|
  {
    if p >= |n.ends| || !(payload.IceCandidate? || payload.Heartbeat? || payload.Bye?) then n
    else n.(ends := n.ends[p := n.ends[p].(sent := n.ends[p].sent + {Wrap(session, c, payload)})])
  }

  const NO_CHOICE := Choice("", 0, 0, None)

  function NetStep(session: string, n: Net, e: NetEvent): Net
    requires WellFormed(n.world) && |n.ends| == |n.world.hub.peers|
  {
    match e
    case Relays(e) => RelayStep(session, n, e)
    case Reads(p, c) => ReadStep(session, n, p, c)
    case Volunteers(p, c, payload) => VolunteerStep(session, n, p, c, payload)
    case LinksUp(p) => LocalStep(session, n, p, N.LinkUp, NO_CHOICE)
    case GivesUp(p) => LocalStep(session, n, p, N.ForceClose, NO_CHOICE)
  }

  /** A step of the relay adds at most one peer, who has sent nothing; it extends what one peer had accepted by the message dispatched. */
  lemma StepAccepts(w: World, e: Event)
    requires WellFormed(w)
    ensures var ps, ps' := w.hub.peers, Step(w, e).hub.peers;
      && |ps| <= |ps'| <= |ps| + 1
      && (|ps'| > |ps| ==> ps'[|ps|].accepted == [])
      && forall p :: 0 <= p < |ps| ==>
           (ps'[p].accepted == ps[p].accepted ||
            (e.Dispatches? && e.p == p && ps'[p].accepted == ps[p].accepted + [e.raw]))
  {
    match e
    case Joins(session, role) => JoinExtends(w.hub, session, role);
    case Evicts(p) => if p < |w.pcs| && w.pcs[p].Evicting? { LeaveExtends(w.hub, w.pcs[p].to); }
    case CleansUp(p) => if p < |w.pcs| { LeaveExtends(w.hub, p); }
    case _ =>
  }

  lemma NetStepWellFormed(session: string, n: Net, e: NetEvent)
    requires WellFormed(n.world) && |n.ends| == |n.world.hub.peers|
    ensures var n' := NetStep(session, n, e); WellFormed(n'.world) && |n'.ends| == |n'.world.hub.peers|
  {
    if e.Relays? {
      StepWellFormed(n.world, e.e);
      StepAccepts(n.world, e.e);
    }
  }

  /** The network after a whole run. */
  function RunNet(session: string, events: seq<NetEvent>): (n: Net)
    ensures WellFormed(n.world) && |n.ends| == |n.world.hub.peers|
  {
    if events == [] then Net(Init(), []) else
    var last := |events| - 1;
    var n := RunNet(session, events[..last]);
    NetStepWellFormed(session, n, events[last]);
    NetStep(session, n, events[last])
  }

  // ---------- what every step keeps ----------

  /** A message an endpoint may put on the wire. */
  predicate Emissible(role: Role, me: Endpoint, raw: Raw) {
    raw.Text? && raw.decoded.Some? && raw.decoded.value.payload.Some? &&
    match raw.decoded.value.payload.value
    case Offer(sdp) => role == Controller && sdp in me.offers
    case Answer(sdp) => role == Agent && exists i :: 0 <= i < |me.answers| && me.answers[i].1 == sdp
    case IceCandidate(_, _) => true
    case Heartbeat => true
    case Bye => true
    case _ => false
  }

  /** Some opponent of `p` created this offer. */
  ghost predicate OfferMade(n: Net, p: PeerId, sdp: string)
    requires |n.ends| == |n.world.hub.peers|
  {
    exists q: nat :: Opponents(n.world.hub.peers, p, q) && sdp in n.ends[q].offers
  }

  /** Some opponent of `p` produced this answer. */
  ghost predicate AnswerMade(n: Net, p: PeerId, sdp: string)
    requires |n.ends| == |n.world.hub.peers|
  {
    exists q: nat, i :: Opponents(n.world.hub.peers, p, q) && 0 <= i < |n.ends[q].answers| && n.ends[q].answers[i].1 == sdp
  }

  /** An offer or answer an endpoint took in was created by an opponent. */
  ghost predicate FromOpponent(n: Net, p: PeerId, input: N.Input)
    requires |n.ends| == |n.world.hub.peers|
  {
    input.Signal? ==>
      match input.payload
      case Offer(sdp) => OfferMade(n, p, sdp)
      case Answer(sdp) => AnswerMade(n, p, sdp)
      case _ => true
  }

  ghost predicate EndInv(n: Net, p: PeerId)
    requires p < |n.ends| == |n.world.hub.peers|
  {
    var me, peer := n.ends[p], n.world.hub.peers[p];
    && (forall k :: 0 <= k < |peer.accepted| ==> peer.accepted[k] in me.sent)
    && (forall raw :: raw in me.sent ==> Emissible(peer.role, me, raw))
    && (forall i :: 0 <= i < |me.inputs| ==> FromOpponent(n, p, me.inputs[i]))
    && (forall i :: 0 <= i < |me.answers| ==> OfferMade(n, p, me.answers[i].0))
    && |me.offers| <= 1
    && (me.offers != [] ==> exists i :: 0 <= i < |me.inputs| && N.ActionAt(peer.role, me.inputs, i) == N.CreateOffer)
  }

  ghost predicate NetInv(session: string, n: Net) {
    Inv(n.world) && EndsInv(session, n)
  }

  ghost predicate EndsInv(session: string, n: Net) {
    && |n.ends| == |n.world.hub.peers|
    && forall p :: 0 <= p < |n.ends| && n.world.hub.peers[p].session == session ==> EndInv(n, p)
  }

  // ---------- nothing an endpoint did is undone ----------

  ghost predicate Grows(n: Net, n': Net) {
    && |n.ends| == |n.world.hub.peers| <= |n'.ends| == |n'.world.hub.peers|
    && forall p :: 0 <= p < |n.ends| ==>
         && n'.world.hub.peers[p].session == n.world.hub.peers[p].session
         && n'.world.hub.peers[p].role == n.world.hub.peers[p].role
         && n.ends[p].offers <= n'.ends[p].offers
         && n.ends[p].answers <= n'.ends[p].answers
  }

  lemma OfferStaysMade(n: Net, n': Net, p: PeerId, sdp: string)
    requires Grows(n, n') && OfferMade(n, p, sdp)
    ensures OfferMade(n', p, sdp)
  {
    var q: nat :| Opponents(n.world.hub.peers, p, q) && sdp in n.ends[q].offers;
    assert Opponents(n'.world.hub.peers, p, q) && sdp in n'.ends[q].offers;
  }

  lemma AnswerStaysMade(n: Net, n': Net, p: PeerId, sdp: string)
    requires Grows(n, n') && AnswerMade(n, p, sdp)
    ensures AnswerMade(n', p, sdp)
  {
    var q: nat, i :| Opponents(n.world.hub.peers, p, q) && 0 <= i < |n.ends[q].answers| && n.ends[q].answers[i].1 == sdp;
    assert Opponents(n'.world.hub.peers, p, q) && n'.ends[q].answers[i].1 == sdp;
  }

  lemma StaysFromOpponent(n: Net, n': Net, p: PeerId, input: N.Input)
    requires Grows(n, n') && FromOpponent(n, p, input)
    ensures FromOpponent(n', p, input)
  {
    if input.Signal? {
      match input.payload
      case Offer(sdp) => OfferStaysMade(n, n', p, sdp);
      case Answer(sdp) => AnswerStaysMade(n, n', p, sdp);
      case _ =>
    }
  }

  /** An endpoint that did nothing, and whose connection dispatched nothing it had not sent, is as sound as before. */
  lemma EndKept(n: Net, n': Net, p: PeerId)
    requires Grows(n, n') && p < |n.ends| && EndInv(n, p) && n'.ends[p] == n.ends[p]
    requires var accepted := n'.world.hub.peers[p].accepted;
      forall k :: 0 <= k < |accepted| ==> accepted[k] in n.ends[p].sent
    ensures EndInv(n', p)
  {
    var me := n.ends[p];
    forall i | 0 <= i < |me.inputs| ensures FromOpponent(n', p, me.inputs[i]) {
      StaysFromOpponent(n, n', p, me.inputs[i]);
    }
    forall i | 0 <= i < |me.answers| ensures OfferMade(n', p, me.answers[i].0) {
      OfferStaysMade(n, n', p, me.answers[i].0);
    }
  }

  lemma RelayGrows(session: string, n: Net, e: Event)
    requires WellFormed(n.world) && |n.ends| == |n.world.hub.peers|
    ensures Grows(n, RelayStep(session, n, e))
  {
    StepEvolves(n.world, e);
    StepAccepts(n.world, e);
    forall p | 0 <= p < |n.ends|
      ensures Step(n.world, e).hub.peers[p].session == n.world.hub.peers[p].session
      ensures Step(n.world, e).hub.peers[p].role == n.world.hub.peers[p].role
    {
      assert PeerEvolves(n.world.hub.peers[p], Step(n.world, e).hub.peers[p]);
    }
  }

  /** After an honest step everything a connection of the session ever dispatched is something its client sent. */
  lemma AcceptedWereSent(session: string, n: Net, e: Event, p: PeerId)
    requires WellFormed(n.world) && |n.ends| == |n.world.hub.peers| && Honest(session, n, e)
    requires p < |n.ends| && n.world.hub.peers[p].session == session && EndInv(n, p)
    ensures p < |Step(n.world, e).hub.peers|
    ensures forall raw :: raw in Step(n.world, e).hub.peers[p].accepted ==> raw in n.ends[p].sent
  {
    StepAccepts(n.world, e);
  }

  lemma RelayEndKept(session: string, n: Net, e: Event, p: PeerId)
    requires WellFormed(n.world) && EndsInv(session, n) && Honest(session, n, e)
    requires p < |n.ends| && n.world.hub.peers[p].session == session
    ensures p < |RelayStep(session, n, e).ends| == |RelayStep(session, n, e).world.hub.peers|
    ensures EndInv(RelayStep(session, n, e), p)
  {
    RelayGrows(session, n, e);
    assert EndInv(n, p);
    AcceptedWereSent(session, n, e, p);
    EndKept(n, RelayStep(session, n, e), p);
  }

  /** The client of a connection just made has done nothing yet. */
  lemma NewEnd(session: string, n: Net, e: Event)
    requires WellFormed(n.world) && |n.ends| == |n.world.hub.peers| && Honest(session, n, e)
    requires |Step(n.world, e).hub.peers| > |n.ends|
    ensures |RelayStep(session, n, e).ends| == |RelayStep(session, n, e).world.hub.peers| == |n.ends| + 1
    ensures EndInv(RelayStep(session, n, e), |n.ends|)
  {
    StepAccepts(n.world, e);
  }

  lemma RelayStepKeeps(session: string, n: Net, e: Event)
    requires NetInv(session, n)
    ensures NetInv(session, RelayStep(session, n, e))
  {
    if Honest(session, n, e) {
      StepKeeps(n.world, e);
      RelayGrows(session, n, e);
      var n' := RelayStep(session, n, e);
      forall p | 0 <= p < |n'.ends| && n'.world.hub.peers[p].session == session ensures EndInv(n', p) {
        if p < |n.ends| { RelayEndKept(session, n, e, p); } else { NewEnd(session, n, e); }
      }
    }
  }

  // ---------- an endpoint's own steps ----------

  /** Replacing one endpoint by one that has done more leaves the others sound. */
  lemma OthersKept(session: string, n: Net, p: PeerId, me: Endpoint)
    requires EndsInv(session, n) && p < |n.ends|
    requires n.ends[p].offers <= me.offers && n.ends[p].answers <= me.answers
    requires n.world.hub.peers[p].session == session ==> EndInv(n.(ends := n.ends[p := me]), p)
    ensures EndsInv(session, n.(ends := n.ends[p := me]))
  {
    var n' := n.(ends := n.ends[p := me]);
    forall q | 0 <= q < |n'.ends| && n'.world.hub.peers[q].session == session ensures EndInv(n', q) {
      if q != p { EndKept(n, n', q); }
    }
  }

  lemma ActionsStay(role: Role, inputs: seq<N.Input>, input: N.Input, i: nat)
    requires i <= |inputs|
    ensures N.ActionAt(role, inputs + [input], i) ==
      if i < |inputs| then N.ActionAt(role, inputs, i) else N.React(N.After(role, inputs), input).1
  {
    assert (inputs + [input])[..i] == inputs[..i];
    assert inputs[..|inputs|] == inputs;
  }

  /** A machine that already made an offer makes no other. */
  lemma NoSecondOffer(role: Role, inputs: seq<N.Input>, input: N.Input, i: nat)
    requires i < |inputs| && N.ActionAt(role, inputs, i) == N.CreateOffer
    ensures N.React(N.After(role, inputs), input).1 != N.CreateOffer
  {
    var all := inputs + [input];
    ActionsStay(role, inputs, input, i);
    ActionsStay(role, inputs, input, |inputs|);
    if role == Controller {
      N.ControllerOffersOnce(all, i, |inputs|);
    } else {
      N.AgentActions(all, i, "");
    }
  }

  /** Only an agent answers, and only an offer it was given; only a controller offers. */
  lemma ActionsByRole(role: Role, inputs: seq<N.Input>, input: N.Input)
    ensures var action := N.React(N.After(role, inputs), input).1;
      && (action == N.CreateOffer ==> role == Controller)
      && (action.CreateAnswer? ==> role == Agent && input == N.Signal(Offer(action.sdp)))
  {
    var all, action := inputs + [input], N.React(N.After(role, inputs), input).1;
    ActionsStay(role, inputs, input, |inputs|);
    if role == Controller {
      N.ControllerActions(all, |inputs|, "");
    } else {
      N.AgentActions(all, |inputs|, if action.CreateAnswer? then action.sdp else "");
    }
  }

  lemma EmissibleStays(role: Role, me: Endpoint, me': Endpoint, raw: Raw)
    requires Emissible(role, me, raw) && me.offers <= me'.offers && me.answers <= me'.answers
    ensures Emissible(role, me', raw)
  {
    if raw.decoded.value.payload.value.Answer? {
      var i :| 0 <= i < |me.answers| && me.answers[i].1 == raw.decoded.value.payload.value.sdp;
      assert me'.answers[i] == me.answers[i];
    }
  }

  /** What a fed endpoint has sent, it was allowed to. */
  lemma FeedEmits(session: string, role: Role, me: Endpoint, input: N.Input, c: Choice)
    requires forall raw :: raw in me.sent ==> Emissible(role, me, raw)
    ensures var me' := Feed(session, role, me, input, c);
      && me.offers <= me'.offers && me.answers <= me'.answers && me.sent <= me'.sent
      && forall raw :: raw in me'.sent ==> Emissible(role, me', raw)
  {
    var me' := Feed(session, role, me, input, c);
    ActionsByRole(role, me.inputs, input);
    forall raw | raw in me'.sent ensures Emissible(role, me', raw) {
      if raw in me.sent {
        EmissibleStays(role, me, me', raw);
      } else if |me'.answers| > |me.answers| {
        assert me'.answers[|me.answers|].1 == c.sdp.value;
      }
    }
  }

  /** A fed endpoint has made at most one offer, on the action that said so. */
  lemma FeedOffers(session: string, role: Role, me: Endpoint, input: N.Input, c: Choice)
    requires |me.offers| <= 1
    requires me.offers != [] ==> exists i :: 0 <= i < |me.inputs| && N.ActionAt(role, me.inputs, i) == N.CreateOffer
    ensures var me' := Feed(session, role, me, input, c);
      && |me'.offers| <= 1
      && (me'.offers != [] ==> exists i :: 0 <= i < |me'.inputs| && N.ActionAt(role, me'.inputs, i) == N.CreateOffer)
  {
    var me' := Feed(session, role, me, input, c);
    ActionsStay(role, me.inputs, input, |me.inputs|);
    if me.offers != [] {
      var i :| 0 <= i < |me.inputs| && N.ActionAt(role, me.inputs, i) == N.CreateOffer;
      NoSecondOffer(role, me.inputs, input, i);
      ActionsStay(role, me.inputs, input, i);
      assert N.ActionAt(role, me'.inputs, i) == N.CreateOffer;
    }
  }

  /** An endpoint's past stays justified when it moves on. */
  lemma PastKept(n: Net, p: PeerId, me: Endpoint)
    requires |n.ends| == |n.world.hub.peers| && p < |n.ends| && EndInv(n, p)
    requires n.ends[p].offers <= me.offers && n.ends[p].answers <= me.answers
    ensures var n', was := n.(ends := n.ends[p := me]), n.ends[p];
      && Grows(n, n')
      && (forall i :: 0 <= i < |was.inputs| ==> FromOpponent(n', p, was.inputs[i]))
      && (forall i :: 0 <= i < |was.answers| ==> OfferMade(n', p, was.answers[i].0))
      && (forall raw :: raw in was.sent ==> Emissible(n.world.hub.peers[p].role, me, raw))
  {
    var n', was := n.(ends := n.ends[p := me]), n.ends[p];
    forall raw | raw in was.sent ensures Emissible(n.world.hub.peers[p].role, me, raw) {
      EmissibleStays(n.world.hub.peers[p].role, was, me, raw);
    }
    forall i | 0 <= i < |was.inputs| ensures FromOpponent(n', p, was.inputs[i]) {
      StaysFromOpponent(n, n', p, was.inputs[i]);
    }
    forall i | 0 <= i < |was.answers| ensures OfferMade(n', p, was.answers[i].0) {
      OfferStaysMade(n, n', p, was.answers[i].0);
    }
  }

  /** A fed endpoint has one more input, and at most one more answer: to the offer it was fed. */
  lemma FeedGrows(session: string, role: Role, me: Endpoint, input: N.Input, c: Choice)
    ensures var me' := Feed(session, role, me, input, c);
      && me'.inputs == me.inputs + [input]
      && me.offers <= me'.offers && me.answers <= me'.answers && me.sent <= me'.sent
      && forall i :: |me.answers| <= i < |me'.answers| ==> input == N.Signal(Offer(me'.answers[i].0))
  {
    ActionsByRole(role, me.inputs, input);
  }

  lemma FeedEnd(session: string, n: Net, p: PeerId, me: Endpoint, input: N.Input, c: Choice)
    requires |n.ends| == |n.world.hub.peers| && p < |n.ends| && EndInv(n, p) && FromOpponent(n, p, input)
    requires me == n.ends[p].(got := me.got)
    ensures EndInv(n.(ends := n.ends[p := Feed(session, n.world.hub.peers[p].role, me, input, c)]), p)
  {
    var role := n.world.hub.peers[p].role;
    var me' := Feed(session, role, me, input, c);
    var n' := n.(ends := n.ends[p := me']);
    PastKept(n, p, me);
    FeedEmits(session, role, me, input, c);
    FeedOffers(session, role, me, input, c);
    FeedGrows(session, role, me, input, c);
    PastKept(n, p, me');
    StaysFromOpponent(n, n', p, input);
  }

  lemma FeedKeeps(session: string, n: Net, p: PeerId, got: nat, input: N.Input, c: Choice)
    requires EndsInv(session, n) && p < |n.ends| && n.world.hub.peers[p].session == session
    requires FromOpponent(n, p, input)
    ensures var me' := Feed(session, n.world.hub.peers[p].role, n.ends[p].(got := got), input, c);
      EndsInv(session, n.(ends := n.ends[p := me']))
  {
    assert EndInv(n, p);
    FeedEnd(session, n, p, n.ends[p].(got := got), input, c);
    FeedGrows(session, n.world.hub.peers[p].role, n.ends[p].(got := got), input, c);
    OthersKept(session, n, p, Feed(session, n.world.hub.peers[p].role, n.ends[p].(got := got), input, c));
  }

  /** What the relay delivers to an endpoint of the session comes from an opponent. */
  lemma DeliveredFromOpponent(session: string, n: Net, p: PeerId, i: nat)
    requires Routing(n.world.hub.peers) && EndsInv(session, n) && p < |n.ends| && n.world.hub.peers[p].session == session
    requires i < |n.world.hub.peers[p].log| && Understood(n.world.hub.peers[p].log[i].raw).Some?
    ensures FromOpponent(n, p, N.Signal(Understood(n.world.hub.peers[p].log[i].raw).value))
  {
    var ps := n.world.hub.peers;
    var e := ps[p].log[i];
    assert EntryJustified(ps, p, i);
    if e.origin.Relay? {
      var q := e.origin.from;
      assert EndInv(n, q);
      assert ps[q].accepted[e.origin.seqNo] in n.ends[q].sent;
      assert Emissible(ps[q].role, n.ends[q], e.raw);
    }
  }

  /** An endpoint that cannot make sense of a message stops. */
  lemma StopKeeps(session: string, n: Net, p: PeerId)
    requires EndsInv(session, n) && p < |n.ends| && n.world.hub.peers[p].session == session
    ensures EndsInv(session, n.(ends := n.ends[p := n.ends[p].(got := n.ends[p].got + 1, done := true)]))
  {
    assert EndInv(n, p);
    PastKept(n, p, n.ends[p].(got := n.ends[p].got + 1, done := true));
    OthersKept(session, n, p, n.ends[p].(got := n.ends[p].got + 1, done := true));
  }

  lemma ReadStepKeeps(session: string, n: Net, p: PeerId, c: Choice)
    requires Routing(n.world.hub.peers) && EndsInv(session, n)
    ensures EndsInv(session, ReadStep(session, n, p, c))
  {
    if ReadStep(session, n, p, c) != n {
      var me, peer := n.ends[p], n.world.hub.peers[p];
      match Understood(peer.log[me.got].raw)
      case None => StopKeeps(session, n, p);
      case Some(payload) =>
        DeliveredFromOpponent(session, n, p, me.got);
        FeedKeeps(session, n, p, me.got + 1, N.Signal(payload), c);
    }
  }

  lemma VolunteerStepKeeps(session: string, n: Net, p: PeerId, c: Choice, payload: Payload)
    requires EndsInv(session, n)
    ensures EndsInv(session, VolunteerStep(session, n, p, c, payload))
  {
    if p < |n.ends| && (payload.IceCandidate? || payload.Heartbeat? || payload.Bye?) {
      var me := n.ends[p].(sent := n.ends[p].sent + {Wrap(session, c, payload)});
      if n.world.hub.peers[p].session == session {
        assert EndInv(n, p);
        PastKept(n, p, me);
      }
      OthersKept(session, n, p, me);
    }
  }

  lemma LocalStepKeeps(session: string, n: Net, p: PeerId, input: N.Input, c: Choice)
    requires EndsInv(session, n) && !input.Signal?
    ensures EndsInv(session, LocalStep(session, n, p, input, c))
  {
    if p < |n.ends| && n.world.hub.peers[p].session == session && !n.ends[p].done {
      FeedKeeps(session, n, p, n.ends[p].got, input, c);
      assert n.ends[p].(got := n.ends[p].got) == n.ends[p];
    }
  }

  lemma NetStepKeeps(session: string, n: Net, e: NetEvent)
    requires NetInv(session, n)
    ensures NetInv(session, NetStep(session, n, e))
  {
    match e
    case Relays(e) => RelayStepKeeps(session, n, e);
    case Reads(p, c) => ReadStepKeeps(session, n, p, c);
    case Volunteers(p, c, payload) => VolunteerStepKeeps(session, n, p, c, payload);
    case LinksUp(p) => LocalStepKeeps(session, n, p, N.LinkUp, NO_CHOICE);
    case GivesUp(p) => LocalStepKeeps(session, n, p, N.ForceClose, NO_CHOICE);
  }

  lemma {:induction false} RunNetKeeps(session: string, events: seq<NetEvent>)
    ensures NetInv(session, RunNet(session, events))
  {
    if events != [] {
      var last := |events| - 1;
      RunNetKeeps(session, events[..last]);
      NetStepKeeps(session, RunNet(session, events[..last]), events[last]);
    }
  }

  // ---------- agreement ----------

  /** Each role of the session was joined by one connection only. */
  predicate JoinedOnce(session: string, n: Net) {
    var ps := n.world.hub.peers;
    forall p, q :: 0 <= p < q < |ps| && ps[p].session == session && ps[q].session == session ==> ps[p].role != ps[q].role
  }

  predicate IsEnd(session: string, n: Net, p: PeerId, role: Role) {
    p < |n.ends| == |n.world.hub.peers| && n.world.hub.peers[p].session == session && n.world.hub.peers[p].role == role
  }

  /** The controller's role was joined by one connection only. */
  ghost predicate OneController(session: string, n: Net) {
    forall p: nat, q: nat :: IsEnd(session, n, p, Controller) && IsEnd(session, n, q, Controller) ==> p == q
  }

  /** Agent `agt` accepted this offer and produced this answer for it. */
  predicate AnsweredBy(session: string, n: Net, agt: PeerId, offer: string, answer: string) {
    IsEnd(session, n, agt, Agent) && (offer, answer) in n.ends[agt].answers
  }

  /** Whatever offer agent `agt` is told to answer is the controller's one offer. */
  predicate AnswersTheOffer(n: Net, ctl: PeerId, agt: PeerId)
    requires ctl < |n.ends| && agt < |n.ends|
  {
    var c, a := n.ends[ctl], n.ends[agt];
    forall i :: 0 <= i < |a.inputs| && N.ActionAt(Agent, a.inputs, i).CreateAnswer? ==>
      c.offers == [N.ActionAt(Agent, a.inputs, i).sdp]
  }

  /**
   In every run with one controller connection, however often agents reconnect: the controller creates at most one offer;
   every offer an agent is told to answer is that one; and every answer the controller applies is one an agent produced for
   that offer.
   */
  lemma ControllerAgreement(session: string, events: seq<NetEvent>, ctl: PeerId)
    requires var n := RunNet(session, events); OneController(session, n) && IsEnd(session, n, ctl, Controller)
    ensures var n := RunNet(session, events);
      var c := n.ends[ctl];
      && |c.offers| <= 1
      && (forall agt: nat :: IsEnd(session, n, agt, Agent) ==> AnswersTheOffer(n, ctl, agt))
      && (forall i :: 0 <= i < |c.inputs| && N.ActionAt(Controller, c.inputs, i).ApplyAnswer? ==>
           |c.offers| == 1 && exists agt: nat :: AnsweredBy(session, n, agt, c.offers[0], N.ActionAt(Controller, c.inputs, i).sdp))
  {
    var n := RunNet(session, events);
    RunNetKeeps(session, events);
    assert EndInv(n, ctl);
    var c := n.ends[ctl];
    forall agt: nat | IsEnd(session, n, agt, Agent) ensures AnswersTheOffer(n, ctl, agt) {
      AgentAgrees(session, n, ctl, agt);
    }
    forall i | 0 <= i < |c.inputs| && N.ActionAt(Controller, c.inputs, i).ApplyAnswer?
      ensures |c.offers| == 1 && exists agt: nat :: AnsweredBy(session, n, agt, c.offers[0], N.ActionAt(Controller, c.inputs, i).sdp)
    {
      N.ControllerActions(c.inputs, i, N.ActionAt(Controller, c.inputs, i).sdp);
      assert FromOpponent(n, ctl, c.inputs[i]);
      TheAnswer(session, n, ctl, N.ActionAt(Controller, c.inputs, i).sdp);
    }
  }

  lemma AgentAgrees(session: string, n: Net, ctl: PeerId, agt: PeerId)
    requires EndsInv(session, n) && OneController(session, n)
    requires IsEnd(session, n, ctl, Controller) && IsEnd(session, n, agt, Agent)
    ensures AnswersTheOffer(n, ctl, agt)
  {
    var a := n.ends[agt];
    assert EndInv(n, agt);
    forall i | 0 <= i < |a.inputs| && N.ActionAt(Agent, a.inputs, i).CreateAnswer?
      ensures n.ends[ctl].offers == [N.ActionAt(Agent, a.inputs, i).sdp]
    {
      N.AgentActions(a.inputs, i, N.ActionAt(Agent, a.inputs, i).sdp);
      assert FromOpponent(n, agt, a.inputs[i]);
      TheOffer(session, n, ctl, agt, N.ActionAt(Agent, a.inputs, i).sdp);
    }
  }

  /** When each role joined once, the answer applied is that one agent's. */
  lemma Agreement(session: string, events: seq<NetEvent>, ctl: PeerId, agt: PeerId)
    requires var n := RunNet(session, events);
      JoinedOnce(session, n) && IsEnd(session, n, ctl, Controller) && IsEnd(session, n, agt, Agent)
    ensures var n := RunNet(session, events);
      var c := n.ends[ctl];
      && |c.offers| <= 1 && AnswersTheOffer(n, ctl, agt)
      && (forall i :: 0 <= i < |c.inputs| && N.ActionAt(Controller, c.inputs, i).ApplyAnswer? ==>
           |c.offers| == 1 && AnsweredBy(session, n, agt, c.offers[0], N.ActionAt(Controller, c.inputs, i).sdp))
  {
    var n := RunNet(session, events);
    ControllerAgreement(session, events, ctl);
    var c := n.ends[ctl];
    forall i | 0 <= i < |c.inputs| && N.ActionAt(Controller, c.inputs, i).ApplyAnswer?
      ensures |c.offers| == 1 && AnsweredBy(session, n, agt, c.offers[0], N.ActionAt(Controller, c.inputs, i).sdp)
    {
      var q: nat :| AnsweredBy(session, n, q, c.offers[0], N.ActionAt(Controller, c.inputs, i).sdp);
      assert q == agt;
    }
  }

  /** With one controller, an offer some opponent of an agent made is the controller's one offer. */
  lemma TheOffer(session: string, n: Net, ctl: PeerId, agt: PeerId, sdp: string)
    requires EndsInv(session, n) && OneController(session, n)
    requires IsEnd(session, n, ctl, Controller) && IsEnd(session, n, agt, Agent) && OfferMade(n, agt, sdp)
    ensures n.ends[ctl].offers == [sdp]
  {
    var q: nat :| Opponents(n.world.hub.peers, agt, q) && sdp in n.ends[q].offers;
    assert IsEnd(session, n, q, Controller);
    assert EndInv(n, ctl);
  }

  /** With one controller, an answer some opponent of it made is an agent's, to its one offer. */
  lemma TheAnswer(session: string, n: Net, ctl: PeerId, sdp: string)
    requires EndsInv(session, n) && OneController(session, n) && IsEnd(session, n, ctl, Controller) && AnswerMade(n, ctl, sdp)
    ensures |n.ends[ctl].offers| == 1 && exists agt: nat :: AnsweredBy(session, n, agt, n.ends[ctl].offers[0], sdp)
  {
    var q: nat, j :| Opponents(n.world.hub.peers, ctl, q) && 0 <= j < |n.ends[q].answers| && n.ends[q].answers[j].1 == sdp;
    assert IsEnd(session, n, q, Agent) && EndInv(n, q);
    TheOffer(session, n, ctl, q, n.ends[q].answers[j].0);
    assert AnsweredBy(session, n, q, n.ends[ctl].offers[0], sdp);
  }

  // ---------- stopping ----------

  /** A client whose machine was closed has stopped. */
  ghost predicate Stopped(me: Endpoint) {
    N.HasClosed(me.inputs, |me.inputs|) ==> me.done
  }

  lemma FeedStops(session: string, role: Role, me: Endpoint, input: N.Input, c: Choice)
    requires !me.done && Stopped(me)
    ensures Stopped(Feed(session, role, me, input, c))
  {
    var fed, n := me.inputs + [input], |me.inputs|;
    assert forall j :: 0 <= j < n ==> fed[j] == me.inputs[j] && !N.Closes(me.inputs[j]);
    N.ClosesOnceAndForAll(role, fed, n);
    assert fed[..n] == me.inputs;
  }

  ghost predicate AllStopped(n: Net) {
    forall p :: 0 <= p < |n.ends| ==> Stopped(n.ends[p])
  }

  lemma NetStepStops(session: string, n: Net, e: NetEvent)
    requires WellFormed(n.world) && |n.ends| == |n.world.hub.peers| && AllStopped(n)
    ensures AllStopped(NetStep(session, n, e))
  {
    match e
    case Relays(_) =>
    case Reads(p, c) =>
      if p < |n.ends| && !n.ends[p].done && n.ends[p].got < |n.world.hub.peers[p].log| {
        var payload := Understood(n.world.hub.peers[p].log[n.ends[p].got].raw);
        if payload.Some? {
          FeedStops(session, n.world.hub.peers[p].role, n.ends[p].(got := n.ends[p].got + 1), N.Signal(payload.value), c);
        }
      }
    case Volunteers(p, c, payload) =>
    case LinksUp(p) =>
      if p < |n.ends| && !n.ends[p].done { FeedStops(session, n.world.hub.peers[p].role, n.ends[p], N.LinkUp, NO_CHOICE); }
    case GivesUp(p) =>
      if p < |n.ends| && !n.ends[p].done { FeedStops(session, n.world.hub.peers[p].role, n.ends[p], N.ForceClose, NO_CHOICE); }
  }

  /** In every run a client that was fed a bye, a departure or a forced close has stopped: it takes in nothing more. */
  lemma {:induction false} StopsWhenClosed(session: string, events: seq<NetEvent>)
    ensures AllStopped(RunNet(session, events))
  {
    if events != [] {
      var last := |events| - 1;
      StopsWhenClosed(session, events[..last]);
      NetStepStops(session, RunNet(session, events[..last]), events[last]);
    }
  }

  lemma LinkStep(session: string, n: Net, n': Net, p: PeerId)
    requires WellFormed(n.world) && |n.ends| == |n.world.hub.peers| && AllStopped(n) && n' == NetStep(session, n, LinksUp(p))
    requires p < |n.ends| && n.world.hub.peers[p].session == session && !n.ends[p].done
    ensures |n'.ends| == |n.ends| && N.After(n.world.hub.peers[p].role, n'.ends[p].inputs).phase == N.Connected
  {
    assert Stopped(n.ends[p]);
    UpWhenOpen(n.world.hub.peers[p].role, n.ends[p].inputs);
  }

  /** So when the link of a client that has not stopped comes up, its machine is connected. */
  lemma LinkConnects(session: string, events: seq<NetEvent>, p: PeerId)
    requires p < |RunNet(session, events).ends| && RunNet(session, events).world.hub.peers[p].session == session
    requires !RunNet(session, events).ends[p].done
    ensures var n, n' := RunNet(session, events), RunNet(session, events + [LinksUp(p)]);
      |n'.ends| == |n.ends| && N.After(n.world.hub.peers[p].role, n'.ends[p].inputs).phase == N.Connected
  {
    assert (events + [LinksUp(p)])[..|events|] == events;
    StopsWhenClosed(session, events);
    LinkStep(session, RunNet(session, events), RunNet(session, events + [LinksUp(p)]), p);
  }

  lemma GiveUpStep(session: string, n: Net, n': Net, p: PeerId)
    requires WellFormed(n.world) && |n.ends| == |n.world.hub.peers| && AllStopped(n) && n' == NetStep(session, n, GivesUp(p))
    requires p < |n.ends| && n.world.hub.peers[p].session == session
    ensures p < |n'.ends| && n'.ends[p].done
  {
    if !n.ends[p].done {
      assert Stopped(n.ends[p]);
      N.ClosedIff(n.world.hub.peers[p].role, n.ends[p].inputs, |n.ends[p].inputs|);
      assert n.ends[p].inputs[..|n.ends[p].inputs|] == n.ends[p].inputs;
    }
  }

  /** And a client that gives up has stopped. */
  lemma GivingUpStops(session: string, events: seq<NetEvent>, p: PeerId)
    requires p < |RunNet(session, events).ends| && RunNet(session, events).world.hub.peers[p].session == session
    ensures var n' := RunNet(session, events + [GivesUp(p)]); p < |n'.ends| && n'.ends[p].done
  {
    assert (events + [GivesUp(p)])[..|events|] == events;
    StopsWhenClosed(session, events);
    GiveUpStep(session, RunNet(session, events), RunNet(session, events + [GivesUp(p)]), p);
  }

  lemma UpWhenOpen(role: Role, inputs: seq<N.Input>)
    requires !N.HasClosed(inputs, |inputs|)
    ensures N.After(role, inputs + [N.LinkUp]).phase == N.Connected
  {
    N.ClosedIff(role, inputs, |inputs|);
    assert inputs[..|inputs|] == inputs;
    assert (inputs + [N.LinkUp])[..|inputs|] == inputs;
  }

  // ---------- carrying out ----------

  predicate Carries(raw: Raw, payload: Payload) {
    Decode(raw).Some? && Decode(raw).value.payload == Some(payload)
  }

  ghost predicate HasSent(me: Endpoint, payload: Payload) {
    exists raw :: raw in me.sent && Carries(raw, payload)
  }

  /** An offer or answer the machine asked for at input `i` was made and sent, unless the client has stopped. */
  ghost predicate CarriedOut(role: Role, me: Endpoint, i: nat)
    requires i < |me.inputs|
  {
    match N.ActionAt(role, me.inputs, i)
    case CreateOffer => me.done || exists k :: 0 <= k < |me.offers| && HasSent(me, Offer(me.offers[k]))
    case CreateAnswer(offer) => me.done || exists k :: 0 <= k < |me.answers| && me.answers[k].0 == offer && HasSent(me, Answer(me.answers[k].1))
    case _ => true
  }

  ghost predicate AllCarriedOut(role: Role, me: Endpoint) {
    forall i :: 0 <= i < |me.inputs| ==> CarriedOut(role, me, i)
  }

  /** What was sent stays sent. */
  lemma StaysCarriedOut(role: Role, me: Endpoint, me': Endpoint, i: nat)
    requires i < |me.inputs| && CarriedOut(role, me, i)
    requires me.inputs <= me'.inputs && me.sent <= me'.sent && me.offers <= me'.offers && me.answers <= me'.answers && (me.done ==> me'.done)
    ensures CarriedOut(role, me', i)
  {
    assert me'.inputs[..i] == me.inputs[..i];
    match N.ActionAt(role, me.inputs, i)
    case CreateOffer =>
      if k :| 0 <= k < |me.offers| && HasSent(me, Offer(me.offers[k])) {
        assert me'.offers[k] == me.offers[k] && HasSent(me', Offer(me.offers[k]));
      }
    case CreateAnswer(offer) =>
      if k :| 0 <= k < |me.answers| && me.answers[k].0 == offer && HasSent(me, Answer(me.answers[k].1)) {
        assert me'.answers[k] == me.answers[k] && HasSent(me', Answer(me.answers[k].1));
      }
    case _ =>
  }

  lemma FeedCarriesOut(session: string, role: Role, me: Endpoint, input: N.Input, c: Choice)
    requires AllCarriedOut(role, me)
    ensures AllCarriedOut(role, Feed(session, role, me, input, c))
  {
    var me', n := Feed(session, role, me, input, c), |me.inputs|;
    assert me'.inputs == me.inputs + [input];
    assert me'.inputs[..n] == me.inputs;
    forall i | 0 <= i < |me'.inputs| ensures CarriedOut(role, me', i) {
      if i < n { StaysCarriedOut(role, me, me', i); } else { FedCarriedOut(session, role, me, input, c); }
    }
  }

  lemma FedCarriedOut(session: string, role: Role, me: Endpoint, input: N.Input, c: Choice)
    ensures |Feed(session, role, me, input, c).inputs| == |me.inputs| + 1
    ensures CarriedOut(role, Feed(session, role, me, input, c), |me.inputs|)
  {
    var me', n := Feed(session, role, me, input, c), |me.inputs|;
    assert me'.inputs == me.inputs + [input] && me'.inputs[..n] == me.inputs;
    if c.sdp.Some? {
      match N.ActionAt(role, me'.inputs, n)
      case CreateOffer =>
        assert Carries(Wrap(session, c, Offer(c.sdp.value)), Offer(c.sdp.value));
        assert me'.offers[|me.offers|] == c.sdp.value;
      case CreateAnswer(offer) =>
        assert Carries(Wrap(session, c, Answer(c.sdp.value)), Answer(c.sdp.value));
        assert me'.answers[|me.answers|] == (offer, c.sdp.value);
      case _ =>
    }
  }

  ghost predicate EveryoneCarriedOut(n: Net)
    requires |n.ends| == |n.world.hub.peers|
  {
    forall p :: 0 <= p < |n.ends| ==> AllCarriedOut(n.world.hub.peers[p].role, n.ends[p])
  }

  lemma SameInputsCarriedOut(role: Role, me: Endpoint, me': Endpoint)
    requires AllCarriedOut(role, me) && me'.inputs == me.inputs && me.sent <= me'.sent
    requires me'.offers == me.offers && me'.answers == me.answers && (me.done ==> me'.done)
    ensures AllCarriedOut(role, me')
  {
    forall i | 0 <= i < |me'.inputs| ensures CarriedOut(role, me', i) { StaysCarriedOut(role, me, me', i); }
  }

  lemma ReadCarriesOut(session: string, n: Net, p: PeerId, c: Choice)
    requires |n.ends| == |n.world.hub.peers| && EveryoneCarriedOut(n)
    ensures EveryoneCarriedOut(ReadStep(session, n, p, c))
  {
    if p < |n.ends| && n.ends[p].got < |n.world.hub.peers[p].log| {
      var me := n.ends[p].(got := n.ends[p].got + 1);
      var role, payload := n.world.hub.peers[p].role, Understood(n.world.hub.peers[p].log[n.ends[p].got].raw);
      SameInputsCarriedOut(role, n.ends[p], me);
      SameInputsCarriedOut(role, n.ends[p], me.(done := true));
      if payload.Some? { FeedCarriesOut(session, role, me, N.Signal(payload.value), c); }
    }
  }

  lemma NetStepCarriesOut(session: string, n: Net, e: NetEvent)
    requires WellFormed(n.world) && |n.ends| == |n.world.hub.peers| && EveryoneCarriedOut(n)
    ensures |NetStep(session, n, e).ends| == |NetStep(session, n, e).world.hub.peers| && EveryoneCarriedOut(NetStep(session, n, e))
  {
    NetStepWellFormed(session, n, e);
    match e
    case Relays(event) => RelayGrows(session, n, event);
    case Reads(p, c) => ReadCarriesOut(session, n, p, c);
    case Volunteers(p, c, payload) =>
      if p < |n.ends| {
        SameInputsCarriedOut(n.world.hub.peers[p].role, n.ends[p], n.ends[p].(sent := n.ends[p].sent + {Wrap(session, c, payload)}));
      }
    case LinksUp(p) =>
      if p < |n.ends| { FeedCarriesOut(session, n.world.hub.peers[p].role, n.ends[p], N.LinkUp, NO_CHOICE); }
    case GivesUp(p) =>
      if p < |n.ends| { FeedCarriesOut(session, n.world.hub.peers[p].role, n.ends[p], N.ForceClose, NO_CHOICE); }
  }

  /** In every run whatever offer or answer a machine asked for was made and sent, unless its client has stopped. */
  lemma {:induction false} ActionsCarriedOut(session: string, events: seq<NetEvent>)
    ensures EveryoneCarriedOut(RunNet(session, events))
  {
    if events != [] {
      var last := |events| - 1;
      ActionsCarriedOut(session, events[..last]);
      NetStepCarriesOut(session, RunNet(session, events[..last]), events[last]);
    }
  }
}
