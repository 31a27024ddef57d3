/**
 Why agreement needs one controller connection: a run in which the controller reconnects, and its second connection applies
 the answer the agent made to the offer of the first.
 */
module Reconnect {
  import opened Basics
  import opened Protocol
  import opened HubModel
  import opened Handshake
  import N = Negotiation

  /** The session it happens in, and the SDPs the peer connections come up with. */
  datatype Scene = Scene(session: string, firstOffer: string, secondOffer: string, answer: string) {
    /** The relay refuses envelopes without a session, and offers that are the same text cannot be told apart. */
    predicate Valid() {
      session != "" && firstOffer != secondOffer
    }

    const OFFER_1 := Choice("", 1, 0, Some(firstOffer))
    const OFFER_2 := Choice("", 1, 0, Some(secondOffer))
    const ANSWER := Choice("", 1, 0, Some(answer))

    const OFFER_RAW := Wrap(session, OFFER_1, Offer(firstOffer))
    const ANSWER_RAW := Wrap(session, ANSWER, Answer(answer))

    const CONTROLLER_IN := Control(session, PeerJoined(Controller))
    const CONTROLLER_OUT := Control(session, PeerLeft(Controller))
    const AGENT_IN := Control(session, PeerJoined(Agent))

    /** What the agent's connection is ever queued. */
    const TO_AGENT := [
      Entry(CONTROLLER_IN, JoinNote(1)), Entry(OFFER_RAW, Relay(1, 0)),
      Entry(CONTROLLER_OUT, LeftNote(1)), Entry(CONTROLLER_IN, JoinNote(2))]

    const TO_CONTROLLER := [Entry(AGENT_IN, JoinNote(0)), Entry(ANSWER_RAW, Relay(0, 0))]

    /** The agent's peer, queued the first `n` of its messages and having taken `taken`; `fate` is its answer's, once sent. */
    function AgentPeer(n: nat, taken: nat, fate: seq<Option<Place>>): Peer
      requires n <= 4
    {
      Peer(session, Agent, TO_AGENT[..n], taken, false, if fate == [] then None else Some(1), if fate == [] then [] else [ANSWER_RAW], fate, None)
    }

    function ControllerPeer(n: nat, taken: nat, closed: bool, fate: seq<Option<Place>>, at: nat): Peer
      requires n <= 2
    {
      Peer(session, Controller, TO_CONTROLLER[..n], taken, closed, if fate == [] then None else Some(1),
           if fate == [] then [] else [OFFER_RAW], fate, Some(Greeting(0, Some(at))))
    }

    const AGENT_INPUTS := [N.Signal(PeerJoined(Controller)), N.Signal(Offer(firstOffer))]
    const CONTROLLER_INPUTS := [N.Signal(PeerJoined(Agent)), N.Signal(Answer(answer))]

    const AGENT_READY := Endpoint(AGENT_INPUTS[..1], 1, {}, [], [], false)
    const AGENT_ANSWERED := Endpoint(AGENT_INPUTS, 2, {ANSWER_RAW}, [], [(firstOffer, answer)], false)
    const FIRST_OFFERED := Endpoint(CONTROLLER_INPUTS[..1], 1, {OFFER_RAW}, [firstOffer], [], false)
    const SECOND_OFFERED := Endpoint(CONTROLLER_INPUTS[..1], 1, {Wrap(session, OFFER_2, Offer(secondOffer))}, [secondOffer], [], false)
    const SECOND_APPLIED := SECOND_OFFERED.(inputs := CONTROLLER_INPUTS, got := 2)

    function At(controller: Option<PeerId>, peers: seq<Peer>, pcs: seq<Pc>, ends: seq<Endpoint>): Net {
      Net(World(Hub(map[session := Room(controller, Some(0))], peers), pcs), ends)
    }

    /** The first controller joins, offers, and its offer is on its way to the agent. */
    const OFFERED := At(Some(1), [AgentPeer(2, 0, []), ControllerPeer(1, 1, false, [Some(Place(0, 1))], 0)],
                        [Reading, Reading], [NEW_CLIENT, FIRST_OFFERED])

    // ---------- one step each ----------

    const ALONE := At(None, [AgentPeer(0, 0, [])], [Reading], [NEW_CLIENT])
    const JOINED := At(Some(1), [AgentPeer(1, 0, []), ControllerPeer(1, 0, false, [], 0)], [Reading, Reading], [NEW_CLIENT, NEW_CLIENT])

    lemma AgentJoins()
      ensures NetStep(session, Net(Init(), []), Relays(Joins(session, Agent))) == ALONE
    {
    }

    lemma Logs()
      ensures TO_AGENT[..0] == [] && TO_CONTROLLER[..0] == [] && TO_AGENT[..4] == TO_AGENT && TO_CONTROLLER[..2] == TO_CONTROLLER
      ensures forall n :: 0 <= n < 4 ==> TO_AGENT[..n] + [TO_AGENT[n]] == TO_AGENT[..n + 1]
      ensures forall n :: 0 <= n < 2 ==> TO_CONTROLLER[..n] + [TO_CONTROLLER[n]] == TO_CONTROLLER[..n + 1]
    {
    }

    lemma ControllerJoins()
      requires Valid() && WellFormed(ALONE.world)
      ensures NetStep(session, ALONE, Relays(Joins(session, Controller))) == JOINED
    {
      Logs();
      var h := Join(ALONE.world.hub, session, Controller);
      assert h.peers[0] == JOINED.world.hub.peers[0];
      assert h.peers[1] == JOINED.world.hub.peers[1];
      assert h.peers == JOINED.world.hub.peers;
      assert h.rooms == JOINED.world.hub.rooms;
    }

    const SAW_AGENT := At(Some(1), [AgentPeer(1, 0, []), ControllerPeer(1, 1, false, [], 0)], [Reading, Reading], [NEW_CLIENT, NEW_CLIENT])

    lemma ControllerDrains()
      requires Valid() && WellFormed(JOINED.world)
      ensures NetStep(session, JOINED, Relays(Drains(1))) == SAW_AGENT
    {
    }

    lemma ControllerOffers()
      requires Valid() && WellFormed(SAW_AGENT.world)
      ensures NetStep(session, SAW_AGENT, Reads(1, OFFER_1)) == SAW_AGENT.(ends := [NEW_CLIENT, FIRST_OFFERED])
    {
      assert N.After(Controller, []) == N.Fresh(Controller);
      var me := NetStep(session, SAW_AGENT, Reads(1, OFFER_1)).ends[1];
      assert SAW_AGENT.world.hub.peers[1].log[0].raw == AGENT_IN;
      assert me.inputs == CONTROLLER_INPUTS[..1];
      assert me.sent == {OFFER_RAW};
      assert me.offers == [firstOffer];
    }

    const DISPATCHED := At(Some(1), [AgentPeer(1, 0, []), ControllerPeer(1, 1, false, [None], 0)], [Reading, Sending(0, 0, Continue)],
                           [NEW_CLIENT, FIRST_OFFERED])

    lemma OfferDispatched()
      requires Valid() && WellFormed(SAW_AGENT.(ends := [NEW_CLIENT, FIRST_OFFERED]).world)
      ensures NetStep(session, SAW_AGENT.(ends := [NEW_CLIENT, FIRST_OFFERED]), Relays(Dispatches(1, OFFER_RAW))) == DISPATCHED
    {
      var h := Accept(SAW_AGENT.world.hub, 1, OFFER_RAW, 1);
      assert h.peers[1].accepted == [OFFER_RAW] && h.peers[1].fate == [None];
      assert h.peers == DISPATCHED.world.hub.peers;
      assert [Reading, Reading][1 := Sending(0, 0, Continue)] == DISPATCHED.world.pcs;
    }

    lemma OfferSent()
      requires Valid() && WellFormed(DISPATCHED.world)
      ensures NetStep(session, DISPATCHED, Relays(Sends(1))) == OFFERED
    {
      Logs();
      var h := Deliver(DISPATCHED.world.hub, 1, 0, 0);
      assert h.peers[0] == OFFERED.world.hub.peers[0] && h.peers[1] == OFFERED.world.hub.peers[1];
      assert h.peers == OFFERED.world.hub.peers;
      assert DISPATCHED.world.pcs[1 := Reading] == OFFERED.world.pcs;
    }

    /** The agent's peer replaced, or its client. */
    function WithAgent(n: Net, agent: Peer, client: Endpoint): Net
      requires |n.ends| == |n.world.hub.peers| > 0
    {
      n.(world := n.world.(hub := n.world.hub.(peers := n.world.hub.peers[0 := agent])), ends := n.ends[0 := client])
    }

    const TAKEN_ONE := WithAgent(OFFERED, AgentPeer(2, 1, []), NEW_CLIENT)
    const TAKEN_TWO := WithAgent(OFFERED, AgentPeer(2, 2, []), NEW_CLIENT)
    const AGENT_SAW := WithAgent(OFFERED, AgentPeer(2, 2, []), AGENT_READY)
    const ANSWERED := WithAgent(OFFERED, AgentPeer(2, 2, []), AGENT_ANSWERED)

    lemma AgentDrains()
      requires Valid() && WellFormed(OFFERED.world)
      ensures NetStep(session, OFFERED, Relays(Drains(0))) == TAKEN_ONE
    {
      assert OFFERED.ends[0 := NEW_CLIENT] == OFFERED.ends;
    }

    lemma AgentDrainsAgain()
      requires Valid() && WellFormed(TAKEN_ONE.world)
      ensures NetStep(session, TAKEN_ONE, Relays(Drains(0))) == TAKEN_TWO
    {
      assert TAKEN_ONE.ends == TAKEN_TWO.ends;
      assert Drain(TAKEN_ONE.world.hub, 0).peers == TAKEN_TWO.world.hub.peers;
    }

    lemma AgentSeesController()
      requires Valid() && WellFormed(TAKEN_TWO.world)
      ensures NetStep(session, TAKEN_TWO, Reads(0, NO_CHOICE)) == AGENT_SAW
    {
      assert N.After(Agent, []) == N.Fresh(Agent);
      assert TAKEN_TWO.world.hub.peers[0].log[0].raw == CONTROLLER_IN;
      assert [] + [N.Signal(PeerJoined(Controller))] == AGENT_INPUTS[..1];
      assert NetStep(session, TAKEN_TWO, Reads(0, NO_CHOICE)).ends == AGENT_SAW.ends;
    }

    lemma AgentAnswers()
      requires Valid() && WellFormed(AGENT_SAW.world)
      ensures NetStep(session, AGENT_SAW, Reads(0, ANSWER)) == ANSWERED
    {
      assert AGENT_INPUTS[..1][..0] == [];
      assert N.After(Agent, AGENT_INPUTS[..1]) == N.React(N.Fresh(Agent), N.Signal(PeerJoined(Controller))).0;
      assert AGENT_SAW.world.hub.peers[0].log[1].raw == OFFER_RAW;
      var me := NetStep(session, AGENT_SAW, Reads(0, ANSWER)).ends[0];
      assert me.inputs == AGENT_INPUTS && me.sent == {ANSWER_RAW} && me.answers == [(firstOffer, answer)];
      assert NetStep(session, AGENT_SAW, Reads(0, ANSWER)).ends == ANSWERED.ends;
    }

    const HUNG_UP := ANSWERED.(world := ANSWERED.world.(pcs := [Reading, Closing]))
    const LEFT := At(None, [AgentPeer(3, 2, []), ControllerPeer(1, 1, true, [Some(Place(0, 1))], 0)], [Reading, Gone], [AGENT_ANSWERED, FIRST_OFFERED])

    lemma ControllerHangsUp()
      requires Valid() && WellFormed(ANSWERED.world)
      ensures NetStep(session, ANSWERED, Relays(HangsUp(1))) == HUNG_UP
    {
      assert ANSWERED.world.pcs[1 := Closing] == [Reading, Closing];
    }

    lemma ControllerLeaves()
      requires Valid() && WellFormed(HUNG_UP.world)
      ensures NetStep(session, HUNG_UP, Relays(CleansUp(1))) == LEFT
    {
      Logs();
      var h := Leave(HUNG_UP.world.hub, 1);
      assert h.peers[0] == LEFT.world.hub.peers[0] && h.peers[1] == LEFT.world.hub.peers[1];
      assert h.peers == LEFT.world.hub.peers;
      assert h.rooms == LEFT.world.hub.rooms;
      assert HUNG_UP.ends == LEFT.ends;
      assert HUNG_UP.world.pcs[1 := Gone] == LEFT.world.pcs;
    }

    const GONE_CONTROLLER := ControllerPeer(1, 1, true, [Some(Place(0, 1))], 0)
    const BACK := At(Some(2), [AgentPeer(4, 2, []), GONE_CONTROLLER, ControllerPeer(1, 0, false, [], 3)], [Reading, Gone, Reading],
                     [AGENT_ANSWERED, FIRST_OFFERED, NEW_CLIENT])
    const BACK_TAKEN := At(Some(2), [AgentPeer(4, 2, []), GONE_CONTROLLER, ControllerPeer(1, 1, false, [], 3)], [Reading, Gone, Reading],
                           [AGENT_ANSWERED, FIRST_OFFERED, NEW_CLIENT])
    const RETURNED := BACK_TAKEN.(ends := [AGENT_ANSWERED, FIRST_OFFERED, SECOND_OFFERED])

    lemma ControllerReturns()
      requires Valid() && WellFormed(LEFT.world)
      ensures NetStep(session, LEFT, Relays(Joins(session, Controller))) == BACK
    {
      Logs();
      var h := Join(LEFT.world.hub, session, Controller);
      assert h.peers[0] == BACK.world.hub.peers[0] && h.peers[1] == BACK.world.hub.peers[1];
      assert h.peers[2] == BACK.world.hub.peers[2];
      assert h.peers == BACK.world.hub.peers;
      assert h.rooms == BACK.world.hub.rooms;
    }

    lemma SecondDrains()
      requires Valid() && WellFormed(BACK.world)
      ensures NetStep(session, BACK, Relays(Drains(2))) == BACK_TAKEN
    {
      assert Drain(BACK.world.hub, 2).peers == BACK_TAKEN.world.hub.peers;
    }

    lemma SecondOffers()
      requires Valid() && WellFormed(BACK_TAKEN.world)
      ensures NetStep(session, BACK_TAKEN, Reads(2, OFFER_2)) == RETURNED
    {
      assert N.After(Controller, []) == N.Fresh(Controller);
      assert BACK_TAKEN.world.hub.peers[2].log[0].raw == AGENT_IN;
      var me := NetStep(session, BACK_TAKEN, Reads(2, OFFER_2)).ends[2];
      assert me.inputs == CONTROLLER_INPUTS[..1] && me.sent == SECOND_OFFERED.sent && me.offers == [secondOffer];
      assert NetStep(session, BACK_TAKEN, Reads(2, OFFER_2)).ends == RETURNED.ends;
    }

    const ANSWERING := At(Some(2), [AgentPeer(4, 2, [None]), GONE_CONTROLLER, ControllerPeer(1, 1, false, [], 3)],
                          [Sending(2, 0, Continue), Gone, Reading], RETURNED.ends)
    const DELIVERED := At(Some(2), [AgentPeer(4, 2, [Some(Place(2, 1))]), GONE_CONTROLLER, ControllerPeer(2, 1, false, [], 3)],
                          [Reading, Gone, Reading], RETURNED.ends)
    const ARRIVED := At(Some(2), [AgentPeer(4, 2, [Some(Place(2, 1))]), GONE_CONTROLLER, ControllerPeer(2, 2, false, [], 3)],
                        [Reading, Gone, Reading], RETURNED.ends)
    const APPLIED := ARRIVED.(ends := [AGENT_ANSWERED, FIRST_OFFERED, SECOND_APPLIED])

    lemma AnswerAccepted()
      requires Valid()
      ensures Accept(RETURNED.world.hub, 0, ANSWER_RAW, 1) == ANSWERING.world.hub
    {
      var h := Accept(RETURNED.world.hub, 0, ANSWER_RAW, 1);
      assert h.peers[0].accepted == [ANSWER_RAW] && h.peers[0].fate == [None];
      assert h.peers == ANSWERING.world.hub.peers;
    }

    lemma AnswerDispatched()
      requires Valid() && WellFormed(RETURNED.world)
      ensures NetStep(session, RETURNED, Relays(Dispatches(0, ANSWER_RAW))) == ANSWERING
    {
      AnswerAccepted();
      assert RETURNED.world.pcs[0 := Sending(2, 0, Continue)] == ANSWERING.world.pcs;
    }

    lemma AnswerSent()
      requires Valid() && WellFormed(ANSWERING.world)
      ensures NetStep(session, ANSWERING, Relays(Sends(0))) == DELIVERED
    {
      Logs();
      var h := Deliver(ANSWERING.world.hub, 0, 0, 2);
      assert h.peers[0] == DELIVERED.world.hub.peers[0] && h.peers[2] == DELIVERED.world.hub.peers[2];
      assert h.peers == DELIVERED.world.hub.peers;
      assert ANSWERING.world.pcs[0 := Reading] == DELIVERED.world.pcs;
    }

    lemma SecondDrainsAgain()
      requires Valid() && WellFormed(DELIVERED.world)
      ensures NetStep(session, DELIVERED, Relays(Drains(2))) == ARRIVED
    {
      assert Drain(DELIVERED.world.hub, 2).peers == ARRIVED.world.hub.peers;
    }

    lemma SecondApplies()
      requires Valid() && WellFormed(ARRIVED.world)
      ensures NetStep(session, ARRIVED, Reads(2, NO_CHOICE)) == APPLIED
    {
      assert CONTROLLER_INPUTS[..1][..0] == [];
      assert N.After(Controller, CONTROLLER_INPUTS[..1]) == N.React(N.Fresh(Controller), N.Signal(PeerJoined(Agent))).0;
      assert ARRIVED.world.hub.peers[2].log[1].raw == ANSWER_RAW;
      var me := NetStep(session, ARRIVED, Reads(2, NO_CHOICE)).ends[2];
      assert me.inputs == CONTROLLER_INPUTS;
      assert NetStep(session, ARRIVED, Reads(2, NO_CHOICE)).ends == APPLIED.ends;
    }

    // ---------- the run ----------

    lemma Then(before: seq<NetEvent>, n: Net, e: NetEvent, n': Net) returns (after: seq<NetEvent>)
      requires RunNet(session, before) == n && NetStep(session, n, e) == n'
      ensures after == before + [e] && RunNet(session, after) == n' && WellFormed(n'.world)
    {
      after := before + [e];
      assert after[..|before|] == before;
    }

    lemma RunToOffer() returns (es: seq<NetEvent>)
      requires Valid()
      ensures RunNet(session, es) == OFFERED
    {
      es := [];
      AgentJoins();
      es := Then(es, Net(Init(), []), Relays(Joins(session, Agent)), ALONE);
      ControllerJoins();
      es := Then(es, ALONE, Relays(Joins(session, Controller)), JOINED);
      ControllerDrains();
      es := Then(es, JOINED, Relays(Drains(1)), SAW_AGENT);
      ControllerOffers();
      es := Then(es, SAW_AGENT, Reads(1, OFFER_1), SAW_AGENT.(ends := [NEW_CLIENT, FIRST_OFFERED]));
      OfferDispatched();
      es := Then(es, SAW_AGENT.(ends := [NEW_CLIENT, FIRST_OFFERED]), Relays(Dispatches(1, OFFER_RAW)), DISPATCHED);
      OfferSent();
      es := Then(es, DISPATCHED, Relays(Sends(1)), OFFERED);
    }

    lemma RunToAnswer() returns (es: seq<NetEvent>)
      requires Valid()
      ensures RunNet(session, es) == ANSWERED
    {
      es := RunToOffer();
      AgentDrains();
      es := Then(es, OFFERED, Relays(Drains(0)), TAKEN_ONE);
      AgentDrainsAgain();
      es := Then(es, TAKEN_ONE, Relays(Drains(0)), TAKEN_TWO);
      AgentSeesController();
      es := Then(es, TAKEN_TWO, Reads(0, NO_CHOICE), AGENT_SAW);
      AgentAnswers();
      es := Then(es, AGENT_SAW, Reads(0, ANSWER), ANSWERED);
    }

    lemma RunToReturn() returns (es: seq<NetEvent>)
      requires Valid()
      ensures RunNet(session, es) == RETURNED
    {
      es := RunToAnswer();
      ControllerHangsUp();
      es := Then(es, ANSWERED, Relays(HangsUp(1)), HUNG_UP);
      ControllerLeaves();
      es := Then(es, HUNG_UP, Relays(CleansUp(1)), LEFT);
      ControllerReturns();
      es := Then(es, LEFT, Relays(Joins(session, Controller)), BACK);
      SecondDrains();
      es := Then(es, BACK, Relays(Drains(2)), BACK_TAKEN);
      SecondOffers();
      es := Then(es, BACK_TAKEN, Reads(2, OFFER_2), RETURNED);
    }

    lemma RunToApply() returns (es: seq<NetEvent>)
      requires Valid()
      ensures RunNet(session, es) == APPLIED
    {
      es := RunToReturn();
      AnswerDispatched();
      es := Then(es, RETURNED, Relays(Dispatches(0, ANSWER_RAW)), ANSWERING);
      AnswerSent();
      es := Then(es, ANSWERING, Relays(Sends(0)), DELIVERED);
      SecondDrainsAgain();
      es := Then(es, DELIVERED, Relays(Drains(2)), ARRIVED);
      SecondApplies();
      es := Then(es, ARRIVED, Reads(2, NO_CHOICE), APPLIED);
    }

    /** The run ends with a second controller that made the second offer and applies the answer made for the first. */
    lemma SecondControllerMisled() returns (events: seq<NetEvent>)
      requires Valid()
      ensures var n := RunNet(session, events);
        && |n.ends| == 3 && IsEnd(session, n, 0, Agent) && IsEnd(session, n, 1, Controller) && IsEnd(session, n, 2, Controller)
        && |n.ends[2].inputs| == 2 && N.ActionAt(Controller, n.ends[2].inputs, 1) == N.ApplyAnswer(answer)
        && n.ends[2].offers == [secondOffer] && forall agt: nat :: !AnsweredBy(session, n, agt, secondOffer, answer)
    {
      events := RunToApply();
      assert CONTROLLER_INPUTS[..1][..0] == [];
      assert N.After(Controller, CONTROLLER_INPUTS[..1]) == N.React(N.Fresh(Controller), N.Signal(PeerJoined(Agent))).0;
      forall agt: nat ensures !AnsweredBy(session, RunNet(session, events), agt, secondOffer, answer) {
        assert agt >= 3 || agt == 0 || agt == 1 || agt == 2;
      }
    }
  }

  // ---------- the exact condition ----------

  /** The connections that joined as the session's controller. */
  function ControllersOf(session: string, n: Net): set<nat> {
    set p | 0 <= p < |n.ends| && IsEnd(session, n, p, Controller)
  }

  /** An answer applied was produced for the controller's own offer. */
  ghost predicate AppliesOwn(session: string, n: Net, ctl: PeerId, i: nat)
    requires ctl < |n.ends| && i < |n.ends[ctl].inputs|
  {
    var c := n.ends[ctl];
    N.ActionAt(Controller, c.inputs, i).ApplyAnswer? ==>
      |c.offers| == 1 && exists agt: nat :: AnsweredBy(session, n, agt, c.offers[0], N.ActionAt(Controller, c.inputs, i).sdp)
  }

  /** Whatever answer any controller of the session applies was produced for its own offer. */
  ghost predicate Agrees(session: string, n: Net) {
    forall ctl: nat, i: nat :: IsEnd(session, n, ctl, Controller) && i < |n.ends[ctl].inputs| ==> AppliesOwn(session, n, ctl, i)
  }

  lemma PairCounts(s: set<nat>, p: nat, q: nat)
    requires p in s && q in s && p != q
    ensures |s| >= 2
  {
    assert |{p, q}| == 2;
    assert s == {p, q} + (s - {p, q});
  }

  lemma AtMostOne(session: string, n: Net, p: PeerId, q: PeerId)
    requires |ControllersOf(session, n)| <= 1 && IsEnd(session, n, p, Controller) && IsEnd(session, n, q, Controller)
    ensures p == q
  {
    if p != q { PairCounts(ControllersOf(session, n), p, q); }
  }

  lemma OneControllerAgrees(session: string, events: seq<NetEvent>)
    requires |ControllersOf(session, RunNet(session, events))| <= 1
    ensures Agrees(session, RunNet(session, events))
  {
    var n := RunNet(session, events);
    forall ctl: nat, i: nat | IsEnd(session, n, ctl, Controller) && i < |n.ends[ctl].inputs| ensures AppliesOwn(session, n, ctl, i) {
      forall p: nat, q: nat | IsEnd(session, n, p, Controller) && IsEnd(session, n, q, Controller) ensures p == q {
        AtMostOne(session, n, p, q);
      }
      ControllerAgreement(session, events, ctl);
    }
  }

  lemma TwoControllers(session: string, n: Net)
    requires |n.ends| == 3 && IsEnd(session, n, 0, Agent) && IsEnd(session, n, 1, Controller) && IsEnd(session, n, 2, Controller)
    ensures |ControllersOf(session, n)| == 2
  {
    assert ControllersOf(session, n) == {1, 2};
  }

  lemma TwoControllersDisagree(session: string) returns (events: seq<NetEvent>)
    requires session != ""
    ensures |ControllersOf(session, RunNet(session, events))| == 2 && !Agrees(session, RunNet(session, events))
  {
    var scene := Scene(session, "o", "", "a");
    events := scene.SecondControllerMisled();
    var n := RunNet(session, events);
    TwoControllers(session, n);
    assert !AppliesOwn(session, n, 2, 1);
  }

  /** The runs of a session with up to `limit` controller connections all agree exactly when the limit is one, or none. */
  lemma AgreementIff(session: string, limit: nat)
    requires session != ""
    ensures (forall events :: |ControllersOf(session, RunNet(session, events))| <= limit ==> Agrees(session, RunNet(session, events)))
       <==> limit <= 1
  {
    if limit <= 1 {
      forall events | |ControllersOf(session, RunNet(session, events))| <= limit ensures Agrees(session, RunNet(session, events)) {
        OneControllerAgrees(session, events);
      }
    } else {
      var events := TwoControllersDisagree(session);
    }
  }
}
