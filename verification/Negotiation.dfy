/** The offer/answer negotiation machine that runs at both endpoints, and what it does over whole event sequences. */
module Negotiation {
  import opened Basics
  import opened Protocol

  datatype Phase = WaitingForPeer | ReadyToNegotiate | Offered | Connecting | Connected | Closed

  datatype Action =
    | NoAction
    | CreateOffer
    | CreateAnswer(sdp: string)
    | ApplyAnswer(sdp: string)
    | AddIceCandidate(candidate: string, sdpMLineIndex: u16)
    | CloseConnection

  /** What the runtime feeds a machine: a decoded signal, the ICE agent connecting, or a forced close. */
  datatype Input = Signal(payload: Payload) | LinkUp | ForceClose

  datatype State = State(role: Role, phase: Phase, peerPresent: bool)

  function Fresh(role: Role): State {
    State(role, WaitingForPeer, false)
  }

  function OnClose(s: State): (State, Action) {
    if s.phase == Closed then (s, NoAction) else (s.(phase := Closed, peerPresent := false), CloseConnection)
  }

  function OnPeerJoined(s: State): (State, Action) {
    if s.phase == Closed then (s, NoAction)
    else if s.phase != WaitingForPeer then (s.(peerPresent := true), NoAction)
    else if s.role == Controller then (s.(peerPresent := true, phase := Offered), CreateOffer)
    else (s.(peerPresent := true, phase := ReadyToNegotiate), NoAction)
  }

  function OnOffer(s: State, sdp: string): (State, Action) {
    if s.role == Controller || s.phase == Closed then (s, NoAction)
    else (s.(phase := Connecting), CreateAnswer(sdp))
  }

  function OnAnswer(s: State, sdp: string): (State, Action) {
    if s.role != Controller || s.phase != Offered then (s, NoAction)
    else (s.(phase := Connecting), ApplyAnswer(sdp))
  }

  function OnIce(s: State, candidate: string, idx: u16): (State, Action) {
    (s, if s.phase == Closed || s.phase == WaitingForPeer then NoAction else AddIceCandidate(candidate, idx))
  }

  function OnSignal(s: State, payload: Payload): (State, Action) {
    match payload
    case PeerJoined(_) => OnPeerJoined(s)
    case PeerLeft(_) => OnClose(s)
    case Bye => OnClose(s)
    case Offer(sdp) => OnOffer(s, sdp)
    case Answer(sdp) => OnAnswer(s, sdp)
    case IceCandidate(candidate, idx) => OnIce(s, candidate, idx)
    case Heartbeat => (s, NoAction)
    case Unrecognised(_) => (s, NoAction)
  }

  function React(s: State, input: Input): (State, Action) {
    match input
    case Signal(payload) => OnSignal(s, payload)
    case LinkUp => (if s.phase == Closed then s else s.(phase := Connected), NoAction)
    case ForceClose => OnClose(s)
  }

  /** The machine itself, updated in place. */
  class NegotiationState {
    const role: Role
    var phase: Phase
    var peerPresent: bool

    function View(): State
      reads this
    {
      State(role, phase, peerPresent)
    }

    constructor (role: Role)
      ensures View() == Fresh(role)
    {
      this.role := role;
      phase := WaitingForPeer;
      peerPresent := false;
    }

    method OnSignal(payload: Payload) returns (action: Action)
      modifies this
      ensures (View(), action) == React(old(View()), Signal(payload))
    {
      match payload {
        case PeerJoined(_) => action := OnPeerJoined();
        case PeerLeft(_) => action := Close();
        case Bye => action := Close();
        case Offer(sdp) => action := OnOffer(sdp);
        case Answer(sdp) => action := OnAnswer(sdp);
        case IceCandidate(candidate, idx) => action := OnIce(candidate, idx);
        case Heartbeat => action := NoAction;
        case Unrecognised(_) => action := NoAction;
      }
    }

    method OnConnected()
      modifies this
      ensures (View(), NoAction) == React(old(View()), LinkUp)
    {
      if phase != Closed {
        phase := Connected;
      }
    }

    method Close() returns (action: Action)
      modifies this
      ensures (View(), action) == React(old(View()), ForceClose)
    {
      if phase == Closed {
        return NoAction;
      }
      phase := Closed;
      peerPresent := false;
      return CloseConnection;
    }

    method OnPeerJoined() returns (action: Action)
      modifies this
      ensures forall r :: (View(), action) == React(old(View()), Signal(PeerJoined(r)))
    {
      if phase == Closed {
        return NoAction;
      }
      peerPresent := true;
      if phase == WaitingForPeer {
        phase := ReadyToNegotiate;
        if role == Controller {
          phase := Offered;
          return CreateOffer;
        }
      }
      return NoAction;
    }

    method OnOffer(sdp: string) returns (action: Action)
      modifies this
      ensures (View(), action) == React(old(View()), Signal(Offer(sdp)))
    {
      if role == Controller || phase == Closed {
        return NoAction;
      }
      phase := Connecting;
      return CreateAnswer(sdp);
    }

    method OnAnswer(sdp: string) returns (action: Action)
      modifies this
      ensures (View(), action) == React(old(View()), Signal(Answer(sdp)))
    {
      if role != Controller || phase != Offered {
        return NoAction;
      }
      phase := Connecting;
      return ApplyAnswer(sdp);
    }

    method OnIce(candidate: string, idx: u16) returns (action: Action)
      ensures (View(), action) == React(old(View()), Signal(IceCandidate(candidate, idx)))
    {
      match phase {
        case Closed => return NoAction;
        case WaitingForPeer => return NoAction;
        case _ => return AddIceCandidate(candidate, idx);
      }
    }
  }

  // ---------- runs ----------

  /** The machine after a whole input sequence. */
  function After(role: Role, inputs: seq<Input>): State {
    if inputs == [] then Fresh(role) else
    var last := |inputs| - 1;
    React(After(role, inputs[..last]), inputs[last]).0
  }

  /** The action answering input `i`. */
  function ActionAt(role: Role, inputs: seq<Input>, i: nat): Action
    requires i < |inputs|
  {
    React(After(role, inputs[..i]), inputs[i]).1
  }

  predicate Closes(input: Input) {
    input == ForceClose || (input.Signal? && (input.payload.PeerLeft? || input.payload.Bye?))
  }

  predicate Joins(input: Input) {
    input.Signal? && input.payload.PeerJoined?
  }

  /** The inputs that take a controller out of waiting for its peer. */
  predicate Starts(input: Input) {
    Joins(input) || input == LinkUp || Closes(input)
  }

  /** The inputs that settle a controller's outstanding offer. */
  predicate Settles(input: Input) {
    (input.Signal? && input.payload.Answer?) || input == LinkUp || Closes(input)
  }

  /** A controller's first sign of life is its peer joining, at `i`. */
  predicate OffersAt(inputs: seq<Input>, i: nat)
    requires i < |inputs|
  {
    Joins(inputs[i]) && forall j :: 0 <= j < i ==> !Starts(inputs[j])
  }

  /** Answer `i` is the first thing to settle the offer made at `k`. */
  predicate AnsweredAt(inputs: seq<Input>, k: nat, i: nat)
    requires i < |inputs|
  {
    k < i && OffersAt(inputs, k) && inputs[i].Signal? && inputs[i].payload.Answer? &&
    forall j :: k < j < i ==> !Settles(inputs[j])
  }

  predicate HasClosed(inputs: seq<Input>, i: nat)
    requires i <= |inputs|
  {
    exists j :: 0 <= j < i && Closes(inputs[j])
  }

  /** Either role is closed exactly when something closed it. */
  lemma {:induction false} ClosedIff(role: Role, inputs: seq<Input>, i: nat)
    requires i <= |inputs|
    ensures After(role, inputs[..i]).phase == Closed <==> HasClosed(inputs, i)
    ensures After(role, inputs[..i]).role == role
  {
    if i > 0 {
      ClosedIff(role, inputs, i - 1);
      assert inputs[..i][..i - 1] == inputs[..i - 1];
    }
  }

  /** A controller waits until something starts it, and has an offer out from the offer until something settles it. */
  lemma {:induction false} ControllerPhases(inputs: seq<Input>, i: nat)
    requires i <= |inputs|
    ensures After(Controller, inputs[..i]).role == Controller
    ensures After(Controller, inputs[..i]).phase == WaitingForPeer <==> forall j :: 0 <= j < i ==> !Starts(inputs[j])
    ensures After(Controller, inputs[..i]).phase == Offered <==>
      exists k :: 0 <= k < i && OffersAt(inputs, k) && forall j :: k < j < i ==> !Settles(inputs[j])
    ensures After(Controller, inputs[..i]).phase != ReadyToNegotiate
  {
    if i > 0 {
      ControllerPhases(inputs, i - 1);
      var s, input := After(Controller, inputs[..i - 1]), inputs[i - 1];
      assert inputs[..i][..i - 1] == inputs[..i - 1];
      assert After(Controller, inputs[..i]) == React(s, input).0;
      if s.phase == WaitingForPeer && Joins(input) {
        assert OffersAt(inputs, i - 1);
      }
    }
  }

  /** What a controller emits, input by input: an offer on its peer's first arrival, and the first answer to it applied. */
  lemma ControllerActions(inputs: seq<Input>, i: nat, sdp: string)
    requires i < |inputs|
    ensures ActionAt(Controller, inputs, i) == CreateOffer <==> OffersAt(inputs, i)
    ensures ActionAt(Controller, inputs, i) == ApplyAnswer(sdp) <==>
      inputs[i] == Signal(Answer(sdp)) && exists k :: 0 <= k < i && AnsweredAt(inputs, k, i)
    ensures !ActionAt(Controller, inputs, i).CreateAnswer?
  {
    ControllerPhases(inputs, i);
    var s := After(Controller, inputs[..i]);
    if s.phase == Offered {
      var k :| 0 <= k < i && OffersAt(inputs, k) && forall j :: k < j < i ==> !Settles(inputs[j]);
      assert inputs[i].Signal? && inputs[i].payload.Answer? ==> AnsweredAt(inputs, k, i);
    }
  }

  /** A controller makes at most one offer, applies at most one answer and only after the offer. */
  lemma ControllerOffersOnce(inputs: seq<Input>, i: nat, j: nat)
    requires i < j < |inputs|
    ensures ActionAt(Controller, inputs, i) == CreateOffer ==> ActionAt(Controller, inputs, j) != CreateOffer
    ensures ActionAt(Controller, inputs, i).ApplyAnswer? ==> !ActionAt(Controller, inputs, j).ApplyAnswer?
    ensures ActionAt(Controller, inputs, j).ApplyAnswer? ==>
      exists k :: 0 <= k < j && ActionAt(Controller, inputs, k) == CreateOffer
  {
    ControllerActions(inputs, i, "");
    ControllerActions(inputs, j, "");
    var act, act' := ActionAt(Controller, inputs, i), ActionAt(Controller, inputs, j);
    if act'.ApplyAnswer? {
      ControllerActions(inputs, j, act'.sdp);
      var k' :| 0 <= k' < j && AnsweredAt(inputs, k', j);
      ControllerActions(inputs, k', "");
      if act.ApplyAnswer? {
        ControllerActions(inputs, i, act.sdp);
        var k :| 0 <= k < i && AnsweredAt(inputs, k, i);
        assert Starts(inputs[k]) && Starts(inputs[k']);
      }
    }
  }

  /** An agent answers every offer it is given before something closes it, with that offer, and emits no other SDP action. */
  lemma AgentActions(inputs: seq<Input>, i: nat, sdp: string)
    requires i < |inputs|
    ensures ActionAt(Agent, inputs, i) == CreateAnswer(sdp) <==> inputs[i] == Signal(Offer(sdp)) && !HasClosed(inputs, i)
    ensures ActionAt(Agent, inputs, i) != CreateOffer && !ActionAt(Agent, inputs, i).ApplyAnswer?
  {
    ClosedIff(Agent, inputs, i);
  }

  /** Either role closes on the first closing input and is silent ever after. */
  lemma ClosesOnceAndForAll(role: Role, inputs: seq<Input>, i: nat)
    requires i < |inputs|
    ensures ActionAt(role, inputs, i) == CloseConnection <==> Closes(inputs[i]) && !HasClosed(inputs, i)
    ensures HasClosed(inputs, i) ==> ActionAt(role, inputs, i) == NoAction
  {
    ClosedIff(role, inputs, i);
  }

  predicate Offers(input: Input) {
    input.Signal? && input.payload.Offer?
  }

  /** What takes a machine out of waiting: the peer's arrival, the link, a close, and for an agent an offer. */
  predicate Wakes(role: Role, input: Input) {
    Starts(input) || (role == Agent && Offers(input))
  }

  predicate Awake(role: Role, inputs: seq<Input>, i: nat)
    requires i <= |inputs|
  {
    exists j :: 0 <= j < i && Wakes(role, inputs[j])
  }

  /** Either role waits until something wakes it. */
  lemma {:induction false} WaitingIff(role: Role, inputs: seq<Input>, i: nat)
    requires i <= |inputs|
    ensures After(role, inputs[..i]).phase == WaitingForPeer <==> !Awake(role, inputs, i)
    ensures After(role, inputs[..i]).role == role
  {
    if i > 0 {
      WaitingIff(role, inputs, i - 1);
      assert inputs[..i][..i - 1] == inputs[..i - 1];
      assert Awake(role, inputs, i) <==> Awake(role, inputs, i - 1) || Wakes(role, inputs[i - 1]);
    }
  }

  /** A remote candidate is added, as it came, exactly when nothing closed before and something woke the machine before. */
  lemma CandidateAddedIff(role: Role, inputs: seq<Input>, i: nat, candidate: string, idx: u16)
    requires i < |inputs|
    ensures ActionAt(role, inputs, i) == AddIceCandidate(candidate, idx) <==>
      && inputs[i] == Signal(IceCandidate(candidate, idx)) && !HasClosed(inputs, i)
      && exists j :: 0 <= j < i && (Joins(inputs[j]) || inputs[j] == LinkUp || (role == Agent && Offers(inputs[j])))
  {
    WaitingIff(role, inputs, i);
    ClosedIff(role, inputs, i);
  }

  /** The peer counts as present from its arrival until something closes the machine. */
  lemma {:induction false} PresentIff(role: Role, inputs: seq<Input>, i: nat)
    requires i <= |inputs|
    ensures After(role, inputs[..i]).peerPresent <==> !HasClosed(inputs, i) && exists j :: 0 <= j < i && Joins(inputs[j])
  {
    if i > 0 {
      PresentIff(role, inputs, i - 1);
      ClosedIff(role, inputs, i - 1);
      assert inputs[..i][..i - 1] == inputs[..i - 1];
      assert HasClosed(inputs, i) <==> HasClosed(inputs, i - 1) || Closes(inputs[i - 1]);
      assert (exists j :: 0 <= j < i && Joins(inputs[j])) <==> Joins(inputs[i - 1]) || exists j :: 0 <= j < i - 1 && Joins(inputs[j]);
    }
  }

  /** A controller is connected exactly when its link came up and nothing closed it. */
  lemma {:induction false} ControllerConnectedIff(inputs: seq<Input>, i: nat)
    requires i <= |inputs|
    ensures After(Controller, inputs[..i]).phase == Connected <==>
      !HasClosed(inputs, i) && exists j :: 0 <= j < i && inputs[j] == LinkUp
  {
    if i > 0 {
      ControllerConnectedIff(inputs, i - 1);
      ClosedIff(Controller, inputs, i - 1);
      assert inputs[..i][..i - 1] == inputs[..i - 1];
      assert HasClosed(inputs, i) <==> HasClosed(inputs, i - 1) || Closes(inputs[i - 1]);
      assert (exists j :: 0 <= j < i && inputs[j] == LinkUp) <==> inputs[i - 1] == LinkUp || exists j :: 0 <= j < i - 1 && inputs[j] == LinkUp;
    }
  }

  /** An agent is ready exactly when its peer has arrived and nothing else has moved it. */
  lemma {:induction false} AgentReadyIff(inputs: seq<Input>, i: nat)
    requires i <= |inputs|
    ensures After(Agent, inputs[..i]).phase == ReadyToNegotiate <==>
      && (exists j :: 0 <= j < i && Joins(inputs[j]))
      && forall j :: 0 <= j < i && Wakes(Agent, inputs[j]) ==> Joins(inputs[j])
  {
    if i > 0 {
      AgentReadyIff(inputs, i - 1);
      WaitingIff(Agent, inputs, i - 1);
      assert inputs[..i][..i - 1] == inputs[..i - 1];
      var s, input := After(Agent, inputs[..i - 1]), inputs[i - 1];
      assert After(Agent, inputs[..i]) == React(s, input).0;
      assert (exists j :: 0 <= j < i && Joins(inputs[j])) <==> Joins(input) || exists j :: 0 <= j < i - 1 && Joins(inputs[j]);
    }
  }

  function Rank(phase: Phase): nat {
    match phase
    case WaitingForPeer => 0
    case ReadyToNegotiate => 1
    case Offered => 2
    case Connecting => 3
    case Connected => 4
    case Closed => 5
  }

  /** A controller's phase never falls back. */
  lemma {:induction false} ControllerRankRises(inputs: seq<Input>, i: nat, j: nat)
    requires i <= j <= |inputs|
    ensures Rank(After(Controller, inputs[..i]).phase) <= Rank(After(Controller, inputs[..j]).phase)
    decreases j - i
  {
    if i < j {
      ControllerRankRises(inputs, i, j - 1);
      ControllerPhases(inputs, j - 1);
      assert inputs[..j][..j - 1] == inputs[..j - 1];
    }
  }

  /** The link came up before `i`, and no offer has come since. */
  predicate UpSince(inputs: seq<Input>, i: nat)
    requires i <= |inputs|
  {
    exists k :: 0 <= k < i && inputs[k] == LinkUp && forall j :: k < j < i ==> !Offers(inputs[j])
  }

  /** An agent is connected exactly when its link came up, no offer has come since, and nothing closed it. */
  lemma {:induction false} AgentConnectedIff(inputs: seq<Input>, i: nat)
    requires i <= |inputs|
    ensures After(Agent, inputs[..i]).phase == Connected <==> UpSince(inputs, i) && !HasClosed(inputs, i)
    ensures After(Agent, inputs[..i]).phase != Offered
  {
    if i > 0 {
      AgentConnectedIff(inputs, i - 1);
      ClosedIff(Agent, inputs, i - 1);
      ClosedIff(Agent, inputs, i);
      var s, input := After(Agent, inputs[..i - 1]), inputs[i - 1];
      assert inputs[..i][..i - 1] == inputs[..i - 1];
      assert After(Agent, inputs[..i]) == React(s, input).0;
      UpSinceStep(inputs, i - 1);
    }
  }

  lemma UpSinceStep(inputs: seq<Input>, i: nat)
    requires i < |inputs|
    ensures UpSince(inputs, i + 1) <==> inputs[i] == LinkUp || (UpSince(inputs, i) && !Offers(inputs[i]))
  {
    if UpSince(inputs, i + 1) && inputs[i] != LinkUp {
      var k :| 0 <= k < i + 1 && inputs[k] == LinkUp && forall j :: k < j < i + 1 ==> !Offers(inputs[j]);
      assert k < i;
    }
  }

  /** An agent's phase falls back at exactly one kind of input: an offer to an open agent whose link is up. */
  lemma AgentRankFallsIff(inputs: seq<Input>, i: nat)
    requires i < |inputs|
    ensures Rank(After(Agent, inputs[..i + 1]).phase) < Rank(After(Agent, inputs[..i]).phase) <==>
      Offers(inputs[i]) && UpSince(inputs, i) && !HasClosed(inputs, i)
  {
    AgentConnectedIff(inputs, i);
    ClosedIff(Agent, inputs, i);
    assert inputs[..i + 1][..i] == inputs[..i];
    assert After(Agent, inputs[..i + 1]) == React(After(Agent, inputs[..i]), inputs[i]).0;
  }
}
