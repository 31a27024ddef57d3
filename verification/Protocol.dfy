/** The signaling envelope as the relay and both endpoints see it after JSON decoding. */
module Protocol {
  import opened Basics

  const VERSION: u8 := 1

  datatype Role = Controller | Agent {
    function Other(): Role {
      if this == Controller then Agent else Controller
    }
  }

  datatype Payload =
    | Offer(sdp: string)
    | Answer(sdp: string)
    | IceCandidate(candidate: string, sdpMLineIndex: u16)
    | Heartbeat
    | Bye
    | PeerJoined(role: Role)
    | PeerLeft(role: Role)
    | Unrecognised(kind: string)

  /** `payload` is `None` when the message carries none. */
  datatype Envelope = Envelope(v: u8, nonce: u64, tsMs: u64, sessionId: string, payload: Option<Payload>)

  /** A message on the wire: a client's text with what JSON decoding makes of it, or a server control message. */
  datatype Raw =
    | Text(text: string, decoded: Option<Envelope>)
    | Control(sessionId: string, note: Payload)

  function Decode(raw: Raw): Option<Envelope> {
    match raw
    case Text(_, decoded) => decoded
    case Control(sessionId, note) => Some(Envelope(VERSION, 0, 0, sessionId, Some(note)))
  }

  /** Structural validation of an incoming message; the server's `Parse`. */
  function Parse(raw: Raw): (r: Option<Envelope>)
    ensures r.Some? ==> Decode(raw) == r && r.value.v == VERSION && r.value.sessionId != "" && r.value.payload.Some?
  {
    match Decode(raw)
    case None => None
    case Some(env) => if env.v != VERSION || env.sessionId == "" || env.payload.None? then None else Some(env)
  }

  /** The kinds the relay forwards. */
  predicate Relayable(payload: Payload) {
    payload.Offer? || payload.Answer? || payload.IceCandidate? || payload.Bye?
  }
}
