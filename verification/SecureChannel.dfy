/**
 The end-to-end channel: counter nonces, one key per direction, and a replay
 filter that moves only on authenticated frames. AES-GCM is ideal: decryption
 succeeds exactly for what an encryption under the same key, nonce and
 associated data released. HKDF-SHA256 is a free constructor of keys.
 */
module SecureChannel {
  import opened Basics
  import opened Protocol
  import Replay

  const KEY_LEN := 32
  const NONCE_LEN := 12
  const TAG_LEN := 16
  const COUNTER_LEN := 8

  type Key32 = b: bytes | |b| == KEY_LEN witness seq(KEY_LEN, i => 0)

  /** The ASCII prefixes `c2a` and `a2c` of the HKDF info. */
  const INFO_C2A: bytes := [99, 50, 97]
  const INFO_A2C: bytes := [97, 50, 99]
  const DIR_C2A: byte := 1
  const DIR_A2C: byte := 2

  datatype CryptoError = Malformed | ReplayedFrame | OpenFailed | CounterExhausted

  /** HKDF output under the protocol's fixed salt. */
  datatype Key = Expanded(shared: Key32, info: bytes)

  function Info(prefix: bytes, sessionId: bytes, controllerPub: Key32, agentPub: Key32): bytes {
    prefix + sessionId + controllerPub + agentPub
  }

  /** The controller-to-agent and agent-to-controller keys. */
  function DeriveKeys(shared: Key32, sessionId: bytes, controllerPub: Key32, agentPub: Key32): (Key, Key) {
    (Expanded(shared, Info(INFO_C2A, sessionId, controllerPub, agentPub)),
     Expanded(shared, Info(INFO_A2C, sessionId, controllerPub, agentPub)))
  }

  function NonceFor(counter: u64): bytes {
    seq(NONCE_LEN - COUNTER_LEN, i => 0) + BigEndian(counter, COUNTER_LEN)
  }

  function AadFor(sessionId: bytes, dir: byte): bytes {
    sessionId + [dir]
  }

  // ---------- the encodings are injective ----------

  lemma CounterRoundTrip(counter: u64)
    ensures FromBigEndian(BigEndian(counter, COUNTER_LEN)) == counter
  {
    WordSizes();
    BigEndianRoundTrip(counter, COUNTER_LEN);
  }

  lemma NonceInjective(c: u64, d: u64)
    requires NonceFor(c) == NonceFor(d)
    ensures c == d
  {
    assert NonceFor(c)[4..] == BigEndian(c, COUNTER_LEN) && NonceFor(d)[4..] == BigEndian(d, COUNTER_LEN);
    CounterRoundTrip(c);
    CounterRoundTrip(d);
  }

  lemma AadInjective(s: bytes, d: byte, s': bytes, d': byte)
    requires AadFor(s, d) == AadFor(s', d')
    ensures s == s' && d == d'
  {
    assert AadFor(s, d)[..|s|] == s && AadFor(s', d')[..|s'|] == s';
    assert AadFor(s, d)[|s|] == d && AadFor(s', d')[|s'|] == d';
    assert |AadFor(s, d)| == |s| + 1 && |AadFor(s', d')| == |s'| + 1;
  }

  /** Prefixes and keys have fixed lengths, so the unframed session id in the middle is unambiguous. */
  lemma InfoInjective(p: bytes, s: bytes, c: Key32, a: Key32, p': bytes, s': bytes, c': Key32, a': Key32)
    requires |p| == |p'| && Info(p, s, c, a) == Info(p', s', c', a')
    ensures p == p' && s == s' && c == c' && a == a'
  {
    var x, n, m := Info(p, s, c, a), |p|, |p| + |s|;
    assert |x| == n + |s| + 64 == n + |s'| + 64;
    assert x[..n] == p && x[n..m] == s && x[m..m + 32] == c && x[m + 32..] == a;
    assert x[..n] == p' && x[n..m] == s' && x[m..m + 32] == c' && x[m + 32..] == a';
  }

  // ---------- one channel ----------

  /** What both ends of a channel are built from, and which end this is. */
  datatype Setup = Setup(shared: Key32, sessionId: bytes, controllerPub: Key32, agentPub: Key32, role: Role)

  datatype Channel = Channel(
    sendKey: Key, recvKey: Key, sendDir: byte, recvDir: byte, sessionId: bytes,
    sendCounter: u64, recvLast: Option<u64>)

  function New(s: Setup): Channel {
    var (c2a, a2c) := DeriveKeys(s.shared, s.sessionId, s.controllerPub, s.agentPub);
    match s.role
    case Controller => Channel(c2a, a2c, DIR_C2A, DIR_A2C, s.sessionId, 0, None)
    case Agent => Channel(a2c, c2a, DIR_A2C, DIR_C2A, s.sessionId, 0, None)
  }

  /** The X25519 operations a channel is established with: a secret's public key, and the agreement of a secret with a public key. */
  datatype Curve = Curve(pub: Key32 -> Key32, dh: (Key32, Key32) -> Key32)

  ghost predicate Commutes(c: Curve) {
    forall a: Key32, b: Key32 :: c.dh(a, c.pub(b)) == c.dh(b, c.pub(a))
  }

  function Establish(c: Curve, localSecret: Key32, peerPublic: Key32, sessionId: bytes,
                     controllerPub: Key32, agentPub: Key32, role: Role): Setup {
    Setup(c.dh(localSecret, peerPublic), sessionId, controllerPub, agentPub, role)
  }

  /** One end's sending key is another's receiving key exactly when they are the two roles of one handshake. */
  lemma LinkedIffCounterparts(s: Setup, t: Setup)
    ensures New(s).sendKey == New(t).recvKey <==> s == t.(role := t.role.Other())
    ensures New(s).sendKey == New(t).recvKey ==> New(s).sendDir == New(t).recvDir
    ensures New(s).sendKey == New(t).sendKey <==> s == t
  {
    assert INFO_C2A[0] != INFO_A2C[0];
    var p, q := if s.role == Controller then INFO_C2A else INFO_A2C, if t.role == Controller then INFO_A2C else INFO_C2A;
    if New(s).sendKey == New(t).recvKey {
      InfoInjective(p, s.sessionId, s.controllerPub, s.agentPub, q, t.sessionId, t.controllerPub, t.agentPub);
    }
    var r := if t.role == Controller then INFO_C2A else INFO_A2C;
    if New(s).sendKey == New(t).sendKey {
      InfoInjective(p, s.sessionId, s.controllerPub, s.agentPub, r, t.sessionId, t.controllerPub, t.agentPub);
    }
  }

  /**
   Two devices that each run the agreement with the public key they were given can talk exactly when they agreed on the
   session and on both public keys, and the agreements came out equal; so a server that swaps a key cuts them off.
   */
  lemma EstablishedEndsMeet(c: Curve, a: Key32, b: Key32, peerOfA: Key32, peerOfB: Key32, sa: bytes, sb: bytes,
                            ctlOfA: Key32, agtOfA: Key32, ctlOfB: Key32, agtOfB: Key32)
    requires Commutes(c)
    ensures var x, y := New(Establish(c, a, peerOfA, sa, ctlOfA, agtOfA, Controller)), New(Establish(c, b, peerOfB, sb, ctlOfB, agtOfB, Agent));
      x.sendKey == y.recvKey && y.sendKey == x.recvKey <==>
        c.dh(a, peerOfA) == c.dh(b, peerOfB) && sa == sb && ctlOfA == ctlOfB && agtOfA == agtOfB
    ensures peerOfA == c.pub(b) && peerOfB == c.pub(a) ==> c.dh(a, peerOfA) == c.dh(b, peerOfB)
  {
    var s, t := Establish(c, a, peerOfA, sa, ctlOfA, agtOfA, Controller), Establish(c, b, peerOfB, sb, ctlOfB, agtOfB, Agent);
    LinkedIffCounterparts(s, t);
    LinkedIffCounterparts(t, s);
  }

  /** A released encryption: its inputs and output, and which channel sealed it under which counter. */
  datatype Record = Record(key: Key, nonce: bytes, aad: bytes, ct: bytes, pt: bytes, from: nat, counter: nat)

  function Decrypt(log: seq<Record>, key: Key, nonce: bytes, aad: bytes, ct: bytes): Option<bytes> {
    if log == [] then None
    else if log[0].key == key && log[0].nonce == nonce && log[0].aad == aad && log[0].ct == ct then Some(log[0].pt)
    else Decrypt(log[1..], key, nonce, aad, ct)
  }

  function Frame(counter: u64, ct: bytes): bytes {
    BigEndian(counter, COUNTER_LEN) + ct
  }

  function RecordOf(c: Channel, id: nat, pt: bytes, ct: bytes): Record {
    Record(c.sendKey, NonceFor(c.sendCounter), AadFor(c.sessionId, c.sendDir), ct, pt, id, c.sendCounter)
  }

  /** Sealing with the last counter value fails: there would be no next counter. */
  function SealStep(c: Channel, ct: bytes): (Channel, Result<bytes, CryptoError>) {
    if c.sendCounter == U64_MAX then (c, Err(CounterExhausted))
    else (c.(sendCounter := c.sendCounter + 1), Ok(Frame(c.sendCounter, ct)))
  }

  function CounterOf(frame: bytes): (counter: u64)
    requires |frame| >= COUNTER_LEN
  {
    FromBigEndianBound(frame[..COUNTER_LEN]);
    WordSizes();
    FromBigEndian(frame[..COUNTER_LEN])
  }

  /** What a frame decrypts to, replayed or not. */
  function Genuine(c: Channel, log: seq<Record>, frame: bytes): Option<bytes> {
    if |frame| < COUNTER_LEN + TAG_LEN then None
    else Decrypt(log, c.recvKey, NonceFor(CounterOf(frame)), AadFor(c.sessionId, c.recvDir), frame[COUNTER_LEN..])
  }

  function OpenStep(c: Channel, log: seq<Record>, frame: bytes): (Channel, Result<bytes, CryptoError>) {
    if |frame| < COUNTER_LEN + TAG_LEN then (c, Err(Malformed))
    else if !Replay.Fresh(c.recvLast, CounterOf(frame)) then (c, Err(ReplayedFrame))
    else
      match Genuine(c, log, frame)
      case None => (c, Err(OpenFailed))
      case Some(pt) => (c.(recvLast := Some(CounterOf(frame))), Ok(pt))
  }

  /** The ideal cipher's record of what was released. */
  class Aead {
    var log: seq<Record>

    constructor ()
      ensures log == []
    {
      log := [];
    }

    method Encrypt(pt: bytes) returns (ct: bytes)
      ensures |ct| == |pt| + TAG_LEN
    {
      assert |pt + seq(TAG_LEN, i => 0)| == |pt| + TAG_LEN;
      ct :| |ct| == |pt| + TAG_LEN;
    }
  }

  /** The channel object both peers hold. */
  class SecureChannel {
    const id: nat
    const sendKey: Key
    const recvKey: Key
    const sendDir: byte
    const recvDir: byte
    const sessionId: bytes
    var sendCounter: u64
    var recvLast: Option<u64>

    function View(): Channel
      reads this
    {
      Channel(sendKey, recvKey, sendDir, recvDir, sessionId, sendCounter, recvLast)
    }

    constructor (id: nat, s: Setup)
      ensures View() == New(s) && this.id == id
    {
      this.id := id;
      var (c2a, a2c) := DeriveKeys(s.shared, s.sessionId, s.controllerPub, s.agentPub);
      sendKey, sendDir, recvKey, recvDir :=
        (if s.role == Controller then c2a else a2c), (if s.role == Controller then DIR_C2A else DIR_A2C),
        (if s.role == Controller then a2c else c2a), (if s.role == Controller then DIR_A2C else DIR_C2A);
      sessionId := s.sessionId;
      sendCounter := 0;
      recvLast := None;
    }

    /** The plaintext is encrypted before the counter is found to be exhausted; that ciphertext is never released. */
    method Seal(aead: Aead, pt: bytes) returns (r: Result<bytes, CryptoError>, ghost ct: bytes)
      modifies this`sendCounter, aead
      ensures |ct| == |pt| + TAG_LEN
      ensures (View(), r) == SealStep(old(View()), ct)
      ensures aead.log == if r.Ok? then old(aead.log) + [RecordOf(old(View()), id, pt, ct)] else old(aead.log)
    {
      var counter := sendCounter;
      var nonce := NonceFor(counter);
      var aad := AadFor(sessionId, sendDir);
      var sealed := aead.Encrypt(pt);
      ct := sealed;
      if sendCounter == U64_MAX {
        return Err(CounterExhausted), ct;
      }
      sendCounter := sendCounter + 1;
      aead.log := aead.log + [Record(sendKey, nonce, aad, sealed, pt, id, counter)];
      var frame := BigEndian(counter, COUNTER_LEN) + sealed;
      return Ok(frame), ct;
    }

    method Open(aead: Aead, frame: bytes) returns (r: Result<bytes, CryptoError>)
      modifies this`recvLast
      ensures (View(), r) == OpenStep(old(View()), aead.log, frame)
    {
      if |frame| < COUNTER_LEN + TAG_LEN {
        return Err(Malformed);
      }
      var counter := CounterOf(frame);
      if recvLast.Some? && counter <= recvLast.value {
        return Err(ReplayedFrame);
      }
      var nonce := NonceFor(counter);
      var aad := AadFor(sessionId, recvDir);
      var pt := Decrypt(aead.log, recvKey, nonce, aad, frame[COUNTER_LEN..]);
      if pt.None? {
        return Err(OpenFailed);
      }
      recvLast := Some(counter);
      return Ok(pt.value);
    }
  }
}
