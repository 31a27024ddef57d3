/**
 Any number of channel ends sealing, and frames of any bytes at all delivered to
 them in any order: what each end opens.
 */
module SecureStream {
  import opened Basics
  import opened Protocol
  import opened SecureChannel
  import Replay

  /**
   A channel end with its history: plaintexts sealed, frames released and where each is in the cipher's log; plaintexts
   opened with their counters, and the counters of all genuine frames delivered.
   */
  datatype End = End(
    setup: Setup,
    chan: Channel,
    sealed: seq<bytes>,
    frames: seq<bytes>,
    logged: seq<nat>,
    received: seq<bytes>,
    receivedAt: seq<u64>,
    genuine: seq<u64>)

  datatype System = System(log: seq<Record>, ends: seq<End>)

  datatype Event =
    | Builds(setup: Setup)
    | Seals(i: nat, pt: bytes, ct: bytes)
    | Delivers(j: nat, frame: bytes)

  function SealEvent(s: System, i: nat, pt: bytes, ct: bytes): System {
    if i >= |s.ends| || |ct| != |pt| + TAG_LEN then s else
    var me := s.ends[i];
    match SealStep(me.chan, ct)
    case (_, Err(_)) => s
    case (chan, Ok(frame)) =>
      System(s.log + [RecordOf(me.chan, i, pt, ct)],
             s.ends[i := me.(chan := chan, sealed := me.sealed + [pt], frames := me.frames + [frame], logged := me.logged + [|s.log|])])
  }

  function DeliverEvent(s: System, j: nat, frame: bytes): System {
    if j >= |s.ends| then s else
    var me := s.ends[j];
    var (chan, r) := OpenStep(me.chan, s.log, frame);
    var seen := if Genuine(me.chan, s.log, frame).Some? then me.genuine + [CounterOf(frame)] else me.genuine;
    var me' := if r.Ok? then me.(received := me.received + [r.value], receivedAt := me.receivedAt + [CounterOf(frame)]) else me;
    s.(ends := s.ends[j := me'.(chan := chan, genuine := seen)])
  }

  function Step(s: System, e: Event): System {
    match e
    case Builds(setup) => s.(ends := s.ends + [End(setup, New(setup), [], [], [], [], [], [])])
    case Seals(i, pt, ct) => SealEvent(s, i, pt, ct)
    case Delivers(j, frame) => DeliverEvent(s, j, frame)
  }

  function Run(events: seq<Event>): System {
    if events == [] then System([], []) else
    Step(Run(events[..|events| - 1]), events[|events| - 1])
  }

  // ---------- what every step keeps ----------

  /** Record `x` of the log is the `counter`-th sealing of the end it names. */
  predicate RecordJustified(s: System, x: nat)
    requires x < |s.log|
  {
    var r := s.log[x];
    && r.from < |s.ends|
    && var me := s.ends[r.from];
       && r.counter < |me.sealed| == |me.logged| == |me.frames| <= U64_MAX
       && me.logged[r.counter] == x
       && r.key == me.chan.sendKey && r.nonce == NonceFor(r.counter) && r.aad == AadFor(me.chan.sessionId, me.chan.sendDir)
       && r.pt == me.sealed[r.counter] && me.frames[r.counter] == Frame(r.counter, r.ct) && |r.ct| == |r.pt| + TAG_LEN
  }

  /** The sending side: frame `c` carries counter `c` and is in the log. */
  predicate SenderSound(s: System, i: nat)
    requires i < |s.ends|
  {
    var me := s.ends[i];
    && me.chan.sendCounter == |me.sealed| == |me.frames| == |me.logged|
    && (forall c :: 0 <= c < |me.logged| ==> me.logged[c] < |s.log| && s.log[me.logged[c]].from == i && s.log[me.logged[c]].counter == c)
    && me.chan == New(me.setup).(sendCounter := me.chan.sendCounter, recvLast := me.chan.recvLast)
  }

  /** `pt` was the `c`-th plaintext sealed by some end whose sending key is the one `j` receives under. */
  ghost predicate SealedFor(s: System, j: nat, c: nat, pt: bytes)
    requires j < |s.ends|
  {
    exists i :: 0 <= i < |s.ends| && s.ends[i].chan.sendKey == s.ends[j].chan.recvKey && c < |s.ends[i].sealed| && s.ends[i].sealed[c] == pt
  }

  /** The receiving side: everything opened was sealed for it, and its filter has taken the running maxima of what was genuine. */
  ghost predicate ReceiverSound(s: System, j: nat)
    requires j < |s.ends|
  {
    var me := s.ends[j];
    && |me.received| == |me.receivedAt|
    && (forall k :: 0 <= k < |me.received| ==> SealedFor(s, j, me.receivedAt[k], me.received[k]))
    && me.receivedAt == Replay.Accepted(me.genuine)
    && me.chan.recvLast == Replay.After(me.genuine)
  }

  ghost predicate Inv(s: System) {
    && (forall x :: 0 <= x < |s.log| ==> RecordJustified(s, x))
    && (forall i :: 0 <= i < |s.ends| ==> SenderSound(s, i) && ReceiverSound(s, i))
  }

  /** Decryption finds a record that matches. */
  lemma {:induction false} DecryptFinds(log: seq<Record>, key: Key, nonce: bytes, aad: bytes, ct: bytes) returns (x: nat)
    requires Decrypt(log, key, nonce, aad, ct).Some?
    ensures x < |log| && log[x].key == key && log[x].nonce == nonce && log[x].aad == aad && log[x].ct == ct
    ensures Decrypt(log, key, nonce, aad, ct) == Some(log[x].pt)
  {
    if log[0].key == key && log[0].nonce == nonce && log[0].aad == aad && log[0].ct == ct {
      x := 0;
    } else {
      x := DecryptFinds(log[1..], key, nonce, aad, ct);
      x := x + 1;
    }
  }

  /** Decryption succeeds whenever some record matches. */
  lemma {:induction false} DecryptSucceeds(log: seq<Record>, x: nat)
    requires x < |log|
    ensures Decrypt(log, log[x].key, log[x].nonce, log[x].aad, log[x].ct).Some?
  {
    if x > 0 {
      DecryptSucceeds(log[1..], x - 1);
    }
  }

  /** A genuine frame is somebody's, under the counter it shows. */
  lemma GenuineIsSealed(s: System, j: nat, frame: bytes)
    requires Inv(s) && j < |s.ends| && Genuine(s.ends[j].chan, s.log, frame).Some?
    ensures SealedFor(s, j, CounterOf(frame), Genuine(s.ends[j].chan, s.log, frame).value)
  {
    var me := s.ends[j].chan;
    var x := DecryptFinds(s.log, me.recvKey, NonceFor(CounterOf(frame)), AadFor(me.sessionId, me.recvDir), frame[COUNTER_LEN..]);
    assert RecordJustified(s, x);
    NonceInjective(s.log[x].counter, CounterOf(frame));
  }

  /** Nothing about older records, plaintexts or keys is undone. */
  ghost predicate Grows(s: System, s': System) {
    && |s.ends| <= |s'.ends| && s.log <= s'.log
    && forall i :: 0 <= i < |s.ends| ==>
         && s'.ends[i].chan.sendKey == s.ends[i].chan.sendKey && s'.ends[i].chan.recvKey == s.ends[i].chan.recvKey
         && s.ends[i].sealed <= s'.ends[i].sealed
  }

  lemma StaysSealedFor(s: System, s': System, j: nat, c: nat, pt: bytes)
    requires Grows(s, s') && j < |s.ends| && SealedFor(s, j, c, pt)
    ensures SealedFor(s', j, c, pt)
  {
    var i :| 0 <= i < |s.ends| && s.ends[i].chan.sendKey == s.ends[j].chan.recvKey && c < |s.ends[i].sealed| && s.ends[i].sealed[c] == pt;
    assert s'.ends[i].sealed[c] == pt;
  }

  lemma ReceiverKept(s: System, s': System, j: nat)
    requires Grows(s, s') && j < |s.ends| && ReceiverSound(s, j)
    requires var me, me' := s.ends[j], s'.ends[j];
      me'.received == me.received && me'.receivedAt == me.receivedAt && me'.genuine == me.genuine && me'.chan.recvLast == me.chan.recvLast
    ensures ReceiverSound(s', j)
  {
    var me := s.ends[j];
    forall k | 0 <= k < |me.received| ensures SealedFor(s', j, me.receivedAt[k], me.received[k]) {
      StaysSealedFor(s, s', j, me.receivedAt[k], me.received[k]);
    }
  }

  lemma BuildKeeps(s: System, setup: Setup)
    requires Inv(s)
    ensures Inv(Step(s, Builds(setup)))
  {
    var s' := Step(s, Builds(setup));
    forall x | 0 <= x < |s'.log| ensures RecordJustified(s', x) { assert RecordJustified(s, x); }
    forall i | 0 <= i < |s'.ends| ensures SenderSound(s', i) && ReceiverSound(s', i) {
      if i < |s.ends| {
        assert SenderSound(s, i);
        ReceiverKept(s, s', i);
      }
    }
  }

  lemma SealKeeps(s: System, i: nat, pt: bytes, ct: bytes)
    requires Inv(s) && i < |s.ends| && |ct| == |pt| + TAG_LEN && s.ends[i].chan.sendCounter < U64_MAX
    ensures Inv(SealEvent(s, i, pt, ct))
  {
    var s' := SealEvent(s, i, pt, ct);
    assert SenderSound(s, i);
    forall x | 0 <= x < |s'.log| ensures RecordJustified(s', x) {
      if x < |s.log| { assert RecordJustified(s, x); }
    }
    forall k | 0 <= k < |s'.ends| ensures SenderSound(s', k) && ReceiverSound(s', k) {
      assert SenderSound(s, k);
      ReceiverKept(s, s', k);
    }
  }

  lemma DeliverReceiver(s: System, j: nat, frame: bytes)
    requires Inv(s) && j < |s.ends|
    ensures ReceiverSound(DeliverEvent(s, j, frame), j)
  {
    var s' := DeliverEvent(s, j, frame);
    var me, me' := s.ends[j], s'.ends[j];
    assert ReceiverSound(s, j);
    assert Grows(s, s');
    forall k | 0 <= k < |me'.received| ensures SealedFor(s', j, me'.receivedAt[k], me'.received[k]) {
      if k == |me.received| { GenuineIsSealed(s, j, frame); }
      StaysSealedFor(s, s', j, me'.receivedAt[k], me'.received[k]);
    }
    if Genuine(me.chan, s.log, frame).Some? {
      assert me'.genuine[..|me.genuine|] == me.genuine;
    }
  }

  /** Delivering touches one end's receiving side only. */
  lemma DeliverTouches(s: System, j: nat, frame: bytes)
    requires j < |s.ends|
    ensures var s' := DeliverEvent(s, j, frame);
      && s'.log == s.log && |s'.ends| == |s.ends|
      && s'.ends[j].chan == s.ends[j].chan.(recvLast := s'.ends[j].chan.recvLast)
      && s'.ends[j].setup == s.ends[j].setup && s'.ends[j].sealed == s.ends[j].sealed
      && s'.ends[j].frames == s.ends[j].frames && s'.ends[j].logged == s.ends[j].logged
      && forall k :: 0 <= k < |s.ends| && k != j ==> s'.ends[k] == s.ends[k]
  {
  }

  lemma DeliverKeeps(s: System, j: nat, frame: bytes)
    requires Inv(s) && j < |s.ends|
    ensures Inv(DeliverEvent(s, j, frame))
  {
    DeliverTouches(s, j, frame);
    DeliverReceiver(s, j, frame);
    SendersKeep(s, DeliverEvent(s, j, frame), j);
  }

  lemma SendersKeep(s: System, s': System, j: nat)
    requires Inv(s) && j < |s.ends| == |s'.ends| && s'.log == s.log && ReceiverSound(s', j)
    requires s'.ends[j].chan == s.ends[j].chan.(recvLast := s'.ends[j].chan.recvLast)
    requires s'.ends[j].setup == s.ends[j].setup && s'.ends[j].sealed == s.ends[j].sealed
    requires s'.ends[j].frames == s.ends[j].frames && s'.ends[j].logged == s.ends[j].logged
    requires forall k :: 0 <= k < |s.ends| && k != j ==> s'.ends[k] == s.ends[k]
    ensures Inv(s')
  {
    forall x | 0 <= x < |s'.log| ensures RecordJustified(s', x) { assert RecordJustified(s, x); }
    forall k | 0 <= k < |s'.ends| ensures SenderSound(s', k) && ReceiverSound(s', k) {
      assert SenderSound(s, k);
      if k != j { ReceiverKept(s, s', k); }
    }
  }

  lemma {:induction false} RunKeeps(events: seq<Event>)
    ensures Inv(Run(events))
  {
    if events != [] {
      var last := |events| - 1;
      RunKeeps(events[..last]);
      var s := Run(events[..last]);
      match events[last]
      case Builds(setup) => BuildKeeps(s, setup);
      case Seals(i, pt, ct) =>
        if i < |s.ends| && |ct| == |pt| + TAG_LEN && s.ends[i].chan.sendCounter < U64_MAX { SealKeeps(s, i, pt, ct); }
      case Delivers(j, frame) => if j < |s.ends| { DeliverKeeps(s, j, frame); }
    }
  }

  // ---------- what a channel promises ----------

  /** No handshake was used to build two ends of the same role. */
  predicate DistinctSetups(s: System) {
    forall i, j :: 0 <= i < j < |s.ends| ==> s.ends[i].setup != s.ends[j].setup
  }

  predicate Counterparts(s: System, i: nat, j: nat) {
    i < |s.ends| && j < |s.ends| && s.ends[i].setup == s.ends[j].setup.(role := s.ends[j].setup.role.Other())
  }

  lemma OpenedIsCounterparts(s: System, i: nat, j: nat, k: nat)
    requires Inv(s) && DistinctSetups(s) && Counterparts(s, i, j) && k < |s.ends[j].received|
    ensures k < |s.ends[j].receivedAt| && s.ends[j].receivedAt[k] < |s.ends[i].sealed|
    ensures s.ends[j].received[k] == s.ends[i].sealed[s.ends[j].receivedAt[k]]
  {
    var me := s.ends[j];
    assert ReceiverSound(s, j) && SealedFor(s, j, me.receivedAt[k], me.received[k]);
    var x :| 0 <= x < |s.ends| && s.ends[x].chan.sendKey == me.chan.recvKey && me.receivedAt[k] < |s.ends[x].sealed| &&
      s.ends[x].sealed[me.receivedAt[k]] == me.received[k];
    assert SenderSound(s, x) && SenderSound(s, j);
    LinkedIffCounterparts(s.ends[x].setup, me.setup);
  }

  /**
   Whatever is delivered to an end, in whatever interleaving, what it opens are its counterpart's plaintexts at strictly
   rising positions, so in order and each at most once.
   */
  lemma OpensCounterpartsStream(events: seq<Event>, i: nat, j: nat)
    requires DistinctSetups(Run(events)) && Counterparts(Run(events), i, j)
    ensures var me, peer := Run(events).ends[j], Run(events).ends[i];
      && |me.received| == |me.receivedAt| && Replay.StrictlyIncreasing(me.receivedAt)
      && forall k :: 0 <= k < |me.received| ==> me.receivedAt[k] < |peer.sealed| && me.received[k] == peer.sealed[me.receivedAt[k]]
  {
    RunKeeps(events);
    assert ReceiverSound(Run(events), j);
    Replay.AcceptedIncreases(Run(events).ends[j].genuine);
    forall k | 0 <= k < |Run(events).ends[j].received|
      ensures Run(events).ends[j].receivedAt[k] < |Run(events).ends[i].sealed|
      ensures Run(events).ends[j].received[k] == Run(events).ends[i].sealed[Run(events).ends[j].receivedAt[k]]
    {
      OpenedIsCounterparts(Run(events), i, j, k);
    }
  }

  /** An end that opened anything has a counterpart: same secret, session and device keys, other role. */
  lemma OpensOnlyCounterparts(events: seq<Event>, j: nat)
    requires j < |Run(events).ends| && Run(events).ends[j].received != []
    ensures exists i: nat :: Counterparts(Run(events), i, j) && Run(events).ends[i].sealed != []
  {
    var s := Run(events);
    RunKeeps(events);
    var me := s.ends[j];
    assert ReceiverSound(s, j) && SealedFor(s, j, me.receivedAt[0], me.received[0]);
    var x: nat :| 0 <= x < |s.ends| && s.ends[x].chan.sendKey == me.chan.recvKey && me.receivedAt[0] < |s.ends[x].sealed| &&
      s.ends[x].sealed[me.receivedAt[0]] == me.received[0];
    assert SenderSound(s, x) && SenderSound(s, j);
    LinkedIffCounterparts(s.ends[x].setup, me.setup);
    assert Counterparts(s, x, j);
  }

  /** A released frame is its counter and the ciphertext of its record. */
  lemma FrameParts(s: System, i: nat, c: nat) returns (x: nat)
    requires Inv(s) && i < |s.ends| && c < |s.ends[i].frames|
    ensures var me := s.ends[i];
      && c < |me.sealed| == |me.logged| && c <= U64_MAX && x == me.logged[c] < |s.log|
      && |me.frames[c]| >= COUNTER_LEN + TAG_LEN && CounterOf(me.frames[c]) == c && me.frames[c][COUNTER_LEN..] == s.log[x].ct
      && s.log[x] == Record(me.chan.sendKey, NonceFor(c), AadFor(me.chan.sessionId, me.chan.sendDir), s.log[x].ct, me.sealed[c], i, c)
  {
    var me := s.ends[i];
    assert SenderSound(s, i);
    x := me.logged[c];
    assert RecordJustified(s, x);
    assert me.frames[c][..COUNTER_LEN] == BigEndian(c, COUNTER_LEN) && me.frames[c][COUNTER_LEN..] == s.log[x].ct;
    CounterRoundTrip(c);
  }

  /** A frame its counterpart released opens to its plaintext exactly when its counter is above the last one opened. */
  lemma ReleasedFrameOpens(events: seq<Event>, i: nat, j: nat, c: nat)
    requires DistinctSetups(Run(events)) && Counterparts(Run(events), i, j) && c < |Run(events).ends[i].frames|
    ensures var s := Run(events); var me, peer := s.ends[j], s.ends[i];
      && c < |peer.sealed| && c <= U64_MAX && |peer.frames[c]| >= COUNTER_LEN && CounterOf(peer.frames[c]) == c
      && Genuine(me.chan, s.log, peer.frames[c]) == Some(peer.sealed[c])
      && OpenStep(me.chan, s.log, peer.frames[c]).1 ==
         if Replay.Fresh(me.chan.recvLast, c) then Ok(peer.sealed[c]) else Err(ReplayedFrame)
  {
    var s := Run(events);
    RunKeeps(events);
    var me, peer := s.ends[j], s.ends[i];
    assert SenderSound(s, i) && SenderSound(s, j);
    var x := FrameParts(s, i, c);
    LinkedIffCounterparts(peer.setup, me.setup);
    DecryptSucceeds(s.log, x);
    var y := DecryptFinds(s.log, me.chan.recvKey, NonceFor(c), AadFor(me.chan.sessionId, me.chan.recvDir), s.log[x].ct);
    assert RecordJustified(s, y);
    NonceInjective(s.log[y].counter, c);
    assert SenderSound(s, s.log[y].from);
    LinkedIffCounterparts(s.ends[s.log[y].from].setup, me.setup);
  }

  /** Frame `c` of end `i` is this one, byte for byte. */
  predicate Released(s: System, i: nat, c: nat, frame: bytes) {
    i < |s.ends| && c < |s.ends[i].frames| && s.ends[i].frames[c] == frame
  }

  lemma GenuineWasReleased(s: System, j: nat, frame: bytes) returns (i: nat, c: nat)
    requires Inv(s) && j < |s.ends| && Genuine(s.ends[j].chan, s.log, frame).Some?
    ensures Counterparts(s, i, j) && Released(s, i, c, frame)
  {
    var me := s.ends[j];
    var x := DecryptFinds(s.log, me.chan.recvKey, NonceFor(CounterOf(frame)), AadFor(me.chan.sessionId, me.chan.recvDir),
                          frame[COUNTER_LEN..]);
    assert RecordJustified(s, x);
    i, c := s.log[x].from, s.log[x].counter;
    NonceInjective(c, CounterOf(frame));
    assert SenderSound(s, i) && SenderSound(s, j);
    LinkedIffCounterparts(s.ends[i].setup, me.setup);
    BigEndianOnto(frame[..COUNTER_LEN]);
    assert frame == frame[..COUNTER_LEN] + frame[COUNTER_LEN..];
  }

  lemma ReleasedIsGenuine(s: System, i: nat, c: nat, j: nat, frame: bytes)
    requires Inv(s) && Counterparts(s, i, j) && Released(s, i, c, frame)
    ensures Genuine(s.ends[j].chan, s.log, frame).Some?
  {
    var me, peer := s.ends[j], s.ends[i];
    assert SenderSound(s, i) && SenderSound(s, j);
    var x := peer.logged[c];
    assert RecordJustified(s, x);
    assert frame[..COUNTER_LEN] == BigEndian(c, COUNTER_LEN) && frame[COUNTER_LEN..] == s.log[x].ct;
    CounterRoundTrip(c);
    LinkedIffCounterparts(peer.setup, me.setup);
    DecryptSucceeds(s.log, x);
  }

  /**
   The frames an end takes for genuine are, byte for byte, those a counterpart released: same secret, session and device
   keys, other role. So no frame of another session or direction, and no changed frame, is ever opened.
   */
  lemma GenuineIffReleased(events: seq<Event>, j: nat, frame: bytes)
    requires j < |Run(events).ends|
    ensures var s := Run(events);
      Genuine(s.ends[j].chan, s.log, frame).Some? <==> exists i: nat, c: nat :: Counterparts(s, i, j) && Released(s, i, c, frame)
    ensures var s := Run(events); OpenStep(s.ends[j].chan, s.log, frame).1.Ok? ==> Genuine(s.ends[j].chan, s.log, frame).Some?
  {
    var s := Run(events);
    RunKeeps(events);
    if Genuine(s.ends[j].chan, s.log, frame).Some? {
      var i, c := GenuineWasReleased(s, j, frame);
    }
    if i: nat, c: nat :| Counterparts(s, i, j) && Released(s, i, c, frame) {
      ReleasedIsGenuine(s, i, c, j, frame);
    }
  }

  /** A strictly rising stream passes the replay filter whole. */
  lemma {:induction false} RisingAllAccepted(stream: seq<u64>)
    requires Replay.StrictlyIncreasing(stream)
    ensures Replay.Accepted(stream) == stream
  {
    if stream != [] {
      var n := |stream| - 1;
      RisingAllAccepted(stream[..n]);
      Replay.AcceptedIffRunningMaximum(stream, n);
      assert stream[..n] + [stream[n]] == stream;
    }
  }

  /** The counters opened are the running maxima of the genuine ones: junk in between neither opens nor hides anything. */
  lemma JunkIsInvisible(events: seq<Event>, j: nat)
    requires j < |Run(events).ends|
    ensures Run(events).ends[j].receivedAt == Replay.Accepted(Run(events).ends[j].genuine)
    ensures Replay.StrictlyIncreasing(Run(events).ends[j].genuine) ==> Run(events).ends[j].receivedAt == Run(events).ends[j].genuine
  {
    RunKeeps(events);
    assert ReceiverSound(Run(events), j);
    if Replay.StrictlyIncreasing(Run(events).ends[j].genuine) { RisingAllAccepted(Run(events).ends[j].genuine); }
  }

  /** The frames an end releases carry the counters 0, 1, 2, ... below the last; no two have the same counter bytes. */
  lemma CountersCountUp(events: seq<Event>, i: nat, c: nat)
    requires i < |Run(events).ends| && c < |Run(events).ends[i].frames|
    ensures var frames := Run(events).ends[i].frames;
      && |frames| <= U64_MAX && |frames[c]| >= COUNTER_LEN + TAG_LEN && CounterOf(frames[c]) == c
      && forall d :: 0 <= d < |frames| && d != c ==> |frames[d]| >= COUNTER_LEN && frames[d][..COUNTER_LEN] != frames[c][..COUNTER_LEN]
  {
    var s := Run(events);
    RunKeeps(events);
    assert SenderSound(s, i);
    var me := s.ends[i];
    forall d | 0 <= d < |me.frames| ensures |me.frames[d]| >= COUNTER_LEN + TAG_LEN && CounterOf(me.frames[d]) == d {
      assert RecordJustified(s, me.logged[d]);
      assert me.frames[d][..COUNTER_LEN] == BigEndian(d, COUNTER_LEN);
      CounterRoundTrip(d);
    }
  }

  predicate SameNonce(s: System, x: nat, y: nat)
    requires x < |s.log| && y < |s.log|
  {
    s.log[x].key == s.log[y].key && s.log[x].nonce == s.log[y].nonce
  }

  /** Two ends were built from the same inputs, and each sealed something. */
  predicate BothSealed(s: System, i: nat, j: nat)
    requires i < |s.ends| && j < |s.ends|
  {
    s.ends[i].setup == s.ends[j].setup && s.ends[i].sealed != [] && s.ends[j].sealed != []
  }

  lemma SameNonceSameSetup(s: System, x: nat, y: nat)
    requires Inv(s) && x < y < |s.log| && SameNonce(s, x, y)
    ensures s.log[x].from < |s.ends| && s.log[y].from < |s.ends| && s.log[x].from != s.log[y].from
    ensures BothSealed(s, s.log[x].from, s.log[y].from)
  {
    assert RecordJustified(s, x) && RecordJustified(s, y);
    var i, j := s.log[x].from, s.log[y].from;
    assert SenderSound(s, i) && SenderSound(s, j);
    LinkedIffCounterparts(s.ends[i].setup, s.ends[j].setup);
    NonceInjective(s.log[x].counter, s.log[y].counter);
  }

  lemma SameSetupSameNonce(s: System, i: nat, j: nat)
    requires Inv(s) && i < |s.ends| && j < |s.ends| && i != j && BothSealed(s, i, j)
    ensures exists x, y :: 0 <= x < y < |s.log| && SameNonce(s, x, y)
  {
    assert SenderSound(s, i) && SenderSound(s, j);
    var x, y := s.ends[i].logged[0], s.ends[j].logged[0];
    assert RecordJustified(s, x) && RecordJustified(s, y);
    assert x != y && SameNonce(s, x, y) && SameNonce(s, y, x);
    if y < x { assert SameNonce(s, y, x); }
  }

  /**
   A key is used twice with one nonce exactly when a channel was built a second time from the inputs of one that sealed
   something, and sealed something too. So one channel never repeats a nonce, nor do the two directions.
   */
  lemma NonceReusedIff(events: seq<Event>)
    ensures var s := Run(events);
      (exists x, y :: 0 <= x < y < |s.log| && SameNonce(s, x, y)) <==>
      (exists i, j :: 0 <= i < j < |s.ends| && BothSealed(s, i, j))
  {
    var s := Run(events);
    RunKeeps(events);
    if x, y :| 0 <= x < y < |s.log| && SameNonce(s, x, y) {
      SameNonceSameSetup(s, x, y);
      var i, j := s.log[x].from, s.log[y].from;
      assert BothSealed(s, if i < j then i else j, if i < j then j else i);
    }
    if i, j :| 0 <= i < j < |s.ends| && BothSealed(s, i, j) {
      SameSetupSameNonce(s, i, j);
    }
  }

  /** Once the counter is exhausted, nothing more is ever released. */
  lemma {:induction false} ExhaustedForGood(events: seq<Event>, more: seq<Event>, i: nat)
    requires i < |Run(events).ends| && Run(events).ends[i].chan.sendCounter == U64_MAX
    ensures i < |Run(events + more).ends| && Run(events + more).ends[i].frames == Run(events).ends[i].frames
    ensures Run(events + more).ends[i].chan.sendCounter == U64_MAX
    ensures forall ct :: SealStep(Run(events + more).ends[i].chan, ct).1 == Err(CounterExhausted)
  {
    if more == [] {
      assert events + more == events;
    } else {
      var last := |more| - 1;
      ExhaustedForGood(events, more[..last], i);
      assert (events + more)[..|events + more| - 1] == events + more[..last];
    }
  }

  /** Sealing succeeds exactly until 2^64 - 1 frames are out. */
  lemma SealsUntilExhausted(events: seq<Event>, i: nat, ct: bytes)
    requires i < |Run(events).ends|
    ensures SealStep(Run(events).ends[i].chan, ct).1.Ok? <==> |Run(events).ends[i].frames| < 18446744073709551615
  {
    RunKeeps(events);
    assert SenderSound(Run(events), i);
  }

  /** Above every counter the end has opened so far. */
  ghost predicate AboveOpened(me: End, counter: u64) {
    forall k :: 0 <= k < |me.receivedAt| ==> me.receivedAt[k] < counter
  }

  /**
   What becomes of any bytes delivered to any end: too short to hold a counter and a tag, they are malformed; with a counter
   not above all those opened, they are a replay; otherwise they open exactly if a counterpart released them, byte for byte.
   */
  lemma OpenOutcome(events: seq<Event>, j: nat, frame: bytes)
    requires j < |Run(events).ends|
    ensures var s := Run(events); var me := s.ends[j]; var r := OpenStep(me.chan, s.log, frame).1;
      if |frame| < 24 then r == Err(Malformed)
      else if !AboveOpened(me, CounterOf(frame)) then r == Err(ReplayedFrame)
      else if exists i: nat, c: nat :: Counterparts(s, i, j) && Released(s, i, c, frame) then r.Ok?
      else r == Err(OpenFailed)
  {
    var s := Run(events);
    var me := s.ends[j];
    RunKeeps(events);
    assert ReceiverSound(s, j);
    if |frame| >= 24 {
      FilterIsOpened(me, CounterOf(frame));
      GenuineIffReleased(events, j, frame);
    }
  }

  lemma FilterIsOpened(me: End, counter: u64)
    requires me.receivedAt == Replay.Accepted(me.genuine) && me.chan.recvLast == Replay.After(me.genuine)
    ensures AboveOpened(me, counter) <==> Replay.Fresh(me.chan.recvLast, counter)
  {
    Replay.AcceptedIncreases(me.genuine);
  }
}
