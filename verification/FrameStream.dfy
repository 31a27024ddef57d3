/**
 Screen frames over the data channel: the agent cuts each frame into messages with an eight-byte header, the viewer puts
 them together again. A send may fail in the middle of a frame.
 */
module FrameStream {
  import opened Basics

  const HEADER_LEN := 8
  const CHUNK_PAYLOAD := 16 * 1024 - HEADER_LEN
  const MESSAGE_MAX := 16 * 1024

  // ---------- the sender ----------

  /** `len` over `CHUNK_PAYLOAD`, which is 16376, rounded up; at least one. */
  function ChunkCount(len: nat): nat {
    var n := (len + 16375) / 16376;
    if n < 1 then 1 else n
  }

  /** The data in pieces of `CHUNK_PAYLOAD` bytes, the last one shorter; no piece when there is no data. */
  function Chunks(data: bytes): seq<bytes> {
    if data == [] then []
    else if |data| <= CHUNK_PAYLOAD then [data]
    else [data[..CHUNK_PAYLOAD]] + Chunks(data[CHUNK_PAYLOAD..])
  }

  function Le16(n: u16): bytes {
    [n % 256, n / 256]
  }

  function Le32(n: u32): bytes {
    [n % 256, n / 256 % 256, n / 0x1_0000 % 256, n / 0x100_0000]
  }

  function Header(id: u32, index: u16, count: u16): bytes {
    Le32(id) + Le16(index) + Le16(count)
  }

  /** A cast to u16 drops the high bits. */
  function AsU16(n: nat): u16 {
    n % 0x1_0000
  }

  function Message(id: u32, index: nat, count: nat, payload: bytes): bytes {
    Header(id, AsU16(index), AsU16(count)) + payload
  }

  function Pack(id: u32, count: nat, pieces: seq<bytes>): (ms: seq<bytes>)
    ensures |ms| == |pieces|
  {
    seq(|pieces|, i requires 0 <= i < |pieces| => Message(id, i, count, pieces[i]))
  }

  function Messages(id: u32, data: bytes): seq<bytes> {
    Pack(id, ChunkCount(|data|), Chunks(data))
  }

  /** The channel as `send_frame` finds it. */
  datatype Link = Link(isOpen: bool, buffered: nat)

  /** One call, where the channel takes `accepts` more messages before a send fails. */
  datatype Call = Call(link: Option<Link>, data: bytes, maxBuffered: nat, accepts: nat)

  /** `Ok(true)`, `Ok(false)` and `Err`. */
  datatype Outcome = Sent | Dropped | Failed

  predicate Ready(c: Call) {
    c.link.Some? && c.link.value.isOpen && c.link.value.buffered <= c.maxBuffered
  }

  /** A call that gets as far as taking a frame id. */
  predicate Numbered(c: Call) {
    Ready(c) && ChunkCount(|c.data|) <= U16_MAX
  }

  function NextId(id: u32): u32 {
    if id == U32_MAX then 0 else id + 1
  }

  /** The next frame id, the messages that went out, and what the caller is told. */
  function Attempt(id: u32, c: Call): (u32, seq<bytes>, Outcome) {
    if !Ready(c) then (id, [], Dropped)
    else if ChunkCount(|c.data|) > U16_MAX then (id, [], Failed)
    else
      var all := Messages(id, c.data);
      if c.accepts < |all| then (NextId(id), all[..c.accepts], Failed) else (NextId(id), all, Sent)
  }

  datatype Stream = Stream(next: u32, log: seq<bytes>, outcomes: seq<Outcome>)

  function Run(start: u32, calls: seq<Call>): (s: Stream)
    ensures |s.outcomes| == |calls|
  {
    if calls == [] then Stream(start, [], []) else
    var before := Run(start, calls[..|calls| - 1]);
    var (next, messages, outcome) := Attempt(before.next, calls[|calls| - 1]);
    Stream(next, before.log + messages, before.outcomes + [outcome])
  }

  // ---------- the receiver ----------

  datatype Assembler = Assembler(frame: Option<u32>, expected: nat, chunks: seq<bytes>)

  const IDLE := Assembler(None, 0, [])

  function Flatten(pieces: seq<bytes>): bytes {
    if pieces == [] then [] else Flatten(pieces[..|pieces| - 1]) + pieces[|pieces| - 1]
  }

  function Finish(a: Assembler): (Assembler, Option<bytes>) {
    if |a.chunks| == a.expected then (a.(frame := None, chunks := []), Some(Flatten(a.chunks))) else (a, None)
  }

  function ReadLe16(b: bytes): u16
    requires |b| == 2
  {
    b[0] as int + b[1] as int * 256
  }

  function ReadLe32(b: bytes): u32
    requires |b| == 4
  {
    b[0] as int + b[1] as int * 256 + b[2] as int * 0x1_0000 + b[3] as int * 0x100_0000
  }

  /** Index 0 starts a frame, the next index of the current frame continues it, anything else drops it. */
  function Add(a: Assembler, id: u32, index: nat, count: nat, payload: bytes): (Assembler, Option<bytes>) {
    if index == 0 then Finish(Assembler(Some(id), count, [payload]))
    else if a.frame != Some(id) || |a.chunks| != index then (a.(frame := None, chunks := []), None)
    else Finish(a.(chunks := a.chunks + [payload]))
  }

  function Receive(a: Assembler, m: bytes): (Assembler, Option<bytes>) {
    if |m| < HEADER_LEN then (a, None) else
    var id, index, count := ReadLe32(m[..4]), ReadLe16(m[4..6]), ReadLe16(m[6..8]);
    if count == 0 then (a, None) else Add(a, id, index, count, m[HEADER_LEN..])
  }

  function Output(o: Option<bytes>): seq<bytes> {
    if o.Some? then [o.value] else []
  }

  /** The assembler after a run of messages, and the frames it put together. */
  function ReceiveAll(a: Assembler, ms: seq<bytes>): (Assembler, seq<bytes>) {
    if ms == [] then (a, []) else
    var (b, frames) := ReceiveAll(a, ms[..|ms| - 1]);
    var (c, o) := Receive(b, ms[|ms| - 1]);
    (c, frames + Output(o))
  }

  // ---------- one frame ----------

  lemma {:induction false} ChunksFit(data: bytes)
    ensures |Chunks(data)| == (|data| + 16375) / 16376
    ensures forall i :: 0 <= i < |Chunks(data)| ==> 0 < |Chunks(data)[i]| <= CHUNK_PAYLOAD
  {
    if |data| > CHUNK_PAYLOAD { ChunksFit(data[CHUNK_PAYLOAD..]); }
  }

  lemma {:induction false} FlattenAppend(a: seq<bytes>, b: seq<bytes>)
    ensures Flatten(a + b) == Flatten(a) + Flatten(b)
  {
    if b == [] {
      assert a + b == a;
    } else {
      FlattenAppend(a, b[..|b| - 1]);
      assert (a + b)[..|a + b| - 1] == a + b[..|b| - 1];
    }
  }

  /** Nothing is lost or moved by cutting. */
  lemma {:induction false} FlattenChunks(data: bytes)
    ensures Flatten(Chunks(data)) == data
  {
    if |data| > CHUNK_PAYLOAD {
      FlattenChunks(data[CHUNK_PAYLOAD..]);
      FlattenAppend([data[..CHUNK_PAYLOAD]], Chunks(data[CHUNK_PAYLOAD..]));
      assert Flatten([data[..CHUNK_PAYLOAD]]) == data[..CHUNK_PAYLOAD];
    } else if data != [] {
      assert Flatten([data]) == data;
    }
  }

  lemma Le16ReadsBack(n: u16)
    ensures ReadLe16(Le16(n)) == n
  {
  }

  lemma Le32ReadsBack(n: u32)
    ensures ReadLe32(Le32(n)) == n
  {
    assert n / 0x1_0000 == n / 0x100_0000 * 256 + n / 0x1_0000 % 256;
    assert n / 256 == n / 0x1_0000 * 256 + n / 256 % 256;
  }

  /** The header's fields are wide enough for it to read back. */
  lemma HeaderReadsBack(id: u32, index: u16, count: u16, payload: bytes)
    ensures var m := Header(id, index, count) + payload;
      && |m| == HEADER_LEN + |payload|
      && ReadLe32(m[..4]) == id && ReadLe16(m[4..6]) == index && ReadLe16(m[6..8]) == count
      && m[HEADER_LEN..] == payload
  {
    var m := Header(id, index, count) + payload;
    assert m[..4] == Le32(id) && m[4..6] == Le16(index) && m[6..8] == Le16(count);
    Le32ReadsBack(id);
    Le16ReadsBack(index);
    Le16ReadsBack(count);
  }

  lemma HeaderReceived(a: Assembler, id: u32, index: u16, count: u16, payload: bytes)
    requires count > 0
    ensures Receive(a, Header(id, index, count) + payload) == Add(a, id, index, count, payload)
  {
    HeaderReadsBack(id, index, count, payload);
  }

  lemma CastsKeep(id: u32, index: u16, count: u16, payload: bytes)
    ensures Message(id, index, count, payload) == Header(id, index, count) + payload
  {
    assert AsU16(index) == index && AsU16(count) == count;
  }

  lemma Packed(id: u32, pieces: seq<bytes>, i: nat)
    requires i < |pieces| <= U16_MAX
    ensures Pack(id, |pieces|, pieces)[i] == Header(id, i, |pieces|) + pieces[i]
  {
    assert Pack(id, |pieces|, pieces)[i] == Message(id, i, |pieces|, pieces[i]);
    CastsKeep(id, i, |pieces|, pieces[i]);
  }

  /** The casts lose nothing, no message is over the channel's limit, and the receiver reads the header back. */
  lemma MessageReadsBack(a: Assembler, id: u32, data: bytes, i: nat)
    requires i < |Chunks(data)| && ChunkCount(|data|) <= U16_MAX
    ensures |Chunks(data)| == ChunkCount(|data|) && |Messages(id, data)| == |Chunks(data)|
    ensures Messages(id, data)[i] == Header(id, i, |Chunks(data)|) + Chunks(data)[i]
    ensures HEADER_LEN < |Messages(id, data)[i]| <= MESSAGE_MAX
    ensures Receive(a, Messages(id, data)[i]) == Add(a, id, i, |Chunks(data)|, Chunks(data)[i])
  {
    ChunksFit(data);
    Packed(id, Chunks(data), i);
    HeaderReceived(a, id, i, |Chunks(data)|, Chunks(data)[i]);
  }

  lemma ReceiveSnoc(a: Assembler, ms: seq<bytes>, m: bytes)
    ensures var (b, frames) := ReceiveAll(a, ms);
      ReceiveAll(a, ms + [m]) == (Receive(b, m).0, frames + Output(Receive(b, m).1))
  {
    assert (ms + [m])[..|ms|] == ms;
  }

  /** The `k`-th piece, added to an assembler that holds those before it. */
  lemma AddNext(a: Assembler, id: u32, pieces: seq<bytes>, k: nat)
    requires 1 <= k <= |pieces|
    requires k > 1 ==> a == Assembler(Some(id), |pieces|, pieces[..k - 1])
    ensures Add(a, id, k - 1, |pieces|, pieces[k - 1]) ==
            if k == |pieces| then (Assembler(None, k, []), Some(Flatten(pieces))) else (Assembler(Some(id), |pieces|, pieces[..k]), None)
  {
    var held := if k == 1 then [pieces[0]] else pieces[..k - 1] + [pieces[k - 1]];
    assert held == pieces[..k];
    assert Add(a, id, k - 1, |pieces|, pieces[k - 1]) == Finish(Assembler(Some(id), |pieces|, held));
    if k == |pieces| { assert held == pieces; }
  }

  /** Every message reads as the next piece. */
  ghost predicate Carries(ms: seq<bytes>, id: u32, pieces: seq<bytes>) {
    |ms| == |pieces| && forall a, i :: 0 <= i < |ms| ==> Receive(a, ms[i]) == Add(a, id, i, |pieces|, pieces[i])
  }

  lemma MessagesCarry(id: u32, data: bytes)
    requires ChunkCount(|data|) <= U16_MAX
    ensures Carries(Messages(id, data), id, Chunks(data))
  {
    ChunksFit(data);
    forall a, i | 0 <= i < |Messages(id, data)|
      ensures Receive(a, Messages(id, data)[i]) == Add(a, id, i, |Chunks(data)|, Chunks(data)[i])
    {
      MessageReadsBack(a, id, data, i);
    }
  }

  /** The first `k` messages of a frame, whatever the assembler was doing before. */
  lemma {:induction false} FramePrefix(a: Assembler, ms: seq<bytes>, id: u32, pieces: seq<bytes>, k: nat)
    requires Carries(ms, id, pieces) && 1 <= k <= |pieces|
    ensures ReceiveAll(a, ms[..k]) ==
            if k == |pieces| then (Assembler(None, k, []), [Flatten(pieces)]) else (Assembler(Some(id), |pieces|, pieces[..k]), [])
  {
    assert ms[..k] == ms[..k - 1] + [ms[k - 1]];
    ReceiveSnoc(a, ms[..k - 1], ms[k - 1]);
    if k > 1 { FramePrefix(a, ms, id, pieces, k - 1); }
    var (b, frames) := ReceiveAll(a, ms[..k - 1]);
    AddNext(b, id, pieces, k);
    var o := Receive(b, ms[k - 1]).1;
    assert Receive(b, ms[k - 1]) == Add(b, id, k - 1, |pieces|, pieces[k - 1]);
    assert frames == [] && frames + Output(o) == Output(o);
  }

  // ---------- runs ----------

  lemma {:induction false} ReceiveAppend(a: Assembler, s: seq<bytes>, t: seq<bytes>)
    ensures var (b, frames) := ReceiveAll(a, s);
      ReceiveAll(a, s + t) == (ReceiveAll(b, t).0, frames + ReceiveAll(b, t).1)
  {
    var (b, frames) := ReceiveAll(a, s);
    if t == [] {
      assert s + t == s;
      assert frames + [] == frames;
    } else {
      var begin, m := t[..|t| - 1], t[|t| - 1];
      ReceiveAppend(a, s, begin);
      AppendSnoc(s, t);
      ReceiveSnoc(a, s + begin, m);
      var (c, more) := ReceiveAll(b, begin);
      assert (frames + more) + Output(Receive(c, m).1) == frames + (more + Output(Receive(c, m).1));
    }
  }

  /** The frames whose call returned `Ok(true)`, in order. */
  function Reported(calls: seq<Call>, outcomes: seq<Outcome>): seq<bytes>
    requires |calls| == |outcomes|
  {
    if calls == [] then [] else
    var last := |calls| - 1;
    var before := Reported(calls[..last], outcomes[..last]);
    if outcomes[last] == Sent then before + [calls[last].data] else before
  }

  function NonEmpty(frames: seq<bytes>): seq<bytes> {
    if frames == [] then [] else
    var last := |frames| - 1;
    if frames[last] == [] then NonEmpty(frames[..last]) else NonEmpty(frames[..last]) + [frames[last]]
  }

  /** What one call makes the assembler put out: its frame if it went out whole and is not empty. */
  lemma OneCall(a: Assembler, id: u32, c: Call)
    ensures var (_, messages, outcome) := Attempt(id, c);
      ReceiveAll(a, messages).1 == if outcome == Sent && c.data != [] then [c.data] else []
  {
    var (_, messages, outcome) := Attempt(id, c);
    ChunksFit(c.data);
    var all := Messages(id, c.data);
    assert all[..|all|] == all;
    if messages != [] {
      MessagesCarry(id, c.data);
      FramePrefix(a, all, id, Chunks(c.data), |messages|);
      FlattenChunks(c.data);
    }
  }

  /**
   Over every run of calls, with frame ids wrapping and any send failing, the viewer puts together exactly the non-empty
   frames reported as sent, in order, whatever its assembler held at the start.
   */
  lemma {:induction false} DeliversWhatIsReported(a: Assembler, start: u32, calls: seq<Call>)
    ensures ReceiveAll(a, Run(start, calls).log).1 == NonEmpty(Reported(calls, Run(start, calls).outcomes))
  {
    if calls != [] {
      var last := |calls| - 1;
      DeliversWhatIsReported(a, start, calls[..last]);
      var before := Run(start, calls[..last]);
      var (_, messages, outcome) := Attempt(before.next, calls[last]);
      ReceiveAppend(a, before.log, messages);
      OneCall(ReceiveAll(a, before.log).0, before.next, calls[last]);
      var reported := Reported(calls[..last], before.outcomes);
      assert Run(start, calls).outcomes[..last] == before.outcomes;
      assert (reported + [calls[last].data])[..|reported|] == reported;
      assert NonEmpty(reported) + [] == NonEmpty(reported);
    }
  }

  lemma {:induction false} NonEmptyIsAll(frames: seq<bytes>)
    ensures |NonEmpty(frames)| <= |frames|
    ensures NonEmpty(frames) == frames <==> [] !in frames
  {
    if frames != [] {
      var last := |frames| - 1;
      NonEmptyIsAll(frames[..last]);
      assert frames == frames[..last] + [frames[last]];
    }
  }

  /** The viewer sees exactly what the agent was told it sent, unless an empty frame was among it: that one sends nothing. */
  lemma DeliveredIffNoneEmpty(start: u32, calls: seq<Call>)
    ensures ReceiveAll(IDLE, Run(start, calls).log).1 == Reported(calls, Run(start, calls).outcomes)
       <==> [] !in Reported(calls, Run(start, calls).outcomes)
  {
    DeliversWhatIsReported(IDLE, start, calls);
    NonEmptyIsAll(Reported(calls, Run(start, calls).outcomes));
  }

  // ---------- any delivery ----------

  /** Message `i` of call `j`. */
  ghost predicate Origin(start: u32, calls: seq<Call>, m: bytes, j: nat, i: nat) {
    j < |calls| &&
    var sent := Attempt(Run(start, calls[..j]).next, calls[j]).1;
    i < |sent| && sent[i] == m
  }

  lemma {:induction false} LogOrigin(start: u32, calls: seq<Call>, m: bytes) returns (j: nat, i: nat)
    requires m in Run(start, calls).log
    ensures Origin(start, calls, m, j, i)
  {
    var last := |calls| - 1;
    var before := Run(start, calls[..last]);
    if m in before.log {
      j, i := LogOrigin(start, calls[..last], m);
      assert calls[..last][..j] == calls[..j];
    } else {
      var sent := Attempt(before.next, calls[last]).1;
      j := last;
      i :| 0 <= i < |sent| && sent[i] == m;
    }
  }

  lemma OriginReadsBack(start: u32, calls: seq<Call>, a: Assembler, m: bytes, j: nat, i: nat)
    requires Origin(start, calls, m, j, i)
    ensures Numbered(calls[j]) && i < |Chunks(calls[j].data)| <= U16_MAX
    ensures HEADER_LEN < |m| <= MESSAGE_MAX
    ensures var pieces := Chunks(calls[j].data);
      Receive(a, m) == Add(a, Run(start, calls[..j]).next, i, |pieces|, pieces[i])
    ensures i == |Chunks(calls[j].data)| - 1 ==> Attempt(Run(start, calls[..j]).next, calls[j]).2 == Sent
  {
    var id, data := Run(start, calls[..j]).next, calls[j].data;
    assert m == Messages(id, data)[i];
    MessageReadsBack(a, id, data, i);
  }

  /** Every message fits the channel. */
  lemma MessagesFit(start: u32, calls: seq<Call>)
    ensures forall m :: m in Run(start, calls).log ==> HEADER_LEN < |m| <= MESSAGE_MAX
  {
    forall m | m in Run(start, calls).log ensures HEADER_LEN < |m| <= MESSAGE_MAX {
      var j, i := LogOrigin(start, calls, m);
      OriginReadsBack(start, calls, IDLE, m, j, i);
    }
  }

  // ---------- messages that complete nothing ----------

  /** The index a message carries. */
  function IndexOf(m: bytes): nat
    requires |m| >= HEADER_LEN
  {
    m[4] as int + 256 * m[5] as int
  }

  /** Shorter than a header, or announcing no pieces. */
  predicate Junk(m: bytes) {
    |m| < 8 || (m[6] == 0 && m[7] == 0)
  }

  lemma JunkIsIgnored(a: Assembler, m: bytes)
    requires Junk(m)
    ensures Receive(a, m) == (a, None)
  {
    if |m| >= 8 { assert m[6..8][0] == m[6] && m[6..8][1] == m[7]; }
  }

  lemma {:induction false} NothingWithoutAStart(a: Assembler, ms: seq<bytes>)
    requires a.frame.None?
    requires forall i :: 0 <= i < |ms| ==> Junk(ms[i]) || IndexOf(ms[i]) > 0
    ensures ReceiveAll(a, ms).0.frame.None? && ReceiveAll(a, ms).1 == []
  {
    if ms != [] {
      var last := |ms| - 1;
      NothingWithoutAStart(a, ms[..last]);
      StillNothing(ReceiveAll(a, ms[..last]).0, ms[last]);
    }
  }

  lemma StillNothing(a: Assembler, m: bytes)
    requires a.frame.None? && (Junk(m) || IndexOf(m) > 0)
    ensures Receive(a, m).0.frame.None? && Receive(a, m).1.None?
  {
    if Junk(m) { JunkIsIgnored(a, m); } else { assert m[4..6][0] == m[4] && m[4..6][1] == m[5]; }
  }

  /**
   A message that is neither junk, nor the first of a frame, nor the next of the frame being put together, loses that frame:
   whatever follows, nothing is put out until another frame starts.
   */
  lemma GapLosesFrame(a: Assembler, m: bytes, ms: seq<bytes>)
    requires !Junk(m) && IndexOf(m) > 0
    requires a.frame != Some(ReadLe32(m[..4])) || |a.chunks| != IndexOf(m)
    requires forall i :: 0 <= i < |ms| ==> Junk(ms[i]) || IndexOf(ms[i]) > 0
    ensures Receive(a, m).1.None? && ReceiveAll(Receive(a, m).0, ms).1 == []
  {
    assert m[4..6][0] == m[4] && m[4..6][1] == m[5] && m[6..8][0] == m[6] && m[6..8][1] == m[7];
    NothingWithoutAStart(Receive(a, m).0, ms);
  }

  // ---------- what a call does ----------

  /** The largest frame whose pieces can be numbered: 65535 of 16376 bytes. */
  const FRAME_MAX := 1_073_201_160

  lemma CountFits(data: bytes)
    ensures ChunkCount(|data|) <= U16_MAX <==> |data| <= FRAME_MAX
    ensures |Chunks(data)| == if data == [] then 0 else ChunkCount(|data|)
  {
    ChunksFit(data);
  }

  /**
   What call `i` of a run sends and reports. It is dropped exactly when the channel is not open or too much is waiting; it
   fails exactly when the frame is too large or the channel refuses one of its messages, the earlier ones having gone out;
   and otherwise every message goes out and it is reported as sent.
   */
  lemma CallEffect(start: u32, calls: seq<Call>, i: nat)
    requires i < |calls|
    ensures var c, s, s' := calls[i], Run(start, calls[..i]), Run(start, calls[..i + 1]);
      var pieces := if c.data == [] then 0 else (|c.data| + 16375) / 16376;
      var ready := c.link.Some? && c.link.value.isOpen && c.link.value.buffered <= c.maxBuffered;
      && |s'.log| >= |s.log| && s'.log[..|s.log|] == s.log && s'.outcomes == s.outcomes + [s'.outcomes[i]]
      && (s'.outcomes[i] == Dropped <==> !ready)
      && (s'.outcomes[i] == Sent <==> ready && |c.data| <= FRAME_MAX && c.accepts >= pieces)
      && |s'.log| - |s.log| == (if !ready || |c.data| > FRAME_MAX then 0 else if c.accepts < pieces then c.accepts else pieces)
      && (forall k :: |s.log| <= k < |s'.log| ==>
            k - |s.log| < |Chunks(c.data)| && s'.log[k] == Header(s.next, k - |s.log|, pieces) + Chunks(c.data)[k - |s.log|])
  {
    var c := calls[i];
    CountFits(c.data);
    assert calls[..i + 1][..i] == calls[..i];
    var s := Run(start, calls[..i]);
    var (next, messages, outcome) := Attempt(s.next, c);
    assert Run(start, calls[..i + 1]) == Stream(next, s.log + messages, s.outcomes + [outcome]);
    forall k | 0 <= k < |messages| ensures messages[k] == Header(s.next, k, |Chunks(c.data)|) + Chunks(c.data)[k] {
      MessageReadsBack(IDLE, s.next, c.data, k);
    }
  }

  /** How many calls took a frame id. */
  function Taken(calls: seq<Call>): (n: nat)
    ensures n <= |calls|
  {
    if calls == [] then 0 else Taken(calls[..|calls| - 1]) + (if Numbered(calls[|calls| - 1]) then 1 else 0)
  }

  lemma NextIdWraps(n: nat)
    ensures NextId(n % 0x1_0000_0000) == (n + 1) % 0x1_0000_0000
  {
  }

  lemma {:induction false} IdsCount(start: u32, calls: seq<Call>)
    ensures Run(start, calls).next == (start + Taken(calls)) % 0x1_0000_0000
  {
    if calls != [] {
      IdsCount(start, calls[..|calls| - 1]);
      NextIdWraps(start + Taken(calls[..|calls| - 1]));
    }
  }

  lemma {:induction false} TakenGrows(calls: seq<Call>, i: nat, j: nat)
    requires i < j <= |calls| && Numbered(calls[i])
    ensures Taken(calls[..i]) < Taken(calls[..j]) <= |calls|
  {
    assert calls[..j][..j - 1] == calls[..j - 1];
    if i < j - 1 { TakenGrows(calls, i, j - 1); }
  }

  /** Among up to 2^32 calls no two frames share an id. */
  lemma IdsDistinct(start: u32, calls: seq<Call>, i: nat, j: nat)
    requires i < j < |calls| <= 0x1_0000_0000 && Numbered(calls[i]) && Numbered(calls[j])
    ensures Run(start, calls[..i]).next != Run(start, calls[..j]).next
  {
    IdsCount(start, calls[..i]);
    IdsCount(start, calls[..j]);
    TakenGrows(calls, i, j);
  }

  /** What the assembler holds is the beginning of call `j`'s frame. */
  ghost predicate Holds(start: u32, calls: seq<Call>, a: Assembler, j: nat) {
    && j < |calls| && Numbered(calls[j])
    && a.frame == Some(Run(start, calls[..j]).next)
    && a.expected == |Chunks(calls[j].data)|
    && |a.chunks| < a.expected && a.chunks == Chunks(calls[j].data)[..|a.chunks|]
  }

  ghost predicate Partial(start: u32, calls: seq<Call>, a: Assembler) {
    a.frame.Some? ==> exists j: nat :: Holds(start, calls, a, j)
  }

  /** One message of the run, in any state a run's messages lead to. */
  lemma ReceiveSound(start: u32, calls: seq<Call>, a: Assembler, m: bytes)
    requires |calls| <= 0x1_0000_0000 && Partial(start, calls, a) && m in Run(start, calls).log
    ensures Partial(start, calls, Receive(a, m).0)
    ensures var o := Receive(a, m).1;
      o.Some? ==> exists j :: 0 <= j < |calls| && Run(start, calls).outcomes[j] == Sent && calls[j].data == o.value
  {
    var j, i := LogOrigin(start, calls, m);
    OriginReadsBack(start, calls, a, m, j, i);
    var id, pieces := Run(start, calls[..j]).next, Chunks(calls[j].data);
    if i > 0 && (a.frame != Some(id) || |a.chunks| != i) {
    } else {
      if i > 0 {
        var held: nat :| Holds(start, calls, a, held);
        if held < j { IdsDistinct(start, calls, held, j); } else if j < held { IdsDistinct(start, calls, j, held); }
        assert a == Assembler(Some(id), |pieces|, pieces[..i]);
      }
      AddNext(a, id, pieces, i + 1);
      FlattenChunks(calls[j].data);
      OutcomeAt(start, calls, j);
      if i + 1 < |pieces| { assert Holds(start, calls, Receive(a, m).0, j); }
    }
  }

  lemma {:induction false} OutcomeAt(start: u32, calls: seq<Call>, j: nat)
    requires j < |calls|
    ensures Run(start, calls).outcomes[j] == Attempt(Run(start, calls[..j]).next, calls[j]).2
  {
    var last := |calls| - 1;
    if j < last {
      OutcomeAt(start, calls[..last], j);
      assert calls[..last][..j] == calls[..j];
    }
  }

  /**
   Lose, repeat and reorder the messages of up to 2^32 calls at will: every frame the viewer puts together is one that
   was reported as sent. It never mixes two frames.
   */
  lemma {:induction false} NeverMixesFrames(start: u32, calls: seq<Call>, delivered: seq<bytes>, frame: bytes)
    requires |calls| <= 0x1_0000_0000 && forall m :: m in delivered ==> m in Run(start, calls).log
    requires frame in ReceiveAll(IDLE, delivered).1
    ensures exists j :: 0 <= j < |calls| && Run(start, calls).outcomes[j] == Sent && calls[j].data == frame
  {
    var last := |delivered| - 1;
    StatesPartial(start, calls, delivered[..last]);
    var (a, frames) := ReceiveAll(IDLE, delivered[..last]);
    if frame in frames {
      NeverMixesFrames(start, calls, delivered[..last], frame);
    } else {
      ReceiveSound(start, calls, a, delivered[last]);
    }
  }

  lemma {:induction false} StatesPartial(start: u32, calls: seq<Call>, delivered: seq<bytes>)
    requires |calls| <= 0x1_0000_0000 && forall m :: m in delivered ==> m in Run(start, calls).log
    ensures Partial(start, calls, ReceiveAll(IDLE, delivered).0)
  {
    if delivered != [] {
      var last := |delivered| - 1;
      StatesPartial(start, calls, delivered[..last]);
      ReceiveSound(start, calls, ReceiveAll(IDLE, delivered[..last]).0, delivered[last]);
    }
  }

  // ---------- the code ----------

  class DataChannel {
    var link: Link
    /** How many more messages the channel takes before a send fails. */
    var accepts: nat
    var sent: seq<bytes>

    constructor (link: Link, accepts: nat)
      ensures this.link == link && this.accepts == accepts && sent == []
    {
      this.link, this.accepts, sent := link, accepts, [];
    }

    method Send(m: bytes) returns (ok: bool)
      modifies this`accepts, this`sent
      ensures ok == (old(accepts) > 0)
      ensures accepts == if ok then old(accepts) - 1 else 0
      ensures sent == if ok then old(sent) + [m] else old(sent)
    {
      if accepts == 0 {
        return false;
      }
      accepts := accepts - 1;
      sent := sent + [m];
      return true;
    }
  }

  class AgentPeer {
    var frames: DataChannel?
    var frameSeq: u32

    constructor (frames: DataChannel?, frameSeq: u32)
      ensures this.frames == frames && this.frameSeq == frameSeq
    {
      this.frames, this.frameSeq := frames, frameSeq;
    }

    ghost function AsCall(data: bytes, maxBuffered: nat): Call
      reads this, frames
    {
      if frames == null then Call(None, data, maxBuffered, 0) else Call(Some(frames.link), data, maxBuffered, frames.accepts)
    }

    method SendFrame(data: bytes, maxBuffered: nat) returns (r: Outcome)
      modifies this`frameSeq, frames
      ensures (frameSeq, r) == (Attempt(old(frameSeq), old(AsCall(data, maxBuffered))).0,
                                Attempt(old(frameSeq), old(AsCall(data, maxBuffered))).2)
      ensures frames != null ==>
                && frames.sent == old(frames.sent) + Attempt(old(frameSeq), old(AsCall(data, maxBuffered))).1
                && frames.link == old(frames.link)
    {
      if frames == null {
        return Dropped;
      }
      if !frames.link.isOpen {
        return Dropped;
      }
      if frames.link.buffered > maxBuffered {
        return Dropped;
      }
      var count := ChunkCount(|data|);
      if count > U16_MAX {
        return Failed;
      }
      var id := frameSeq;
      frameSeq := if frameSeq == U32_MAX then 0 else frameSeq + 1;
      var ok := SendChunks(frames, id, data, count);
      return if ok then Sent else Failed;
    }

    static method SendChunks(dc: DataChannel, id: u32, data: bytes, count: nat) returns (ok: bool)
      requires count == ChunkCount(|data|)
      modifies dc`accepts, dc`sent
      ensures var all := Messages(id, data);
        && ok == (old(dc.accepts) >= |all|)
        && dc.sent == old(dc.sent) + if ok then all else all[..old(dc.accepts)]
    {
      ghost var all := Messages(id, data);
      var rest, index := data, 0;
      while rest != []
        invariant 0 <= index <= |all| && Chunks(rest) == Chunks(data)[index..]
        invariant dc.accepts == old(dc.accepts) - index
        invariant dc.sent == old(dc.sent) + all[..index]
        decreases |rest|
      {
        var len := if |rest| < CHUNK_PAYLOAD then |rest| else CHUNK_PAYLOAD;
        assert rest[..len] == Chunks(rest)[0] == Chunks(data)[index];
        var taken := dc.Send(Message(id, index, count, rest[..len]));
        if !taken {
          return false;
        }
        assert all[..index + 1] == all[..index] + [all[index]];
        assert Chunks(rest[len..]) == Chunks(rest)[1..] == Chunks(data)[index + 1..];
        rest, index := rest[len..], index + 1;
      }
      assert all[..|all|] == all;
      return true;
    }
  }

  class FrameAssembler {
    var asmFrameId: Option<u32>
    var asmExpectedChunks: nat
    var asmChunks: seq<bytes>

    ghost function View(): Assembler
      reads this
    {
      Assembler(asmFrameId, asmExpectedChunks, asmChunks)
    }

    constructor ()
      ensures View() == IDLE
    {
      asmFrameId, asmExpectedChunks, asmChunks := None, 0, [];
    }

    /** One message from the channel; a completed frame is handed on. */
    method OnFrameChunk(m: bytes) returns (frame: Option<bytes>)
      modifies this
      ensures (View(), frame) == Receive(old(View()), m)
    {
      if |m| < HEADER_LEN {
        return None;
      }
      var id, index, count := ReadLe32(m[..4]), ReadLe16(m[4..6]), ReadLe16(m[6..8]);
      if count == 0 {
        return None;
      }
      var payload := m[HEADER_LEN..];
      if index == 0 {
        asmFrameId, asmExpectedChunks, asmChunks := Some(id), count, [payload];
      } else {
        if asmFrameId != Some(id) || |asmChunks| != index {
          asmFrameId, asmChunks := None, [];
          return None;
        }
        asmChunks := asmChunks + [payload];
      }
      if |asmChunks| == asmExpectedChunks {
        var full: bytes := [];
        for i := 0 to |asmChunks|
          invariant full == Flatten(asmChunks[..i])
        {
          assert asmChunks[..i + 1][..i] == asmChunks[..i];
          full := full + asmChunks[i];
        }
        assert asmChunks[..|asmChunks|] == asmChunks;
        asmFrameId, asmChunks := None, [];
        return Some(full);
      }
      return None;
    }
  }
}
