/** What single calls achieve and leave alone, from every reachable state: round trips across calls, and their exact conditions. */
module TrustEffects {
  import opened Basics
  import opened Trust
  import opened TrustInvariants
  import opened TrustTheorems
  import Protocol

  // ---------- devices ----------

  /** Registering a new key gives the user a fresh, unrevoked device under it, and changes no other device. */
  lemma RegisterNewKey(maxAttempts: nat, calls: seq<Call>, user: UserId, kind: Kind, key: PublicKey, id: DeviceId)
    requires forall d :: d in Run(maxAttempts, calls).t.devices ==> Run(maxAttempts, calls).t.devices[d].key != key
    ensures var t := Run(maxAttempts, calls).t; var (t', r) := Register(t, user, kind, key, id);
      && (r.Ok? <==> id !in t.devices)
      && (r.Ok? ==> r.value == id && t'.devices == t.devices[id := Device(user, kind, key, false)] && OwnsDevice(t', id, user))
      && (r.Err? ==> t' == t)
      && t' == t.(devices := t'.devices, byKey := t'.byKey)
  {
    var t := Run(maxAttempts, calls).t;
    assert key in t.byKey ==> KeyNamesDevice(t.devices, t.byKey, key);
  }

  /** The pairings a device's revocation takes down. */
  predicate Involves(p: Pairing, d: DeviceId) {
    p.mobile == d || p.desktop == d
  }

  /**
   A device is revoked exactly by its owner and while it is not revoked; that revokes every pairing it is part of, and
   changes no other pairing, no other device, no session.
   */
  lemma RevokeDeviceEffect(maxAttempts: nat, calls: seq<Call>, user: UserId, d: DeviceId)
    ensures var t := Run(maxAttempts, calls).t; var (t', r) := RevokeDevice(t, user, d);
      && (r.Ok? <==> d in t.devices && t.devices[d].user == user && !t.devices[d].revoked)
      && (r.Err? ==> t' == t)
      && (r.Ok? ==>
           && t' == t.(devices := t'.devices, pairings := t'.pairings)
           && t'.devices == t.devices[d := t.devices[d].(revoked := true)]
           && t'.pairings.Keys == t.pairings.Keys
           && forall p :: p in t.pairings ==>
                t'.pairings[p] == if Involves(t.pairings[p], d) then t.pairings[p].(status := Revoked) else t.pairings[p])
  {
    var t := Run(maxAttempts, calls).t;
    forall p | p in t.pairings ensures PairingOwned(t.devices, t.pairings, p) {}
  }

  // ---------- challenges ----------

  /** A challenge is minted exactly for a desktop of the user's that is not revoked; a refusal changes nothing. */
  lemma InitiateIff(st: State, user: UserId, desktop: DeviceId, code: string, id: ChallengeId, now: nat, ttl: nat)
    ensures var (st', r) := Initiate(st, user, desktop, code, id, now, ttl);
      && (r.Ok? <==>
           && (exists i :: 0 <= i < |desktop| && desktop[i] !in " \t\n\r")
           && desktop in st.t.devices && st.t.devices[desktop].user == user && !st.t.devices[desktop].revoked
           && st.t.devices[desktop].kind == Desktop)
      && (r.Ok? ==> r.value == id && st'.t == st.t)
      && (r.Err? ==> st' == st)
  {
    assert forall c: char :: c in " \t\n\r" <==> c in {' ', '\t', '\n', '\r'};
  }

  /** The state after a challenge is minted and time has passed. */
  function Waited(maxAttempts: nat, calls: seq<Call>, user: UserId, desktop: DeviceId, code: string, id: ChallengeId,
                  now: nat, ttl: nat, dt: nat): State
  {
    Run(maxAttempts, calls + [InitiatePairing(user, desktop, code, id, now, ttl), TimePasses(dt)])
  }

  lemma MintAndWait(st: State, minted: State, waited: State, maxAttempts: nat, mint: Call, dt: nat)
    requires Consistent(st.t) && mint.InitiatePairing? && mint.challenge !in st.issued
    requires minted == Step(st, maxAttempts, mint) && Consistent(minted.t) && waited == Step(minted, maxAttempts, TimePasses(dt))
    ensures var after := Initiate(st, mint.user, mint.device, mint.code, mint.challenge, mint.now, mint.ttl).0;
      waited == after.(s := Tick(after.s, dt))
  {
  }

  lemma WaitedIs(maxAttempts: nat, calls: seq<Call>, user: UserId, desktop: DeviceId, code: string, id: ChallengeId,
                 now: nat, ttl: nat, dt: nat)
    requires id !in Run(maxAttempts, calls).issued
    ensures var st := Initiate(Run(maxAttempts, calls), user, desktop, code, id, now, ttl).0;
      Waited(maxAttempts, calls, user, desktop, code, id, now, ttl, dt) == st.(s := Tick(st.s, dt))
  {
    var mint := InitiatePairing(user, desktop, code, id, now, ttl);
    var minted, waited := calls + [mint], calls + [mint, TimePasses(dt)];
    RunStep(maxAttempts, minted, calls, mint);
    assert waited == minted + [TimePasses(dt)];
    RunStep(maxAttempts, waited, minted, TimePasses(dt));
    MintAndWait(Run(maxAttempts, calls), Run(maxAttempts, minted), Run(maxAttempts, waited), maxAttempts, mint, dt);
  }

  /** A challenge is pending until its time to live is over, and for ever if it has none. */
  lemma PendingIff(maxAttempts: nat, calls: seq<Call>, user: UserId, desktop: DeviceId, code: string, id: ChallengeId,
                   now: nat, ttl: nat, dt: nat)
    requires id !in Run(maxAttempts, calls).issued
    requires Initiate(Run(maxAttempts, calls), user, desktop, code, id, now, ttl).1.Ok?
    ensures id in Waited(maxAttempts, calls, user, desktop, code, id, now, ttl, dt).s.challenges <==> ttl == 0 || dt <= ttl
  {
    WaitedIs(maxAttempts, calls, user, desktop, code, id, now, ttl, dt);
    MintedIs(Run(maxAttempts, calls), Waited(maxAttempts, calls, user, desktop, code, id, now, ttl, dt), user, desktop, code, id, now, ttl, dt);
  }

  /**
   The round trip: with one of the user's mobiles, a challenge is confirmed exactly by the code it was minted with, up to
   its expiry on the service's clock, and while the store still has it. It then pairs that mobile with that desktop.
   */
  lemma InitiateThenConfirm(maxAttempts: nat, calls: seq<Call>, user: UserId, desktop: DeviceId, code: string,
                            id: ChallengeId, now: nat, ttl: nat, dt: nat, code': string, mobile: DeviceId, now': nat,
                            pairing: PairingId)
    requires var st := Run(maxAttempts, calls);
      && id !in st.issued && Initiate(st, user, desktop, code, id, now, ttl).1.Ok?
      && OwnsDevice(st.t, mobile, user) && st.t.devices[mobile].kind == Mobile && pairing !in st.t.pairings
    requires !Blank(id) && !Blank(code') && !Blank(mobile)
    ensures var (st', r) := Confirm(Waited(maxAttempts, calls, user, desktop, code, id, now, ttl, dt), maxAttempts, user, id,
                                    code', mobile, now', pairing);
      && (r.Ok? <==> code' == code && now' <= now + ttl && (ttl == 0 || dt <= ttl))
      && (r.Ok? ==> r.value in st'.t.pairings && st'.t.pairings[r.value] == Pairing(user, mobile, desktop, Active))
  {
    var st := Waited(maxAttempts, calls, user, desktop, code, id, now, ttl, dt);
    WaitedIs(maxAttempts, calls, user, desktop, code, id, now, ttl, dt);
    MintedThenConfirmed(Run(maxAttempts, calls), st, maxAttempts, user, desktop, code, id, now, ttl, dt, code', mobile, now', pairing);
  }

  lemma MintedThenConfirmed(before: State, st: State, maxAttempts: nat, user: UserId, desktop: DeviceId, code: string,
                            id: ChallengeId, now: nat, ttl: nat, dt: nat, code': string, mobile: DeviceId, now': nat,
                            pairing: PairingId)
    requires Owned(before) && Initiate(before, user, desktop, code, id, now, ttl).1.Ok? && Owned(st)
    requires var minted := Initiate(before, user, desktop, code, id, now, ttl).0; st == minted.(s := Tick(minted.s, dt))
    requires OwnsDevice(before.t, mobile, user) && before.t.devices[mobile].kind == Mobile && pairing !in before.t.pairings
    requires !Blank(id) && !Blank(code') && !Blank(mobile)
    ensures var (st', r) := Confirm(st, maxAttempts, user, id, code', mobile, now', pairing);
      && (r.Ok? <==> code' == code && now' <= now + ttl && (ttl == 0 || dt <= ttl))
      && (r.Ok? ==> r.value in st'.t.pairings && st'.t.pairings[r.value] == Pairing(user, mobile, desktop, Active))
  {
    MintedIs(before, st, user, desktop, code, id, now, ttl, dt);
    ConfirmSucceedsIff(st, maxAttempts, user, id, code', mobile, now', pairing);
    if Confirm(st, maxAttempts, user, id, code', mobile, now', pairing).1.Ok? {
      PairingConfirmed(st, maxAttempts, user, id, code', mobile, now', pairing);
    }
  }

  lemma MintedIs(before: State, st: State, user: UserId, desktop: DeviceId, code: string, id: ChallengeId, now: nat, ttl: nat, dt: nat)
    requires Initiate(before, user, desktop, code, id, now, ttl).1.Ok?
    requires var minted := Initiate(before, user, desktop, code, id, now, ttl).0; st == minted.(s := Tick(minted.s, dt))
    ensures st.t == before.t && (id in st.s.challenges <==> ttl == 0 || dt <= ttl)
    ensures id in st.s.challenges ==> st.s.challenges[id].value == Challenge(user, desktop, Sha256(code), now + ttl)
  {
  }

  lemma FailureEffect(st: State, maxAttempts: nat, user: UserId, id: ChallengeId, code: string, mobile: DeviceId, now: nat,
                      pairing: PairingId)
    requires Consistent(st.t) && !Blank(id) && !Blank(code) && !Blank(mobile)
    requires Confirm(st, maxAttempts, user, id, code, mobile, now, pairing).1.Err?
    ensures var st' := Confirm(st, maxAttempts, user, id, code, mobile, now, pairing).0;
      && st'.t == st.t
      && (id !in st.s.challenges ==> st' == st)
      && (id in st.s.challenges ==>
           var ch := st.s.challenges[id].value;
           var late, wrong := now > ch.expiresAt, code != ch.codeHash.code;
           var guesses := (if id in st.s.attempts then st.s.attempts[id].value else 0) + 1;
           && (id !in st'.s.challenges <==> ch.user == user && (late || (wrong && guesses >= maxAttempts)))
           && (ch.user != user || (!late && !wrong) ==> st' == st)
           && (ch.user == user && !late && wrong && guesses < maxAttempts ==> id in st'.s.attempts && st'.s.attempts[id].value == guesses))
  {
  }

  /**
   What a failed confirmation does to its challenge. It is gone exactly if it was not there, was the user's and expired, or
   the code was wrong and that was the last guess allowed; a wrong code is counted, and nothing else is changed.
   */
  lemma ConfirmFailureEffect(maxAttempts: nat, calls: seq<Call>, user: UserId, id: ChallengeId, code: string, mobile: DeviceId,
                             now: nat, pairing: PairingId)
    requires !Blank(id) && !Blank(code) && !Blank(mobile)
    requires Confirm(Run(maxAttempts, calls), maxAttempts, user, id, code, mobile, now, pairing).1.Err?
    ensures var st := Run(maxAttempts, calls); var st' := Confirm(st, maxAttempts, user, id, code, mobile, now, pairing).0;
      && st'.t == st.t
      && (id !in st.s.challenges ==> st' == st)
      && (id in st.s.challenges ==>
           var ch := st.s.challenges[id].value;
           var late, wrong := now > ch.expiresAt, code != ch.codeHash.code;
           var guesses := (if id in st.s.attempts then st.s.attempts[id].value else 0) + 1;
           && (id !in st'.s.challenges <==> ch.user == user && (late || (wrong && guesses >= maxAttempts)))
           && (ch.user != user || (!late && !wrong) ==> st' == st)
           && (ch.user == user && !late && wrong && guesses < maxAttempts ==> id in st'.s.attempts && st'.s.attempts[id].value == guesses))
  {
    FailureEffect(Run(maxAttempts, calls), maxAttempts, user, id, code, mobile, now, pairing);
  }

  /** Whatever an id's history, saving a challenge under it starts the count of wrong guesses again. */
  lemma FirstGuessIsOne(s: Store, id: ChallengeId, ch: Challenge, ttl: nat)
    ensures RecordFailedAttempt(Save(s, id, ch, ttl), id).1 == 1
  {
  }

  /**
   Counting a wrong guess. With half a second or more left for the challenge the counter expires within half a second of
   it; with less, the counter keeps the expiry it had, and a new one gets none. Either way it counts one more.
   */
  lemma CounterExpiry(s: Store, id: ChallengeId, end: nat)
    requires id in s.challenges && s.challenges[id].expiry == Some(end) && s.clock <= end
    ensures var s' := RecordFailedAttempt(s, id).0;
      && id in s'.attempts && s'.challenges == s.challenges && s'.clock == s.clock
      && s'.attempts[id].value == (if id in s.attempts then s.attempts[id].value else 0) + 1
      && (if end - s.clock >= 500 then
            s'.attempts[id].expiry.Some? && end - 500 < s'.attempts[id].expiry.value <= end + 500
          else s'.attempts[id].expiry == if id in s.attempts then s.attempts[id].expiry else None)
  {
    var left := end - s.clock;
    assert SecondsLeft(s.challenges, id, s.clock) == (left + 500) / 1000;
  }

  // ---------- pairings ----------

  /** A pairing is revoked exactly by its user and while it is active; that changes its status and nothing else at all. */
  lemma RevokePairingEffect(maxAttempts: nat, calls: seq<Call>, user: UserId, p: PairingId)
    ensures var t := Run(maxAttempts, calls).t; var (t', r) := RevokePairing(t, user, p);
      && (r.Ok? <==> p in t.pairings && t.pairings[p].user == user && t.pairings[p].status != Revoked)
      && (r.Err? ==> t' == t)
      && (r.Ok? ==> t' == t.(pairings := t'.pairings) && t'.pairings == t.pairings[p := t.pairings[p].(status := Revoked)])
  {
  }

  lemma RevokedPairingRow(maxAttempts: nat, calls: seq<Call>, user: UserId, p: PairingId)
    requires RevokePairing(Run(maxAttempts, calls).t, user, p).1.Ok? && p in Run(maxAttempts, calls).t.pairings
    ensures var t, t' := Run(maxAttempts, calls).t, Run(maxAttempts, calls + [RevokeThePairing(user, p)]).t;
      && p in t'.pairings && t'.pairings[p] == t.pairings[p].(status := Revoked) && t'.sessions == t.sessions
  {
    RunSnoc(maxAttempts, calls, RevokeThePairing(user, p));
    RevokeStep(Run(maxAttempts, calls), Run(maxAttempts, calls + [RevokeThePairing(user, p)]), maxAttempts, user, p);
  }

  lemma RevokeStep(st: State, st': State, maxAttempts: nat, user: UserId, p: PairingId)
    requires Consistent(st.t) && st' == Step(st, maxAttempts, RevokeThePairing(user, p))
    requires RevokePairing(st.t, user, p).1.Ok? && p in st.t.pairings
    ensures p in st'.t.pairings && st'.t.pairings[p] == st.t.pairings[p].(status := Revoked) && st'.t.sessions == st.t.sessions
  {
  }

  lemma ClosedRefuses(t: Tables, user: UserId, p: PairingId, ss: set<SessionId>, s: SessionId)
    requires ClosedTo(t, p, ss)
    ensures CreateSession(t, user, p, s).1.Err?
  {
  }

  /** So once a user has revoked a pairing no session starts on it until a confirmation from its mobile by that user. */
  lemma RevokedByItsUser(maxAttempts: nat, calls: seq<Call>, user: UserId, p: PairingId, more: seq<Call>, s: SessionId)
    requires RevokePairing(Run(maxAttempts, calls).t, user, p).1.Ok? && p in Run(maxAttempts, calls).t.pairings
    requires forall i :: 0 <= i < |more| ==> !ConfirmsFor(more[i], Run(maxAttempts, calls).t.pairings[p])
    ensures var t' := Run(maxAttempts, calls + [RevokeThePairing(user, p)] + more).t;
      ClosedTo(t', p, Run(maxAttempts, calls).t.sessions.Keys) && CreateSession(t', user, p, s).1.Err?
  {
    var revoked := calls + [RevokeThePairing(user, p)];
    RevokedPairingRow(maxAttempts, calls, user, p);
    RevokedStaysClosed(maxAttempts, revoked, more, p);
    ClosedRefuses(Run(maxAttempts, revoked + more).t, user, p, Run(maxAttempts, calls).t.sessions.Keys, s);
  }

  // ---------- sessions ----------

  /** Which sessions start: on one's own active pairing, under a new id. */
  predicate Startable(t: Tables, user: UserId, p: PairingId, id: SessionId) {
    p != "" && p in t.pairings && t.pairings[p].user == user && t.pairings[p].status == Active && id !in t.sessions
  }

  /**
   A started session is connecting and its ticket a controller's; the next poll for the pairing's desktop hands that
   session to the agent, before all others. Nothing else starts one, and a refusal changes nothing.
   */
  lemma StartThenPoll(maxAttempts: nat, calls: seq<Call>, user: UserId, p: PairingId, id: SessionId)
    ensures var t := Run(maxAttempts, calls).t; var (t', r) := CreateSession(t, user, p, id);
      && (r.Ok? <==> Startable(t, user, p, id))
      && (r.Err? ==> t' == t)
      && (r.Ok? ==>
           && t'.sessions == t.sessions[id := Session(p, user, Connecting)]
           && r.value == Ticket(id, user, Protocol.Controller) && t'.tickets == t.tickets + [r.value]
           && t'.devices == t.devices && t'.pairings == t.pairings
           && Consistent(t') && var desktop := t.pairings[p].desktop; var poll := PendingForDevice(t', user, desktop).1;
              desktop != "" ==> poll.Ok? && |poll.value| > 0 && poll.value[0] == Ticket(id, user, Protocol.Agent))
  {
    StartStep(Run(maxAttempts, calls).t, user, p, id);
  }

  lemma StartStep(t: Tables, user: UserId, p: PairingId, id: SessionId)
    requires TablesInv(t) && Consistent(t)
    ensures var (t', r) := CreateSession(t, user, p, id);
      && (r.Ok? <==> Startable(t, user, p, id))
      && (r.Err? ==> t' == t)
      && (r.Ok? ==>
           && t'.sessions == t.sessions[id := Session(p, user, Connecting)]
           && r.value == Ticket(id, user, Protocol.Controller) && t'.tickets == t.tickets + [r.value]
           && t'.devices == t.devices && t'.pairings == t.pairings
           && Consistent(t') && var desktop := t.pairings[p].desktop; var poll := PendingForDevice(t', user, desktop).1;
              desktop != "" ==> poll.Ok? && |poll.value| > 0 && poll.value[0] == Ticket(id, user, Protocol.Agent))
  {
    var (t', r) := CreateSession(t, user, p, id);
    if r.Ok? {
      CreateSessionKeeps(t, user, p, id);
      TablesConsistent(t');
      assert Answerable(t', user, t.pairings[p].desktop, t'.started[|t'.started| - 1]);
    }
  }

  lemma EndEffect(t: Tables, user: UserId, s: SessionId)
    ensures var (t', r) := EndSession(t, user, s);
      && (r.Ok? <==> s in t.sessions && t.sessions[s].user == user)
      && (r.Err? ==> t' == t)
      && (r.Ok? ==>
           && t' == t.(sessions := t'.sessions) && s in t'.sessions
           && t'.sessions == t.sessions[s := t.sessions[s].(status := if t.sessions[s].status == Failed then Failed else Ended)]
           && r.value == t'.sessions[s] && EndSession(t', user, s) == (t', r))
  {
  }

  lemma OverIsUnpolled(t: Tables, s: SessionId, poller: UserId, desktop: DeviceId)
    requires Consistent(t) && StartedOnce(t) && s in t.sessions && t.sessions[s].status != Connecting && desktop != ""
    ensures forall i :: 0 <= i < |PendingForDevice(t, poller, desktop).1.value| ==> PendingForDevice(t, poller, desktop).1.value[i].session != s
  {
    PollIsComplete(t, poller, desktop);
    var polled := PendingForDevice(t, poller, desktop).1.value;
    forall i | 0 <= i < |polled| ensures polled[i].session != s {
      assert Waiting(t, poller, desktop, polled[i].session);
    }
  }

  /**
   A user ends exactly their own sessions; one that had failed stays failed. Ending again changes nothing, and no poll by
   anyone hands the ended session out.
   */
  lemma EndThenPoll(maxAttempts: nat, calls: seq<Call>, user: UserId, s: SessionId, poller: UserId, desktop: DeviceId)
    requires desktop != ""
    ensures var t := Run(maxAttempts, calls).t; var (t', r) := EndSession(t, user, s);
      && (r.Ok? <==> s in t.sessions && t.sessions[s].user == user)
      && (r.Err? ==> t' == t)
      && (r.Ok? ==>
           && t' == t.(sessions := t'.sessions) && s in t'.sessions
           && t'.sessions == t.sessions[s := t.sessions[s].(status := if t.sessions[s].status == Failed then Failed else Ended)]
           && r.value == t'.sessions[s] && EndSession(t', user, s) == (t', r))
    ensures var (t', r) := EndSession(Run(maxAttempts, calls).t, user, s);
      r.Ok? ==> Consistent(t') && var polled := PendingForDevice(t', poller, desktop).1;
        polled.Ok? && forall i :: 0 <= i < |polled.value| ==> polled.value[i].session != s
  {
    var t := Run(maxAttempts, calls).t;
    RunStarts(maxAttempts, calls);
    EndEffect(t, user, s);
    EndSessionKeeps(t, user, s);
    EndedUnpolled(t, user, s, poller, desktop);
  }

  lemma EndedUnpolled(t: Tables, user: UserId, s: SessionId, poller: UserId, desktop: DeviceId)
    requires TablesInv(t) && Consistent(t) && StartedOnce(t) && desktop != "" && TablesInv(EndSession(t, user, s).0)
    ensures var (t', r) := EndSession(t, user, s);
      r.Ok? ==> Consistent(t') && var polled := PendingForDevice(t', poller, desktop).1;
        polled.Ok? && forall i :: 0 <= i < |polled.value| ==> polled.value[i].session != s
  {
    var (t', r) := EndSession(t, user, s);
    TablesConsistent(t');
    EndEffect(t, user, s);
    if r.Ok? { OverIsUnpolled(t', s, poller, desktop); }
  }
}
