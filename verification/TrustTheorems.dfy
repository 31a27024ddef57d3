/** Who owns what, what revocation closes and what polling hands out, over every run of service calls. */
module TrustTheorems {
  import opened Basics
  import opened Trust
  import opened TrustInvariants
  import Protocol

  // ---------- who owns what ----------

  /** A registered public key is one device's alone, and stays that device's and its owner's whatever anyone calls. */
  lemma KeyNeverMoves(maxAttempts: nat, calls: seq<Call>, more: seq<Call>, d: DeviceId)
    requires d in Run(maxAttempts, calls).t.devices
    ensures var t, t' := Run(maxAttempts, calls).t, Run(maxAttempts, calls + more).t;
      && d in t'.devices && t'.devices[d].key == t.devices[d].key && t'.devices[d].user == t.devices[d].user
      && forall d' :: d' in t'.devices && t'.devices[d'].key == t.devices[d].key ==> d' == d
  {
    RunEvolves(maxAttempts, calls, more);
    var t' := Run(maxAttempts, calls + more).t;
    forall d' | d' in t'.devices ensures DeviceIndexed(t'.devices, t'.byKey, d') {}
  }

  /** Registering another user's key is refused and changes nothing; registering one's own gives back the same device. */
  lemma RegisterExistingKey(maxAttempts: nat, calls: seq<Call>, d: DeviceId, user: UserId, kind: Kind, id: DeviceId)
    requires d in Run(maxAttempts, calls).t.devices
    ensures var t := Run(maxAttempts, calls).t; var (t', r) := Register(t, user, kind, t.devices[d].key, id);
      if user != t.devices[d].user then t' == t && r == Err(PublicKeyTaken)
      else r == Ok(d) && t'.devices == t.devices[d := Device(user, kind, t.devices[d].key, false)]
  {
    assert DeviceIndexed(Run(maxAttempts, calls).t.devices, Run(maxAttempts, calls).t.byKey, d);
  }

  /** A mobile and a desktop share at most one pairing row, active or not. */
  lemma OneRowPerPair(maxAttempts: nat, calls: seq<Call>, p: PairingId, q: PairingId)
    requires p in Run(maxAttempts, calls).t.pairings && q in Run(maxAttempts, calls).t.pairings
    requires PairOf(Run(maxAttempts, calls).t.pairings[p]) == PairOf(Run(maxAttempts, calls).t.pairings[q])
    ensures p == q
  {
    var t := Run(maxAttempts, calls).t;
    assert PairingIndexed(t.pairings, t.byPair, p) && PairingIndexed(t.pairings, t.byPair, q);
  }

  /** A session's user is its pairing's user and owns both of its devices. */
  lemma SessionUserOwnsDevices(maxAttempts: nat, calls: seq<Call>, s: SessionId)
    requires s in Run(maxAttempts, calls).t.sessions
    ensures var t := Run(maxAttempts, calls).t; var user, p := t.sessions[s].user, t.sessions[s].pairing;
      && p in t.pairings && t.pairings[p].user == user
      && OwnerOf(t.devices, t.pairings[p].mobile, user) && OwnerOf(t.devices, t.pairings[p].desktop, user)
  {
    var t := Run(maxAttempts, calls).t;
    assert SessionOwned(t.pairings, t.sessions, s, t.sessions[s].user);
    assert PairingOwned(t.devices, t.pairings, t.sessions[s].pairing);
  }

  /** Every signaling ticket ever issued, for either role, goes to the owner of both of its session's devices. */
  lemma TicketsGoToOwners(maxAttempts: nat, calls: seq<Call>, i: nat)
    requires i < |Run(maxAttempts, calls).t.tickets|
    ensures var t := Run(maxAttempts, calls).t; var ticket := t.tickets[i];
      && ticket.session in t.sessions && t.sessions[ticket.session].user == ticket.user
      && var p := t.sessions[ticket.session].pairing;
         p in t.pairings && OwnerOf(t.devices, t.pairings[p].mobile, ticket.user) && OwnerOf(t.devices, t.pairings[p].desktop, ticket.user)
  {
    var t := Run(maxAttempts, calls).t;
    assert SessionOwned(t.pairings, t.sessions, t.tickets[i].session, t.tickets[i].user);
    SessionUserOwnsDevices(maxAttempts, calls, t.tickets[i].session);
  }

  // ---------- active pairings ----------

  /** The mobile of an active pairing is its user's and not revoked. */
  ghost predicate ActiveSound(t: Tables) {
    forall p :: p in t.pairings && t.pairings[p].status == Active ==> OwnsDevice(t, t.pairings[p].mobile, t.pairings[p].user)
  }

  lemma CascadeActive(t: Tables, user: UserId, d: DeviceId)
    requires PairingsOwned(t.devices, t.pairings) && ActiveSound(t)
    ensures ActiveSound(RevokeDevice(t, user, d).0)
  {
    forall p | p in t.pairings ensures PairingOwned(t.devices, t.pairings, p) {}
  }

  lemma ConfirmActive(st: State, maxAttempts: nat, user: UserId, id: ChallengeId, code: string, mobile: DeviceId, now: nat,
                      pairing: PairingId)
    requires Owned(st) && ActiveSound(st.t)
    ensures ActiveSound(Confirm(st, maxAttempts, user, id, code, mobile, now, pairing).0.t)
  {
    var (st', r) := Confirm(st, maxAttempts, user, id, code, mobile, now, pairing);
    if r.Ok? {
      var pair := (mobile, st.s.challenges[id].value.desktop);
      if pair in st.t.byPair {
        assert PairNamesPairing(st.t.pairings, st.t.byPair, pair);
        assert PairingOwned(st.t.devices, st.t.pairings, st.t.byPair[pair]);
      }
    }
  }

  lemma StepActive(st: State, maxAttempts: nat, c: Call)
    requires Owned(st) && ActiveSound(st.t)
    ensures ActiveSound(Step(st, maxAttempts, c).t)
  {
    match c
    case RevokeTheDevice(user, d) => CascadeActive(st.t, user, d);
    case ConfirmPairing(user, id, code, d, now, p) => ConfirmActive(st, maxAttempts, user, id, code, d, now, p);
    case _ =>
  }

  /** In every run the mobile of an active pairing is its user's and not revoked. */
  lemma {:induction false} ActiveMobileUnrevoked(maxAttempts: nat, calls: seq<Call>)
    ensures ActiveSound(Run(maxAttempts, calls).t)
  {
    if calls != [] {
      var last := |calls| - 1;
      ActiveMobileUnrevoked(maxAttempts, calls[..last]);
      StepActive(Run(maxAttempts, calls[..last]), maxAttempts, calls[last]);
    }
  }

  /** An active pairing with a revoked desktop. */
  predicate Stale(t: Tables, p: PairingId) {
    p in t.pairings && t.pairings[p].status == Active
    && t.pairings[p].desktop in t.devices && t.devices[t.pairings[p].desktop].revoked
  }

  /** This call confirmed pairing `p`, whose desktop was revoked at the time. */
  predicate ConfirmsLate(st: State, maxAttempts: nat, c: Call, p: PairingId)
    requires Consistent(st.t)
  {
    c.ConfirmPairing? &&
    var (st', r) := Confirm(st, maxAttempts, c.user, c.challenge, c.code, c.device, c.now, c.pairing);
    r == Ok(p) && p in st'.t.pairings && st'.t.pairings[p].desktop in st.t.devices && st.t.devices[st'.t.pairings[p].desktop].revoked
  }

  lemma StepStale(st: State, maxAttempts: nat, c: Call, p: PairingId)
    requires Owned(st) && Stale(Step(st, maxAttempts, c).t, p)
    ensures Stale(st.t, p) || ConfirmsLate(st, maxAttempts, c, p)
  {
    if c.RevokeTheDevice? && p in st.t.pairings { assert PairingOwned(st.t.devices, st.t.pairings, p); }
  }

  /** Call `k` of the run confirmed `p` late. */
  predicate LateAt(maxAttempts: nat, calls: seq<Call>, k: nat, p: PairingId) {
    k < |calls| && ConfirmsLate(Run(maxAttempts, calls[..k]), maxAttempts, calls[k], p)
  }

  lemma LateInPrefix(maxAttempts: nat, calls: seq<Call>, n: nat, k: nat, p: PairingId)
    requires n <= |calls| && LateAt(maxAttempts, calls[..n], k, p)
    ensures LateAt(maxAttempts, calls, k, p)
  {
    assert calls[..n][..k] == calls[..k];
  }

  /** The only way to an active pairing with a revoked desktop is a confirmation after the revocation. */
  lemma {:induction false} StaleWasConfirmedLate(maxAttempts: nat, calls: seq<Call>, p: PairingId) returns (k: nat)
    requires Stale(Run(maxAttempts, calls).t, p)
    ensures LateAt(maxAttempts, calls, k, p)
  {
    var last := |calls| - 1;
    StepStale(Run(maxAttempts, calls[..last]), maxAttempts, calls[last], p);
    if ConfirmsLate(Run(maxAttempts, calls[..last]), maxAttempts, calls[last], p) {
      k := last;
    } else {
      k := StaleWasConfirmedLate(maxAttempts, calls[..last], p);
      LateInPrefix(maxAttempts, calls, last, k, p);
    }
  }

  /** Pairing `p` is revoked, and no session but those of `ss` belongs to it. */
  predicate ClosedTo(t: Tables, p: PairingId, ss: set<SessionId>) {
    p in t.pairings && t.pairings[p].status == Revoked && forall s :: s in t.sessions && t.sessions[s].pairing == p ==> s in ss
  }

  /** A confirmation from the pairing's own mobile by its user. */
  predicate ConfirmsFor(c: Call, p: Pairing) {
    c.ConfirmPairing? && c.user == p.user && c.device == p.mobile
  }

  lemma StepClosed(st: State, maxAttempts: nat, c: Call, p: PairingId, ss: set<SessionId>)
    requires Owned(st) && ClosedTo(st.t, p, ss) && !ConfirmsFor(c, st.t.pairings[p])
    ensures ClosedTo(Step(st, maxAttempts, c).t, p, ss)
  {
    assert PairingIndexed(st.t.pairings, st.t.byPair, p) && PairingOwned(st.t.devices, st.t.pairings, p);
    if c.ConfirmPairing? && c.challenge in st.s.challenges {
      var pair := (c.device, st.s.challenges[c.challenge].value.desktop);
      if pair in st.t.byPair { assert PairNamesPairing(st.t.pairings, st.t.byPair, pair); }
    }
  }

  /**
   Once a pairing is revoked, by itself or with a device, it stays revoked and no session starts on it, whatever anyone
   calls, until its user confirms a challenge from its mobile again.
   */
  lemma {:induction false} RevokedStaysClosed(maxAttempts: nat, calls: seq<Call>, more: seq<Call>, p: PairingId)
    requires p in Run(maxAttempts, calls).t.pairings && Run(maxAttempts, calls).t.pairings[p].status == Revoked
    requires forall i :: 0 <= i < |more| ==> !ConfirmsFor(more[i], Run(maxAttempts, calls).t.pairings[p])
    ensures ClosedTo(Run(maxAttempts, calls + more).t, p, Run(maxAttempts, calls).t.sessions.Keys)
  {
    if more == [] {
      assert calls + more == calls;
    } else {
      var before := more[..|more| - 1];
      RevokedStaysClosed(maxAttempts, calls, before, p);
      RunEvolves(maxAttempts, calls, before);
      RunLast(maxAttempts, calls, more);
      StepClosed(Run(maxAttempts, calls + before), maxAttempts, more[|more| - 1], p, Run(maxAttempts, calls).t.sessions.Keys);
    }
  }

  // ---------- polling ----------

  /** Every session was started once. */
  ghost predicate StartedOnce(t: Tables) {
    && (forall i, j :: 0 <= i < j < |t.started| ==> t.started[i] != t.started[j])
    && (forall s :: s in t.sessions ==> s in t.started)
    && (forall i :: 0 <= i < |t.started| ==> t.started[i] in t.sessions)
  }

  lemma StepStarts(st: State, maxAttempts: nat, c: Call)
    requires Consistent(st.t) && StartedOnce(st.t)
    ensures StartedOnce(Step(st, maxAttempts, c).t)
  {
    var t, t' := st.t, Step(st, maxAttempts, c).t;
    if c.StartSession? && t' != t {
      forall s | s in t'.sessions ensures s in t'.started {
        if s in t.sessions { assert s in t.started; } else { assert t'.started[|t.started|] == s; }
      }
    } else {
      assert t'.sessions.Keys == t.sessions.Keys && t'.started == t.started by { StartsOnly(st, maxAttempts, c); }
      assert forall s :: s in t'.sessions ==> s in t'.sessions.Keys;
    }
  }

  lemma StartsOnly(st: State, maxAttempts: nat, c: Call)
    requires Consistent(st.t) && (!c.StartSession? || Step(st, maxAttempts, c).t == st.t)
    ensures Step(st, maxAttempts, c).t.sessions.Keys == st.t.sessions.Keys && Step(st, maxAttempts, c).t.started == st.t.started
  {
  }

  lemma {:induction false} RunStarts(maxAttempts: nat, calls: seq<Call>)
    ensures StartedOnce(Run(maxAttempts, calls).t)
  {
    if calls != [] {
      var last := |calls| - 1;
      RunStarts(maxAttempts, calls[..last]);
      StepStarts(Run(maxAttempts, calls[..last]), maxAttempts, calls[last]);
    }
  }

  /** A connecting session of the user whose pairing targets this desktop. */
  predicate Waiting(t: Tables, user: UserId, desktop: DeviceId, s: SessionId) {
    && s in t.sessions && t.sessions[s].user == user && t.sessions[s].status == Connecting
    && t.sessions[s].pairing in t.pairings && t.pairings[t.sessions[s].pairing].desktop == desktop
  }

  /**
   What a poll gives the agent of a desktop, in every run: at most ten agent tickets for its user, each for a different
   session that is still connecting and whose pairing targets that desktop; and if fewer than ten, one for each of those.
   */
  lemma PollGives(maxAttempts: nat, calls: seq<Call>, user: UserId, desktop: DeviceId)
    requires desktop != ""
    ensures var t := Run(maxAttempts, calls).t; var r := PendingForDevice(t, user, desktop).1;
      && r.Ok? && |r.value| <= 10
      && (forall i :: 0 <= i < |r.value| ==>
           r.value[i].user == user && r.value[i].role == Protocol.Agent && Waiting(t, user, desktop, r.value[i].session))
      && (forall i, j :: 0 <= i < j < |r.value| ==> r.value[i].session != r.value[j].session)
      && (|r.value| < 10 ==> forall s :: Waiting(t, user, desktop, s) ==> exists i :: 0 <= i < |r.value| && r.value[i].session == s)
  {
    var t := Run(maxAttempts, calls).t;
    RunStarts(maxAttempts, calls);
    PollIsComplete(t, user, desktop);
  }

  lemma PollIsComplete(t: Tables, user: UserId, desktop: DeviceId)
    requires Consistent(t) && StartedOnce(t) && desktop != ""
    ensures var r := PendingForDevice(t, user, desktop).1;
      && r.Ok? && |r.value| <= 10
      && (forall i :: 0 <= i < |r.value| ==>
           r.value[i].user == user && r.value[i].role == Protocol.Agent && Waiting(t, user, desktop, r.value[i].session))
      && (forall i, j :: 0 <= i < j < |r.value| ==> r.value[i].session != r.value[j].session)
      && (|r.value| < 10 ==> forall s :: Waiting(t, user, desktop, s) ==> exists i :: 0 <= i < |r.value| && r.value[i].session == s)
  {
    PollTickets(t, user, desktop);
    var idx := PendingNewestFirst(t, user, desktop, |t.started|, PENDING_LIMIT);
    var r := PendingForDevice(t, user, desktop).1.value;
    forall i, j | 0 <= i < j < |r| ensures r[i].session != r[j].session {
      assert r[i].session == t.started[idx[i]] && r[j].session == t.started[idx[j]] && idx[j] < idx[i];
    }
    if |r| < 10 {
      forall s | Waiting(t, user, desktop, s) ensures exists i :: 0 <= i < |r| && r[i].session == s {
        assert s in t.started;
        var k: nat :| k < |t.started| && t.started[k] == s;
        assert Answerable(t, user, desktop, t.started[k]) && k in idx;
        var i :| 0 <= i < |idx| && idx[i] == k;
        assert r[i].session == s;
      }
    }
  }

  /** Revoking a device leaves no active pairing with it, although the cascade looks only at the caller's own pairings. */
  lemma RevocationCascades(maxAttempts: nat, calls: seq<Call>, user: UserId, d: DeviceId)
    requires RevokeDevice(Run(maxAttempts, calls).t, user, d).1.Ok?
    ensures var t' := Run(maxAttempts, calls + [RevokeTheDevice(user, d)]).t;
      && d in t'.devices && t'.devices[d].revoked
      && forall p :: p in t'.pairings && (t'.pairings[p].mobile == d || t'.pairings[p].desktop == d) ==> t'.pairings[p].status == Revoked
  {
    var t := Run(maxAttempts, calls).t;
    assert (calls + [RevokeTheDevice(user, d)])[..|calls|] == calls;
    forall p | p in t.pairings ensures PairingOwned(t.devices, t.pairings, p) {}
  }

  /**
   Exactly when a challenge is confirmed: it is pending, the user's own and not expired, the code is the one it was made
   with, and the mobile is one of the user's, not revoked. It is then gone, and so is its counter.
   */
  lemma ConfirmSucceedsIff(st: State, maxAttempts: nat, user: UserId, id: ChallengeId, code: string, mobile: DeviceId,
                           now: nat, pairing: PairingId)
    requires Owned(st) && pairing !in st.t.pairings && !Blank(id) && !Blank(code) && !Blank(mobile)
    ensures var (st', r) := Confirm(st, maxAttempts, user, id, code, mobile, now, pairing);
      && (r.Ok? <==>
           && id in st.s.challenges && st.s.challenges[id].value.user == user && now <= st.s.challenges[id].value.expiresAt
           && st.s.challenges[id].value.codeHash == Sha256(code)
           && OwnsDevice(st.t, mobile, user) && st.t.devices[mobile].kind == Mobile)
      && (r.Ok? ==> id !in st'.s.challenges && id !in st'.s.attempts)
      && (r.Err? ==> st'.t == st.t && st'.confirmed == st.confirmed)
  {
  }

  /**
   What a confirmed pairing guarantees: it is active, the user's own, between the mobile presented and the challenge's
   desktop, and the mobile is not revoked. The desktop is not looked at again: it is revoked exactly if it was before.
   */
  lemma ConfirmedPairing(maxAttempts: nat, calls: seq<Call>, user: UserId, id: ChallengeId, code: string,
                         mobile: DeviceId, now: nat, pairing: PairingId)
    requires Confirm(Run(maxAttempts, calls), maxAttempts, user, id, code, mobile, now, pairing).1.Ok?
    ensures var st := Run(maxAttempts, calls); var (st', r) := Confirm(st, maxAttempts, user, id, code, mobile, now, pairing);
      && id in st.s.challenges && r.value in st'.t.pairings
      && var desktop := st.s.challenges[id].value.desktop;
         && st'.t.pairings[r.value] == Pairing(user, mobile, desktop, Active)
         && OwnsDevice(st'.t, mobile, user) && OwnerOf(st'.t.devices, desktop, user)
         && desktop in st.t.devices && st'.t.devices[desktop].revoked == st.t.devices[desktop].revoked
  {
    PairingConfirmed(Run(maxAttempts, calls), maxAttempts, user, id, code, mobile, now, pairing);
  }

  lemma PairingConfirmed(st: State, maxAttempts: nat, user: UserId, id: ChallengeId, code: string, mobile: DeviceId, now: nat,
                         pairing: PairingId)
    requires Owned(st) && Confirm(st, maxAttempts, user, id, code, mobile, now, pairing).1.Ok?
    ensures var (st', r) := Confirm(st, maxAttempts, user, id, code, mobile, now, pairing);
      && id in st.s.challenges && r.value in st'.t.pairings && st'.t.devices == st.t.devices
      && st'.t.pairings[r.value] == Pairing(user, mobile, st.s.challenges[id].value.desktop, Active)
      && OwnsDevice(st.t, mobile, user) && OwnerOf(st.t.devices, st.s.challenges[id].value.desktop, user)
  {
    var desktop := st.s.challenges[id].value.desktop;
    if (mobile, desktop) in st.t.byPair {
      assert PairNamesPairing(st.t.pairings, st.t.byPair, (mobile, desktop));
      assert PairingOwned(st.t.devices, st.t.pairings, st.t.byPair[(mobile, desktop)]);
    }
  }

  /** Revoking another device does not stop a confirmation. */
  lemma ConfirmUndisturbed(st: State, maxAttempts: nat, user: UserId, id: ChallengeId, code: string, mobile: DeviceId,
                           now: nat, p: PairingId, d: DeviceId)
    requires Consistent(st.t) && Confirm(st, maxAttempts, user, id, code, mobile, now, p).1.Ok? && d != mobile
    ensures var st' := st.(t := RevokeDevice(st.t, user, d).0);
      Consistent(st'.t) && Confirm(st', maxAttempts, user, id, code, mobile, now, p).1.Ok?
  {
  }

  /** So a challenge outlives its desktop's revocation: whoever could confirm it before gets an active pairing with a revoked desktop. */
  lemma ConfirmAfterRevocation(maxAttempts: nat, calls: seq<Call>, user: UserId, id: ChallengeId, code: string,
                               mobile: DeviceId, now: nat, p: PairingId)
    requires var st := Run(maxAttempts, calls);
      && Confirm(st, maxAttempts, user, id, code, mobile, now, p).1.Ok? && id in st.s.challenges
      && OwnsDevice(st.t, st.s.challenges[id].value.desktop, user) && st.s.challenges[id].value.desktop != mobile
    ensures var st := Run(maxAttempts, calls); var desktop := st.s.challenges[id].value.desktop;
      var revoked := calls + [RevokeTheDevice(user, desktop)];
      var (st', r) := Confirm(Run(maxAttempts, revoked), maxAttempts, user, id, code, mobile, now, p);
      && r.Ok? && r.value in st'.t.pairings && st'.t.pairings[r.value] == Pairing(user, mobile, desktop, Active)
      && desktop in st'.t.devices && st'.t.devices[desktop].revoked
  {
    var st := Run(maxAttempts, calls);
    var desktop := st.s.challenges[id].value.desktop;
    var revoked := calls + [RevokeTheDevice(user, desktop)];
    RunSnoc(maxAttempts, calls, RevokeTheDevice(user, desktop));
    ConfirmUndisturbed(st, maxAttempts, user, id, code, mobile, now, p, desktop);
    ConfirmedPairing(maxAttempts, revoked, user, id, code, mobile, now, p);
  }

  const DEMO := [
    RegisterDevice("u", Desktop, "kd", "d"), RegisterDevice("u", Mobile, "km", "m"), InitiatePairing("u", "d", "1", "c", 0, 300_000),
    RevokeTheDevice("u", "d"), ConfirmPairing("u", "c", "1", "m", 1, "p")]

  const WITH_DESKTOP := INIT.(t := EMPTY_TABLES.(devices := map["d" := Device("u", Desktop, "kd", false)], byKey := map["kd" := "d"]))
  const WITH_BOTH := INIT.(t := EMPTY_TABLES.(
    devices := map["d" := Device("u", Desktop, "kd", false), "m" := Device("u", Mobile, "km", false)],
    byKey := map["kd" := "d", "km" := "m"]))
  const INITIATED := WITH_BOTH.(
    s := Store(0, map["c" := Entry(Challenge("u", "d", Sha256("1"), 300_000), Some(300_000))], map[]),
    issued := {"c"})
  const REVOKED := INITIATED.(t := INITIATED.t.(devices := INITIATED.t.devices["d" := Device("u", Desktop, "kd", true)]))

  lemma DemoDevices()
    ensures Consistent(INIT.t) && Consistent(WITH_DESKTOP.t)
    ensures Step(INIT, 5, DEMO[0]) == WITH_DESKTOP && Step(WITH_DESKTOP, 5, DEMO[1]) == WITH_BOTH
  {
    assert "kd"[1] == 'd' && "km"[1] == 'm' && "d"[0] == 'd' && "m"[0] == 'm';
  }

  lemma DemoInitiates()
    ensures Consistent(WITH_BOTH.t)
    ensures Step(WITH_BOTH, 5, DEMO[2]) == INITIATED
  {
    assert "d"[0] == 'd' && "m"[0] == 'm';
    assert WITH_BOTH.s.attempts - {"c"} == map[];
  }

  lemma DemoRevokes()
    ensures Consistent(INITIATED.t)
    ensures Step(INITIATED, 5, DEMO[3]) == REVOKED
  {
    assert CascadeRevoke(map[], "d", "u") == map[];
  }

  lemma DemoConfirms()
    ensures Consistent(REVOKED.t)
    ensures Stale(Step(REVOKED, 5, DEMO[4]).t, "p")
  {
    assert "d"[0] == 'd' && "m"[0] == 'm' && "c"[0] == 'c' && "1"[0] == '1';
  }

  lemma DemoRun(n: nat, st: State, st': State)
    requires n < |DEMO| && Run(5, DEMO[..n]) == st && Step(st, 5, DEMO[n]) == st'
    ensures Run(5, DEMO[..n + 1]) == st' && Consistent(st'.t)
  {
    assert DEMO[..n + 1] == DEMO[..n] + [DEMO[n]];
    RunStep(5, DEMO[..n + 1], DEMO[..n], DEMO[n]);
  }

  lemma DemoRevoked()
    ensures Run(5, DEMO[..4]) == REVOKED && Consistent(REVOKED.t)
  {
    DemoDevices();
    DemoRun(0, INIT, WITH_DESKTOP);
    DemoRun(1, WITH_DESKTOP, WITH_BOTH);
    DemoInitiates();
    DemoRun(2, WITH_BOTH, INITIATED);
    DemoRevokes();
    DemoRun(3, INITIATED, REVOKED);
  }

  lemma DemoEnds(st: State, st': State)
    requires Run(5, DEMO[..4]) == st && Step(st, 5, DEMO[4]) == st' && Stale(st'.t, "p")
    ensures Stale(Run(5, DEMO[..4 + 1]).t, "p")
  {
    DemoRun(4, st, st');
  }

  lemma DemoGetsThere()
    ensures Stale(Run(5, DEMO[..4 + 1]).t, "p")
  {
    DemoRevoked();
    DemoConfirms();
    DemoEnds(REVOKED, Step(REVOKED, 5, DEMO[4]));
  }

  /** One such run from the empty state: register both devices, initiate, revoke the desktop, confirm. */
  lemma ActivePairingWithRevokedDesktop()
    ensures Stale(Run(5, DEMO).t, "p")
  {
    assert DEMO[..4 + 1] == DEMO;
    DemoGetsThere();
  }
}
