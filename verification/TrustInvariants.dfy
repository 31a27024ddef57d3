/** What every service call keeps in the tables and the challenge store, and hence what holds over every run of calls. */
module TrustInvariants {
  import opened Basics
  import opened Trust
  import Protocol

  type Devices = map<DeviceId, Device>
  type Pairings = map<PairingId, Pairing>
  type Sessions = map<SessionId, Session>

  // ---------- what every call keeps in the tables ----------

  predicate DeviceIndexed(ds: Devices, byKey: map<PublicKey, DeviceId>, d: DeviceId) {
    d in ds && ds[d].key in byKey && byKey[ds[d].key] == d
  }

  predicate KeyNamesDevice(ds: Devices, byKey: map<PublicKey, DeviceId>, k: PublicKey) {
    k in byKey && byKey[k] in ds && ds[byKey[k]].key == k
  }

  ghost predicate KeysUnique(ds: Devices, byKey: map<PublicKey, DeviceId>) {
    && (forall d {:trigger DeviceIndexed(ds, byKey, d)} :: d in ds ==> DeviceIndexed(ds, byKey, d))
    && (forall k {:trigger KeyNamesDevice(ds, byKey, k)} :: k in byKey ==> KeyNamesDevice(ds, byKey, k))
  }

  function PairOf(p: Pairing): (DeviceId, DeviceId) {
    (p.mobile, p.desktop)
  }

  predicate PairingIndexed(ps: Pairings, byPair: map<(DeviceId, DeviceId), PairingId>, p: PairingId) {
    p in ps && PairOf(ps[p]) in byPair && byPair[PairOf(ps[p])] == p
  }

  predicate PairNamesPairing(ps: Pairings, byPair: map<(DeviceId, DeviceId), PairingId>, pair: (DeviceId, DeviceId)) {
    pair in byPair && byPair[pair] in ps && PairOf(ps[byPair[pair]]) == pair
  }

  ghost predicate PairsUnique(ps: Pairings, byPair: map<(DeviceId, DeviceId), PairingId>) {
    && (forall p {:trigger PairingIndexed(ps, byPair, p)} :: p in ps ==> PairingIndexed(ps, byPair, p))
    && (forall pair {:trigger PairNamesPairing(ps, byPair, pair)} :: pair in byPair ==> PairNamesPairing(ps, byPair, pair))
  }

  predicate OwnerOf(ds: Devices, d: DeviceId, user: UserId) {
    d in ds && ds[d].user == user
  }

  predicate PairingOwned(ds: Devices, ps: Pairings, p: PairingId) {
    p in ps && OwnerOf(ds, ps[p].mobile, ps[p].user) && OwnerOf(ds, ps[p].desktop, ps[p].user)
  }

  ghost predicate PairingsOwned(ds: Devices, ps: Pairings) {
    forall p {:trigger PairingOwned(ds, ps, p)} :: p in ps ==> PairingOwned(ds, ps, p)
  }

  predicate SessionOwned(ps: Pairings, ss: Sessions, s: SessionId, user: UserId) {
    s in ss && ss[s].user == user && ss[s].pairing in ps && ps[ss[s].pairing].user == user
  }

  ghost predicate SessionsOwned(ps: Pairings, ss: Sessions, started: seq<SessionId>, tickets: seq<Ticket>) {
    && (forall s {:trigger SessionOwned(ps, ss, s, ss[s].user)} :: s in ss ==> SessionOwned(ps, ss, s, ss[s].user))
    && (forall i :: 0 <= i < |started| ==> started[i] in ss)
    && (forall i :: 0 <= i < |tickets| ==> SessionOwned(ps, ss, tickets[i].session, tickets[i].user))
  }

  ghost predicate TablesInv(t: Tables) {
    && KeysUnique(t.devices, t.byKey)
    && PairsUnique(t.pairings, t.byPair)
    && PairingsOwned(t.devices, t.pairings)
    && SessionsOwned(t.pairings, t.sessions, t.started, t.tickets)
  }

  lemma TablesConsistent(t: Tables)
    requires TablesInv(t)
    ensures Consistent(t)
  {
    forall k | k in t.byKey ensures t.byKey[k] in t.devices { assert KeyNamesDevice(t.devices, t.byKey, k); }
    forall pair | pair in t.byPair ensures t.byPair[pair] in t.pairings { assert PairNamesPairing(t.pairings, t.byPair, pair); }
    forall s | s in t.sessions ensures t.sessions[s].pairing in t.pairings {
      assert SessionOwned(t.pairings, t.sessions, s, t.sessions[s].user);
    }
  }

  /** Rows are never deleted, and no row changes the key, owner, devices or pairing it was created with. */
  ghost predicate DevicesEvolve(ds: Devices, ds': Devices) {
    forall d :: d in ds ==> d in ds' && ds'[d].key == ds[d].key && ds'[d].user == ds[d].user
  }

  ghost predicate PairingsEvolve(ps: Pairings, ps': Pairings) {
    forall p :: p in ps ==> p in ps' && ps'[p].user == ps[p].user && PairOf(ps'[p]) == PairOf(ps[p])
  }

  ghost predicate SessionsEvolve(ss: Sessions, ss': Sessions) {
    forall s :: s in ss ==> s in ss' && ss'[s].user == ss[s].user && ss'[s].pairing == ss[s].pairing
  }

  ghost predicate Evolves(t: Tables, t': Tables) {
    DevicesEvolve(t.devices, t'.devices) && PairingsEvolve(t.pairings, t'.pairings) && SessionsEvolve(t.sessions, t'.sessions)
  }

  lemma OwnershipStays(ds: Devices, ds': Devices, ps: Pairings, ps': Pairings)
    requires PairingsOwned(ds, ps) && DevicesEvolve(ds, ds') && PairingsEvolve(ps, ps') && ps'.Keys == ps.Keys
    ensures PairingsOwned(ds', ps')
  {
    forall p | p in ps' ensures PairingOwned(ds', ps', p) {
      assert PairingOwned(ds, ps, p);
      assert PairOf(ps'[p]) == PairOf(ps[p]);
    }
  }

  lemma SessionsStay(ps: Pairings, ps': Pairings, ss: Sessions, ss': Sessions, started: seq<SessionId>, tickets: seq<Ticket>)
    requires SessionsOwned(ps, ss, started, tickets) && PairingsEvolve(ps, ps') && SessionsEvolve(ss, ss') && ss'.Keys == ss.Keys
    ensures SessionsOwned(ps', ss', started, tickets)
  {
    forall s | s in ss' ensures SessionOwned(ps', ss', s, ss'[s].user) { assert SessionOwned(ps, ss, s, ss[s].user); }
    forall i | 0 <= i < |tickets| ensures SessionOwned(ps', ss', tickets[i].session, tickets[i].user) {
      assert SessionOwned(ps, ss, tickets[i].session, tickets[i].user);
    }
  }

  lemma PairsStay(ps: Pairings, ps': Pairings, byPair: map<(DeviceId, DeviceId), PairingId>)
    requires PairsUnique(ps, byPair) && PairingsEvolve(ps, ps') && ps'.Keys == ps.Keys
    ensures PairsUnique(ps', byPair)
  {
    forall p | p in ps' ensures PairingIndexed(ps', byPair, p) { assert PairingIndexed(ps, byPair, p); }
    forall pair | pair in byPair ensures PairNamesPairing(ps', byPair, pair) { assert PairNamesPairing(ps, byPair, pair); }
  }

  /** A call that leaves the set of pairings and sessions alone, and keeps keys unique, keeps everything. */
  lemma QuietKeeps(t: Tables, t': Tables)
    requires TablesInv(t) && Evolves(t, t') && KeysUnique(t'.devices, t'.byKey)
    requires t'.pairings.Keys == t.pairings.Keys && t'.byPair == t.byPair
    requires t'.sessions.Keys == t.sessions.Keys && t'.started == t.started && t'.tickets == t.tickets
    ensures TablesInv(t')
  {
    OwnershipStays(t.devices, t'.devices, t.pairings, t'.pairings);
    SessionsStay(t.pairings, t'.pairings, t.sessions, t'.sessions, t.started, t.tickets);
    PairsStay(t.pairings, t'.pairings, t.byPair);
  }

  lemma RegisterDevices(t: Tables, user: UserId, kind: Kind, key: PublicKey, id: DeviceId, d: DeviceId)
    requires KeysUnique(t.devices, t.byKey) && Consistent(t)
    requires d in Register(t, user, kind, key, id).0.devices
    ensures var t' := Register(t, user, kind, key, id).0; DeviceIndexed(t'.devices, t'.byKey, d)
  {
    if key in t.byKey { assert KeyNamesDevice(t.devices, t.byKey, key); }
    if d in t.devices { assert DeviceIndexed(t.devices, t.byKey, d); }
  }

  lemma RegisterIndex(t: Tables, user: UserId, kind: Kind, key: PublicKey, id: DeviceId, k: PublicKey)
    requires KeysUnique(t.devices, t.byKey) && Consistent(t)
    requires k in Register(t, user, kind, key, id).0.byKey
    ensures var t' := Register(t, user, kind, key, id).0; KeyNamesDevice(t'.devices, t'.byKey, k)
  {
    if key in t.byKey { assert KeyNamesDevice(t.devices, t.byKey, key); }
    if k in t.byKey { assert KeyNamesDevice(t.devices, t.byKey, k); }
  }

  lemma RegisterEvolves(t: Tables, user: UserId, kind: Kind, key: PublicKey, id: DeviceId)
    requires Consistent(t)
    ensures DevicesEvolve(t.devices, Register(t, user, kind, key, id).0.devices)
  {
  }

  lemma RegisterKeys(t: Tables, user: UserId, kind: Kind, key: PublicKey, id: DeviceId)
    requires KeysUnique(t.devices, t.byKey) && Consistent(t)
    ensures var t' := Register(t, user, kind, key, id).0; KeysUnique(t'.devices, t'.byKey) && DevicesEvolve(t.devices, t'.devices)
  {
    var t' := Register(t, user, kind, key, id).0;
    RegisterEvolves(t, user, kind, key, id);
    forall d | d in t'.devices ensures DeviceIndexed(t'.devices, t'.byKey, d) { RegisterDevices(t, user, kind, key, id, d); }
    forall k | k in t'.byKey ensures KeyNamesDevice(t'.devices, t'.byKey, k) { RegisterIndex(t, user, kind, key, id, k); }
  }

  lemma RegisterTouches(t: Tables, user: UserId, kind: Kind, key: PublicKey, id: DeviceId)
    requires Consistent(t)
    ensures var t' := Register(t, user, kind, key, id).0; t' == t.(devices := t'.devices, byKey := t'.byKey)
  {
  }

  lemma RegisterKeeps(t: Tables, user: UserId, kind: Kind, key: PublicKey, id: DeviceId)
    requires TablesInv(t) && Consistent(t)
    ensures var t' := Register(t, user, kind, key, id).0; TablesInv(t') && Evolves(t, t')
  {
    RegisterKeys(t, user, kind, key, id);
    RegisterTouches(t, user, kind, key, id);
    QuietKeeps(t, Register(t, user, kind, key, id).0);
  }

  /** Tables that differ at most in flags and statuses. */
  ghost predicate SameRows(t: Tables, t': Tables) {
    && Evolves(t, t') && t'.devices.Keys == t.devices.Keys && t'.byKey == t.byKey
    && t'.pairings.Keys == t.pairings.Keys && t'.byPair == t.byPair
    && t'.sessions.Keys == t.sessions.Keys && t'.started == t.started && t'.tickets == t.tickets
  }

  lemma OtherPairings(t: Tables, ds: Devices, ps: Pairings)
    requires DevicesEvolve(t.devices, ds) && ds.Keys == t.devices.Keys && PairingsEvolve(t.pairings, ps) && ps.Keys == t.pairings.Keys
    ensures SameRows(t, t.(devices := ds, pairings := ps))
  {
  }

  lemma OtherSessions(t: Tables, ss: Sessions)
    requires SessionsEvolve(t.sessions, ss) && ss.Keys == t.sessions.Keys
    ensures SameRows(t, t.(sessions := ss))
  {
  }

  lemma RevokeDeviceRows(t: Tables, user: UserId, d: DeviceId)
    ensures SameRows(t, RevokeDevice(t, user, d).0)
  {
    if OwnsDevice(t, d, user) {
      OtherPairings(t, t.devices[d := t.devices[d].(revoked := true)], CascadeRevoke(t.pairings, d, user));
    }
  }

  lemma RevokePairingRows(t: Tables, user: UserId, p: PairingId)
    ensures SameRows(t, RevokePairing(t, user, p).0)
  {
    if p in t.pairings { OtherPairings(t, t.devices, t.pairings[p := t.pairings[p].(status := Revoked)]); }
  }

  lemma StatusOnly(ss: Sessions, s: SessionId, status: SessionStatus)
    requires s in ss
    ensures var ss' := ss[s := ss[s].(status := status)]; SessionsEvolve(ss, ss') && ss'.Keys == ss.Keys
  {
  }

  lemma MoveStatusRows(t: Tables, s: SessionId, status: SessionStatus)
    ensures SameRows(t, MoveStatus(t, s, status))
  {
    if s in t.sessions {
      StatusOnly(t.sessions, s, status);
      OtherSessions(t, t.sessions[s := t.sessions[s].(status := status)]);
    }
  }

  lemma EndSessionIsMove(t: Tables, user: UserId, s: SessionId)
    ensures EndSession(t, user, s).0 == t || EndSession(t, user, s).0 == MoveStatus(t, s, Ended)
  {
  }

  lemma EndSessionRows(t: Tables, user: UserId, s: SessionId)
    ensures SameRows(t, EndSession(t, user, s).0)
  {
    EndSessionIsMove(t, user, s);
    MoveStatusRows(t, s, Ended);
  }

  lemma SameRowsKeep(t: Tables, t': Tables)
    requires TablesInv(t) && SameRows(t, t')
    ensures TablesInv(t')
  {
    forall d | d in t'.devices ensures DeviceIndexed(t'.devices, t'.byKey, d) { assert DeviceIndexed(t.devices, t.byKey, d); }
    forall k | k in t'.byKey ensures KeyNamesDevice(t'.devices, t'.byKey, k) { assert KeyNamesDevice(t.devices, t.byKey, k); }
    QuietKeeps(t, t');
  }

  lemma UpsertPairs(t: Tables, user: UserId, mobile: DeviceId, desktop: DeviceId, id: PairingId)
    requires PairsUnique(t.pairings, t.byPair) && Consistent(t)
    ensures var t' := UpsertActivePairing(t, user, mobile, desktop, id).0;
      PairsUnique(t'.pairings, t'.byPair) && PairingsEvolve(t.pairings, t'.pairings)
  {
    var t' := UpsertActivePairing(t, user, mobile, desktop, id).0;
    if (mobile, desktop) in t.byPair { assert PairNamesPairing(t.pairings, t.byPair, (mobile, desktop)); }
    forall p | p in t'.pairings ensures PairingIndexed(t'.pairings, t'.byPair, p) {
      if p in t.pairings { assert PairingIndexed(t.pairings, t.byPair, p); }
    }
    forall pair | pair in t'.byPair ensures PairNamesPairing(t'.pairings, t'.byPair, pair) {
      if pair in t.byPair { assert PairNamesPairing(t.pairings, t.byPair, pair); }
    }
  }

  lemma UpsertOwned(t: Tables, user: UserId, mobile: DeviceId, desktop: DeviceId, id: PairingId)
    requires PairingsOwned(t.devices, t.pairings) && Consistent(t) && OwnerOf(t.devices, mobile, user) && OwnerOf(t.devices, desktop, user)
    ensures PairingsOwned(t.devices, UpsertActivePairing(t, user, mobile, desktop, id).0.pairings)
  {
    var t' := UpsertActivePairing(t, user, mobile, desktop, id).0;
    forall p | p in t'.pairings ensures PairingOwned(t.devices, t'.pairings, p) {
      if p in t.pairings { assert PairingOwned(t.devices, t.pairings, p); }
    }
  }

  lemma UpsertKeeps(t: Tables, user: UserId, mobile: DeviceId, desktop: DeviceId, id: PairingId)
    requires TablesInv(t) && Consistent(t) && OwnerOf(t.devices, mobile, user) && OwnerOf(t.devices, desktop, user)
    ensures var t' := UpsertActivePairing(t, user, mobile, desktop, id).0; TablesInv(t') && Evolves(t, t')
  {
    UpsertPairs(t, user, mobile, desktop, id);
    UpsertOwned(t, user, mobile, desktop, id);
    var t' := UpsertActivePairing(t, user, mobile, desktop, id).0;
    SessionsStay(t.pairings, t'.pairings, t.sessions, t.sessions, t.started, t.tickets);
  }

  lemma CreateSessionKeeps(t: Tables, user: UserId, p: PairingId, id: SessionId)
    requires TablesInv(t)
    ensures var t' := CreateSession(t, user, p, id).0; TablesInv(t') && Evolves(t, t')
  {
    var t' := CreateSession(t, user, p, id).0;
    if t' != t {
      forall s | s in t'.sessions ensures SessionOwned(t'.pairings, t'.sessions, s, t'.sessions[s].user) {
        if s != id { assert SessionOwned(t.pairings, t.sessions, s, t.sessions[s].user); }
      }
      forall i | 0 <= i < |t'.tickets| ensures SessionOwned(t'.pairings, t'.sessions, t'.tickets[i].session, t'.tickets[i].user) {
        if i < |t.tickets| { assert SessionOwned(t.pairings, t.sessions, t.tickets[i].session, t.tickets[i].user); }
      }
    }
  }

  /** `l` lists the answerable ones among the first `n` sessions started that stand at `idx`, newest first, at most `limit`. */
  ghost predicate Lists(t: Tables, user: UserId, desktop: DeviceId, n: nat, idx: seq<nat>, l: seq<SessionId>)
    requires Consistent(t) && n <= |t.started|
  {
    && |idx| == |l|
    && (forall k :: 0 <= k < |idx| ==> idx[k] < n && l[k] == t.started[idx[k]] && Answerable(t, user, desktop, l[k]))
    && (forall j, k :: 0 <= j < k < |idx| ==> idx[j] > idx[k])
  }

  /** Every answerable one is listed, except those older than all listed when the limit is reached. */
  ghost predicate Complete(t: Tables, user: UserId, desktop: DeviceId, n: nat, limit: nat, idx: seq<nat>)
    requires Consistent(t) && n <= |t.started|
  {
    forall i :: 0 <= i < n && Answerable(t, user, desktop, t.started[i]) && i !in idx ==>
      |idx| == limit && forall k :: 0 <= k < |idx| ==> i < idx[k]
  }

  lemma ListOneMore(t: Tables, user: UserId, desktop: DeviceId, n: nat, idx: seq<nat>, l: seq<SessionId>)
    requires Consistent(t) && n < |t.started| && Answerable(t, user, desktop, t.started[n]) && Lists(t, user, desktop, n, idx, l)
    ensures Lists(t, user, desktop, n + 1, [n] + idx, [t.started[n]] + l)
  {
    var idx', l' := [n] + idx, [t.started[n]] + l;
    forall k | 0 <= k < |idx'| ensures idx'[k] < n + 1 && l'[k] == t.started[idx'[k]] && Answerable(t, user, desktop, l'[k]) {
      if k > 0 { assert idx'[k] == idx[k - 1] && l'[k] == l[k - 1]; }
    }
  }

  lemma CompleteOneMore(t: Tables, user: UserId, desktop: DeviceId, n: nat, limit: nat, idx: seq<nat>)
    requires Consistent(t) && n < |t.started| && Complete(t, user, desktop, n, limit, idx)
    ensures Complete(t, user, desktop, n + 1, limit + 1, [n] + idx)
  {
    var idx' := [n] + idx;
    forall i | 0 <= i < n + 1 && Answerable(t, user, desktop, t.started[i]) && i !in idx'
      ensures |idx'| == limit + 1 && forall k :: 0 <= k < |idx'| ==> i < idx'[k]
    {
      assert idx'[0] == n && forall k :: 0 <= k < |idx| ==> idx'[k + 1] == idx[k];
      assert i != n && i !in idx;
    }
  }

  /** The sessions listed as pending are the newest answerable ones, newest first. */
  lemma {:induction false} PendingNewestFirst(t: Tables, user: UserId, desktop: DeviceId, n: nat, limit: nat)
    returns (idx: seq<nat>)
    requires Consistent(t) && n <= |t.started|
    ensures |idx| <= limit && Lists(t, user, desktop, n, idx, PendingAmong(t, user, desktop, n, limit))
    ensures Complete(t, user, desktop, n, limit, idx)
  {
    if n == 0 || limit == 0 {
      idx := [];
    } else if Answerable(t, user, desktop, t.started[n - 1]) {
      var rest := PendingNewestFirst(t, user, desktop, n - 1, limit - 1);
      ListOneMore(t, user, desktop, n - 1, rest, PendingAmong(t, user, desktop, n - 1, limit - 1));
      CompleteOneMore(t, user, desktop, n - 1, limit - 1, rest);
      idx := [n - 1] + rest;
    } else {
      idx := PendingNewestFirst(t, user, desktop, n - 1, limit);
    }
  }

  /** Polling records one agent ticket per pending session, each for an answerable one, and changes nothing else. */
  lemma PollTickets(t: Tables, user: UserId, desktop: DeviceId)
    requires Consistent(t) && desktop != ""
    ensures var (t', r) := PendingForDevice(t, user, desktop); r.Ok? && t' == t.(tickets := t.tickets + r.value)
    ensures var l, r := PendingAmong(t, user, desktop, |t.started|, PENDING_LIMIT), PendingForDevice(t, user, desktop).1.value;
      && |r| == |l|
      && forall i :: 0 <= i < |r| ==>
           r[i] == Ticket(l[i], user, Protocol.Agent) && l[i] in t.sessions && Answerable(t, user, desktop, l[i])
  {
    var idx := PendingNewestFirst(t, user, desktop, |t.started|, PENDING_LIMIT);
  }

  lemma PollKeeps(t: Tables, user: UserId, desktop: DeviceId)
    requires TablesInv(t) && Consistent(t)
    ensures var t' := PendingForDevice(t, user, desktop).0; TablesInv(t') && Evolves(t, t')
  {
    if desktop != "" {
      PollTickets(t, user, desktop);
      TicketsKeep(t, PendingForDevice(t, user, desktop).1.value);
    }
  }

  lemma TicketsKeep(t: Tables, more: seq<Ticket>)
    requires TablesInv(t)
    requires forall i :: 0 <= i < |more| ==> more[i].session in t.sessions && t.sessions[more[i].session].user == more[i].user
    ensures TablesInv(t.(tickets := t.tickets + more))
  {
    var tickets := t.tickets + more;
    forall i | 0 <= i < |tickets| ensures SessionOwned(t.pairings, t.sessions, tickets[i].session, tickets[i].user) {
      if i < |t.tickets| {
        assert SessionOwned(t.pairings, t.sessions, t.tickets[i].session, t.tickets[i].user);
      } else {
        assert SessionOwned(t.pairings, t.sessions, tickets[i].session, t.sessions[tickets[i].session].user);
      }
    }
  }

  // ---------- runs ----------

  /** A pending challenge is for a desktop of the user it belongs to. */
  ghost predicate ChallengesOwned(t: Tables, s: Store) {
    forall id :: id in s.challenges ==> OwnerOf(t.devices, s.challenges[id].value.desktop, s.challenges[id].value.user)
  }

  ghost predicate Owned(st: State) {
    Consistent(st.t) && TablesInv(st.t) && ChallengesOwned(st.t, st.s)
  }

  /** Owners do not change, so challenges already pending stay sound. */
  lemma PendingStayOwned(t: Tables, t': Tables, s: Store, s': Store)
    requires ChallengesOwned(t, s) && DevicesEvolve(t.devices, t'.devices)
    requires forall id :: id in s'.challenges ==> id in s.challenges && s'.challenges[id] == s.challenges[id]
    ensures ChallengesOwned(t', s')
  {
  }

  lemma ConfirmTables(st: State, maxAttempts: nat, user: UserId, id: ChallengeId, code: string, mobile: DeviceId,
                      now: nat, pairing: PairingId)
    requires Owned(st)
    ensures var t' := Confirm(st, maxAttempts, user, id, code, mobile, now, pairing).0.t; TablesInv(t') && Evolves(st.t, t')
  {
    var t' := Confirm(st, maxAttempts, user, id, code, mobile, now, pairing).0.t;
    if t' != st.t {
      UpsertKeeps(st.t, user, mobile, st.s.challenges[id].value.desktop, pairing);
    }
  }

  /** Confirming adds no challenge. */
  lemma ConfirmStore(st: State, maxAttempts: nat, user: UserId, id: ChallengeId, code: string, mobile: DeviceId,
                     now: nat, pairing: PairingId)
    requires Consistent(st.t)
    ensures var s' := Confirm(st, maxAttempts, user, id, code, mobile, now, pairing).0.s;
      forall i :: i in s'.challenges ==> i in st.s.challenges && s'.challenges[i] == st.s.challenges[i]
  {
  }

  lemma RevokeDeviceKeeps(t: Tables, user: UserId, d: DeviceId)
    requires TablesInv(t) && Consistent(t)
    ensures TablesInv(RevokeDevice(t, user, d).0) && Evolves(t, RevokeDevice(t, user, d).0)
  {
    RevokeDeviceRows(t, user, d);
    SameRowsKeep(t, RevokeDevice(t, user, d).0);
  }

  lemma RevokePairingKeeps(t: Tables, user: UserId, p: PairingId)
    requires TablesInv(t) && Consistent(t)
    ensures TablesInv(RevokePairing(t, user, p).0) && Evolves(t, RevokePairing(t, user, p).0)
  {
    RevokePairingRows(t, user, p);
    SameRowsKeep(t, RevokePairing(t, user, p).0);
  }

  lemma EndSessionKeeps(t: Tables, user: UserId, s: SessionId)
    requires TablesInv(t) && Consistent(t)
    ensures TablesInv(EndSession(t, user, s).0) && Evolves(t, EndSession(t, user, s).0)
  {
    EndSessionRows(t, user, s);
    SameRowsKeep(t, EndSession(t, user, s).0);
  }

  lemma MoveStatusKeeps(t: Tables, s: SessionId, status: SessionStatus)
    requires TablesInv(t) && Consistent(t)
    ensures TablesInv(MoveStatus(t, s, status)) && Evolves(t, MoveStatus(t, s, status))
  {
    MoveStatusRows(t, s, status);
    SameRowsKeep(t, MoveStatus(t, s, status));
  }

  predicate OnSessions(c: Call) {
    c.StartSession? || c.PollSessions? || c.FinishSession? || c.StatusMoves?
  }

  lemma SessionsStep(st: State, maxAttempts: nat, c: Call)
    requires Owned(st) && OnSessions(c)
    ensures var t' := Step(st, maxAttempts, c).t; TablesInv(t') && Evolves(st.t, t')
  {
    match c
    case StartSession(user, p, id) => CreateSessionKeeps(st.t, user, p, id);
    case PollSessions(user, d) => PollKeeps(st.t, user, d);
    case FinishSession(user, s) => EndSessionKeeps(st.t, user, s);
    case StatusMoves(s, status) => MoveStatusKeeps(st.t, s, status);
  }

  lemma PairingsStep(st: State, maxAttempts: nat, c: Call)
    requires Owned(st) && !OnSessions(c)
    ensures var t' := Step(st, maxAttempts, c).t; TablesInv(t') && Evolves(st.t, t')
  {
    match c
    case RegisterDevice(user, kind, key, id) => RegisterKeeps(st.t, user, kind, key, id);
    case RevokeTheDevice(user, d) => RevokeDeviceKeeps(st.t, user, d);
    case InitiatePairing(user, d, code, id, now, ttl) =>
    case ConfirmPairing(user, id, code, d, now, p) => ConfirmTables(st, maxAttempts, user, id, code, d, now, p);
    case RevokeThePairing(user, p) => RevokePairingKeeps(st.t, user, p);
    case TimePasses(dt) =>
  }

  lemma TablesStep(st: State, maxAttempts: nat, c: Call)
    requires Owned(st)
    ensures var t' := Step(st, maxAttempts, c).t; TablesInv(t') && Evolves(st.t, t')
  {
    if OnSessions(c) { SessionsStep(st, maxAttempts, c); } else { PairingsStep(st, maxAttempts, c); }
  }

  lemma ChallengesStep(st: State, maxAttempts: nat, c: Call)
    requires Consistent(st.t) && ChallengesOwned(st.t, st.s) && DevicesEvolve(st.t.devices, Step(st, maxAttempts, c).t.devices)
    ensures ChallengesOwned(Step(st, maxAttempts, c).t, Step(st, maxAttempts, c).s)
  {
    var st' := Step(st, maxAttempts, c);
    if c.InitiatePairing? {
    } else {
      if c.ConfirmPairing? { ConfirmStore(st, maxAttempts, c.user, c.challenge, c.code, c.device, c.now, c.pairing); }
      PendingStayOwned(st.t, st'.t, st.s, st'.s);
    }
  }

  lemma StepKeeps(st: State, maxAttempts: nat, c: Call)
    requires Owned(st)
    ensures var st' := Step(st, maxAttempts, c); Owned(st') && Evolves(st.t, st'.t)
  {
    TablesStep(st, maxAttempts, c);
    TablesConsistent(Step(st, maxAttempts, c).t);
    ChallengesStep(st, maxAttempts, c);
  }

  /** The state after any sequence of calls. */
  function Run(maxAttempts: nat, calls: seq<Call>): (st: State)
    ensures Owned(st)
  {
    if calls == [] then INIT else
    var last := |calls| - 1;
    StepKeeps(Run(maxAttempts, calls[..last]), maxAttempts, calls[last]);
    Step(Run(maxAttempts, calls[..last]), maxAttempts, calls[last])
  }

  /** A run that is another with one more call ends a step later. */
  lemma RunStep(maxAttempts: nat, longer: seq<Call>, calls: seq<Call>, c: Call)
    requires longer == calls + [c]
    ensures Run(maxAttempts, longer) == Step(Run(maxAttempts, calls), maxAttempts, c)
  {
    assert longer[..|longer| - 1] == calls;
  }

  lemma RunSnoc(maxAttempts: nat, calls: seq<Call>, c: Call)
    ensures Run(maxAttempts, calls + [c]) == Step(Run(maxAttempts, calls), maxAttempts, c)
  {
    RunStep(maxAttempts, calls + [c], calls, c);
  }

  lemma RunLast(maxAttempts: nat, calls: seq<Call>, more: seq<Call>)
    requires more != []
    ensures Run(maxAttempts, calls + more) == Step(Run(maxAttempts, calls + more[..|more| - 1]), maxAttempts, more[|more| - 1])
  {
    AppendSnoc(calls, more);
    RunStep(maxAttempts, calls + more, calls + more[..|more| - 1], more[|more| - 1]);
  }

  lemma StepEvolvesOn(t: Tables, st: State, maxAttempts: nat, c: Call)
    requires Owned(st) && Evolves(t, st.t)
    ensures Evolves(t, Step(st, maxAttempts, c).t)
  {
    StepKeeps(st, maxAttempts, c);
    EvolvesTransitive(t, st.t, Step(st, maxAttempts, c).t);
  }

  lemma {:induction false} RunEvolves(maxAttempts: nat, calls: seq<Call>, more: seq<Call>)
    ensures Evolves(Run(maxAttempts, calls).t, Run(maxAttempts, calls + more).t)
  {
    if more == [] {
      assert calls + more == calls;
    } else {
      var before := more[..|more| - 1];
      RunEvolves(maxAttempts, calls, before);
      RunLast(maxAttempts, calls, more);
      StepEvolvesOn(Run(maxAttempts, calls).t, Run(maxAttempts, calls + before), maxAttempts, more[|more| - 1]);
    }
  }

  lemma EvolvesTransitive(t: Tables, t': Tables, t'': Tables)
    requires Evolves(t, t') && Evolves(t', t'')
    ensures Evolves(t, t'')
  {
  }
}
