/** The database, the challenge store and the services over them, updated in place; each call is a step of the trust model. */
module TrustServices {
  import opened Basics
  import opened M = Trust
  import Protocol

  class Database {
    var devices: map<DeviceId, Device>
    var byKey: map<PublicKey, DeviceId>
    var pairings: map<PairingId, Pairing>
    var byPair: map<(DeviceId, DeviceId), PairingId>
    var sessions: map<SessionId, Session>
    var started: seq<SessionId>
    /** Tickets handed out so far; no table keeps them. */
    ghost var tickets: seq<Ticket>

    ghost function View(): Tables
      reads this
    {
      Tables(devices, byKey, pairings, byPair, sessions, started, tickets)
    }

    constructor ()
      ensures View() == EMPTY_TABLES
    {
      devices, byKey, pairings, byPair, sessions, started, tickets := map[], map[], map[], map[], map[], [], [];
    }
  }

  class DeviceRepo {
    const db: Database

    constructor (db: Database)
      ensures this.db == db
    {
      this.db := db;
    }

    /** `id` is the key the database would generate for a new row. */
    method Register(user: UserId, kind: Kind, key: PublicKey, id: DeviceId) returns (r: Result<DeviceId, Failure>)
      requires Consistent(db.View())
      modifies db
      ensures (db.View(), r) == M.Register(old(db.View()), user, kind, key, id)
    {
      if key in db.byKey {
        var d := db.byKey[key];
        if db.devices[d].user != user {
          return Err(PublicKeyTaken);
        }
        db.devices := db.devices[d := db.devices[d].(kind := kind, revoked := false)];
        return Ok(d);
      }
      if id in db.devices {
        return Err(StorageFailure);
      }
      db.devices := db.devices[id := Device(user, kind, key, false)];
      db.byKey := db.byKey[key := id];
      return Ok(id);
    }

    /** Both updates are one transaction: a device that is not there leaves everything alone. */
    method Revoke(d: DeviceId, user: UserId) returns (r: Result<(), Failure>)
      modifies db
      ensures (db.View(), r) == RevokeDevice(old(db.View()), user, d)
    {
      if d !in db.devices || db.devices[d].user != user || db.devices[d].revoked {
        return Err(NotFound);
      }
      db.devices := db.devices[d := db.devices[d].(revoked := true)];
      db.pairings := map p | p in db.pairings ::
        var row := db.pairings[p];
        if row.user == user && (row.mobile == d || row.desktop == d) && row.status != Revoked then row.(status := Revoked) else row;
      assert db.pairings == CascadeRevoke(old(db.pairings), d, user);
      return Ok(());
    }
  }

  class PairingRepo {
    const db: Database

    constructor (db: Database)
      ensures this.db == db
    {
      this.db := db;
    }

    method DeviceForUser(d: DeviceId, user: UserId) returns (r: Option<Kind>)
      ensures r == if OwnsDevice(db.View(), d, user) then Some(db.devices[d].kind) else None
    {
      if d in db.devices && db.devices[d].user == user && !db.devices[d].revoked {
        return Some(db.devices[d].kind);
      }
      return None;
    }

    method UpsertActivePairing(user: UserId, mobile: DeviceId, desktop: DeviceId,
                               id: PairingId) returns (r: Result<PairingId, Failure>)
      requires Consistent(db.View())
      modifies db
      ensures (db.View(), r) == M.UpsertActivePairing(old(db.View()), user, mobile, desktop, id)
    {
      if (mobile, desktop) in db.byPair {
        var p := db.byPair[(mobile, desktop)];
        db.pairings := db.pairings[p := db.pairings[p].(status := Active)];
        return Ok(p);
      }
      if id in db.pairings {
        return Err(StorageFailure);
      }
      db.pairings := db.pairings[id := Pairing(user, mobile, desktop, Active)];
      db.byPair := db.byPair[(mobile, desktop) := id];
      return Ok(id);
    }

    method RevokePairing(p: PairingId, user: UserId) returns (r: Result<(), Failure>)
      modifies db
      ensures (db.View(), r) == M.RevokePairing(old(db.View()), user, p)
    {
      if p in db.pairings && db.pairings[p].user == user && db.pairings[p].status != Revoked {
        db.pairings := db.pairings[p := db.pairings[p].(status := Revoked)];
        return Ok(());
      }
      return Err(NotFound);
    }
  }

  class SessionRepo {
    const db: Database

    constructor (db: Database)
      ensures this.db == db
    {
      this.db := db;
    }

    method PairingForUser(p: PairingId, user: UserId) returns (r: Option<Pairing>)
      ensures r == if p in db.pairings && db.pairings[p].user == user then Some(db.pairings[p]) else None
    {
      if p in db.pairings && db.pairings[p].user == user {
        return Some(db.pairings[p]);
      }
      return None;
    }

    method Create(s: Session, id: SessionId) returns (r: Result<SessionId, Failure>)
      modifies db
      ensures r == if id in old(db.sessions) then Err(StorageFailure) else Ok(id)
      ensures db.View() == if r.Err? then old(db.View())
                           else old(db.View()).(sessions := old(db.sessions)[id := s], started := old(db.started) + [id])
    {
      if id in db.sessions {
        return Err(StorageFailure);
      }
      db.sessions := db.sessions[id := s];
      db.started := db.started + [id];
      return Ok(id);
    }

    /** Scan the sessions from the newest and keep the first `limit` the device's agent should answer. */
    method PendingSessionsForDevice(user: UserId, desktop: DeviceId, limit: int) returns (found: seq<SessionId>)
      requires Consistent(db.View())
      ensures found == PendingAmong(db.View(), user, desktop, |db.started|, if limit <= 0 || limit > 50 then 10 else limit)
    {
      var most: nat := if limit <= 0 || limit > 50 then 10 else limit;
      found := [];
      var n := |db.started|;
      while n > 0 && |found| < most
        invariant 0 <= n <= |db.started| && |found| <= most
        invariant PendingAmong(db.View(), user, desktop, |db.started|, most)
               == found + PendingAmong(db.View(), user, desktop, n, most - |found|)
      {
        n := n - 1;
        var s := db.sessions[db.started[n]];
        if s.user == user && s.status == Connecting && db.pairings[s.pairing].desktop == desktop {
          found := found + [db.started[n]];
        }
      }
    }

    /** A session that is terminal already is returned as it stands. */
    method EndSession(s: SessionId, user: UserId) returns (r: Option<Session>)
      modifies db
      ensures (db.View(), if r.Some? then Ok(r.value) else Err(NotFound)) == M.EndSession(old(db.View()), user, s)
    {
      if s in db.sessions && db.sessions[s].user == user && !Terminal(db.sessions[s].status) {
        db.sessions := db.sessions[s := db.sessions[s].(status := Ended)];
        return Some(db.sessions[s]);
      }
      if s in db.sessions && db.sessions[s].user == user {
        return Some(db.sessions[s]);
      }
      return None;
    }
  }

  class RedisStore {
    var clock: nat
    var challenges: map<ChallengeId, Entry<Challenge>>
    var attempts: map<ChallengeId, Entry<nat>>

    ghost function View(): Store
      reads this
    {
      Store(clock, challenges, attempts)
    }

    constructor ()
      ensures View() == EMPTY_STORE
    {
      clock, challenges, attempts := 0, map[], map[];
    }

    method Save(id: ChallengeId, ch: Challenge, ttl: nat)
      modifies this
      ensures View() == M.Save(old(View()), id, ch, ttl)
    {
      challenges := challenges[id := Entry(ch, if ttl == 0 then None else Some(clock + ttl))];
      attempts := attempts - {id};
    }

    method Get(id: ChallengeId) returns (r: Option<Challenge>)
      ensures r == if id in challenges then Some(challenges[id].value) else None
    {
      if id in challenges {
        return Some(challenges[id].value);
      }
      return None;
    }

    /** INCR makes a counter without an expiry; EXPIRE then gives it the seconds TTL answers, if any. */
    method RecordFailedAttempt(id: ChallengeId) returns (n: nat)
      modifies this
      ensures (View(), n) == M.RecordFailedAttempt(old(View()), id)
    {
      if id in attempts {
        n := attempts[id].value + 1;
        attempts := attempts[id := attempts[id].(value := n)];
      } else {
        n := 1;
        attempts := attempts[id := Entry(1, None)];
      }
      var ttl := SecondsLeft(challenges, id, clock);
      if ttl > 0 {
        attempts := attempts[id := attempts[id].(expiry := Some(clock + 1000 * ttl))];
      }
      assert attempts == M.RecordFailedAttempt(old(View()), id).0.attempts;
    }

    method Consume(id: ChallengeId)
      modifies this
      ensures View() == M.Consume(old(View()), id)
    {
      challenges, attempts := challenges - {id}, attempts - {id};
    }
  }

  class PairingService {
    const db: Database
    const repo: PairingRepo
    const store: RedisStore
    const codeTtl: nat
    const maxAttempts: nat
    ghost var history: State

    ghost predicate Valid() {
      repo.db == db
    }

    ghost function View(): State
      reads this, db, store
    {
      history.(t := db.View(), s := store.View())
    }

    /** Times to live are in milliseconds. */
    constructor (db: Database, store: RedisStore, configuredTtl: int, configuredAttempts: int)
      ensures Valid() && this.db == db && this.store == store
      ensures codeTtl == (if configuredTtl <= 0 then 300_000 else configuredTtl) > 0
      ensures maxAttempts == EffectiveMaxAttempts(configuredAttempts)
      ensures View() == State(db.View(), store.View(), {}, map[], [])
    {
      this.db, this.store := db, store;
      repo := new PairingRepo(db);
      codeTtl := if configuredTtl <= 0 then 300_000 else configuredTtl;
      maxAttempts := EffectiveMaxAttempts(configuredAttempts);
      history := INIT;
    }

    method Initiate(user: UserId, desktop: DeviceId, code: string, id: ChallengeId, now: nat)
      returns (r: Result<ChallengeId, Failure>)
      requires Valid()
      modifies this`history, store
      ensures (View(), r) == M.Initiate(old(View()), user, desktop, code, id, now, codeTtl)
    {
      if Blank(desktop) {
        return Err(InvalidInput);
      }
      var kind := repo.DeviceForUser(desktop, user);
      if kind.None? {
        return Err(NotFound);
      }
      if kind.value != Desktop {
        return Err(InvalidInput);
      }
      store.Save(id, Challenge(user, desktop, Sha256(code), now + codeTtl), codeTtl);
      history := history.(issued := history.issued + {id});
      return Ok(id);
    }

    /** Count a wrong guess and burn the challenge at the limit. */
    method Reject(id: ChallengeId)
      modifies store
      ensures store.View() == WrongGuess(old(store.View()), id, maxAttempts)
    {
      var attempts := store.RecordFailedAttempt(id);
      if attempts >= maxAttempts {
        store.Consume(id);
      }
    }

    method Confirm(user: UserId, id: ChallengeId, code: string, mobile: DeviceId, now: nat,
                   pairing: PairingId) returns (r: Result<PairingId, Failure>)
      requires Valid() && Consistent(db.View())
      modifies this`history, store, db
      ensures (View(), r) == M.Confirm(old(View()), maxAttempts, user, id, code, mobile, now, pairing)
    {
      if Blank(id) || Blank(code) || Blank(mobile) {
        return Err(InvalidInput);
      }
      var found := store.Get(id);
      if found.None? {
        return Err(InvalidCode);
      }
      var ch := found.value;
      if ch.user != user {
        return Err(InvalidCode);
      }
      if now > ch.expiresAt {
        store.Consume(id);
        return Err(InvalidCode);
      }
      if Sha256(code) != ch.codeHash {
        history := history.(wrong := history.wrong[id := WrongCodes(history, id) + 1]);
        Reject(id);
        return Err(InvalidCode);
      }
      var kind := repo.DeviceForUser(mobile, user);
      if kind.None? {
        return Err(NotFound);
      }
      if kind.value != Mobile {
        return Err(InvalidInput);
      }
      r := repo.UpsertActivePairing(user, mobile, ch.desktop, pairing);
      if r.Ok? {
        store.Consume(id);
        history := history.(confirmed := history.confirmed + [id]);
      }
    }
  }

  class SessionService {
    const db: Database
    const repo: SessionRepo

    ghost predicate Valid() {
      repo.db == db
    }

    constructor (db: Database)
      ensures Valid() && this.db == db
    {
      this.db := db;
      repo := new SessionRepo(db);
    }

    method CreateSession(user: UserId, p: PairingId, id: SessionId) returns (r: Result<Ticket, Failure>)
      requires Valid()
      modifies db
      ensures (db.View(), r) == M.CreateSession(old(db.View()), user, p, id)
    {
      if p == "" {
        return Err(InvalidInput);
      }
      var pairing := repo.PairingForUser(p, user);
      if pairing.None? {
        return Err(NotFound);
      }
      if pairing.value.status != Active {
        return Err(NotActive);
      }
      var session := repo.Create(Session(p, user, Connecting), id);
      if session.Err? {
        return Err(session.error);
      }
      var ticket := Ticket(id, user, Protocol.Controller);
      db.tickets := db.tickets + [ticket];
      return Ok(ticket);
    }

    /** One fresh agent ticket per pending session. */
    method PendingForDevice(user: UserId, desktop: DeviceId) returns (r: Result<seq<Ticket>, Failure>)
      requires Valid() && Consistent(db.View())
      modifies db
      ensures (db.View(), r) == M.PendingForDevice(old(db.View()), user, desktop)
    {
      if desktop == "" {
        return Err(InvalidInput);
      }
      var sessions := repo.PendingSessionsForDevice(user, desktop, 10);
      var out: seq<Ticket> := [];
      for i := 0 to |sessions|
        invariant out == AgentTickets(user, sessions[..i])
        invariant db.View() == old(db.View())
      {
        out := out + [Ticket(sessions[i], user, Protocol.Agent)];
      }
      assert sessions[..|sessions|] == sessions;
      db.tickets := db.tickets + out;
      return Ok(out);
    }

    method EndSession(user: UserId, s: SessionId) returns (r: Result<Session, Failure>)
      requires Valid()
      modifies db
      ensures (db.View(), r) == M.EndSession(old(db.View()), user, s)
    {
      var ended := repo.EndSession(s, user);
      if ended.None? {
        return Err(NotFound);
      }
      return Ok(ended.value);
    }
  }
}
