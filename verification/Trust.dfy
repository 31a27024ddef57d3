/**
 Devices, pairings, pairing challenges and sessions as one state: the database
 tables of three services and the challenge store, with each service call one
 step. UNIQUE constraints are the indexes the database keeps for them.
 */
module Trust {
  import opened Basics
  import Protocol

  type UserId = string
  type DeviceId = string
  type PublicKey = string
  type PairingId = string
  type ChallengeId = string
  type SessionId = string

  datatype Kind = Desktop | Mobile

  datatype Device = Device(user: UserId, kind: Kind, key: PublicKey, revoked: bool)

  datatype PairingStatus = Active | Revoked

  datatype Pairing = Pairing(user: UserId, mobile: DeviceId, desktop: DeviceId, status: PairingStatus)

  datatype SessionStatus = Initiating | Connecting | InProgress | Ended | Failed

  datatype Session = Session(pairing: PairingId, user: UserId, status: SessionStatus)

  /** Authorises one user to join one session in one role. */
  datatype Ticket = Ticket(session: SessionId, user: UserId, role: Protocol.Role)

  /** `byKey` and `byPair` are the unique indexes on devices and pairings; `started` lists sessions oldest first. */
  datatype Tables = Tables(
    devices: map<DeviceId, Device>,
    byKey: map<PublicKey, DeviceId>,
    pairings: map<PairingId, Pairing>,
    byPair: map<(DeviceId, DeviceId), PairingId>,
    sessions: map<SessionId, Session>,
    started: seq<SessionId>,
    tickets: seq<Ticket>)

  const EMPTY_TABLES := Tables(map[], map[], map[], map[], map[], [], [])

  /** What the code relies on the database for: index entries name rows, and every started session is a row. */
  ghost predicate Consistent(t: Tables) {
    && (forall k :: k in t.byKey ==> t.byKey[k] in t.devices)
    && (forall p :: p in t.byPair ==> t.byPair[p] in t.pairings)
    && (forall i :: 0 <= i < |t.started| ==> t.started[i] in t.sessions)
    && (forall s :: s in t.sessions ==> t.sessions[s].pairing in t.pairings)
  }

  datatype Failure =
    | InvalidInput
    | NotFound
    | PublicKeyTaken
    | InvalidCode
    | NotActive
    | StorageFailure

  // ---------- devices ----------

  /** Insert, or update in place when the same user registers the key again; another user's key is left alone. */
  function Register(t: Tables, user: UserId, kind: Kind, key: PublicKey, id: DeviceId): (Tables, Result<DeviceId, Failure>)
    requires Consistent(t)
  {
    if key in t.byKey then
      var d := t.byKey[key];
      if t.devices[d].user != user then (t, Err(PublicKeyTaken))
      else (t.(devices := t.devices[d := t.devices[d].(kind := kind, revoked := false)]), Ok(d))
    else if id in t.devices then (t, Err(StorageFailure))
    else (t.(devices := t.devices[id := Device(user, kind, key, false)], byKey := t.byKey[key := id]), Ok(id))
  }

  /** An unrevoked device owned by the user. */
  predicate OwnsDevice(t: Tables, d: DeviceId, user: UserId) {
    d in t.devices && t.devices[d].user == user && !t.devices[d].revoked
  }

  function CascadeRevoke(pairings: map<PairingId, Pairing>, d: DeviceId, user: UserId): map<PairingId, Pairing> {
    map p | p in pairings ::
      if pairings[p].user == user && (pairings[p].mobile == d || pairings[p].desktop == d)
      then pairings[p].(status := Revoked) else pairings[p]
  }

  function RevokeDevice(t: Tables, user: UserId, d: DeviceId): (Tables, Result<(), Failure>) {
    if !OwnsDevice(t, d, user) then (t, Err(NotFound))
    else (t.(devices := t.devices[d := t.devices[d].(revoked := true)], pairings := CascadeRevoke(t.pairings, d, user)), Ok(()))
  }

  // ---------- pairings ----------

  /** Create the pairing of a device pair, or reactivate the row the pair already has. */
  function UpsertActivePairing(t: Tables, user: UserId, mobile: DeviceId, desktop: DeviceId,
                               id: PairingId): (Tables, Result<PairingId, Failure>)
    requires Consistent(t)
  {
    if (mobile, desktop) in t.byPair then
      var p := t.byPair[(mobile, desktop)];
      (t.(pairings := t.pairings[p := t.pairings[p].(status := Active)]), Ok(p))
    else if id in t.pairings then (t, Err(StorageFailure))
    else
      (t.(pairings := t.pairings[id := Pairing(user, mobile, desktop, Active)], byPair := t.byPair[(mobile, desktop) := id]), Ok(id))
  }

  function RevokePairing(t: Tables, user: UserId, p: PairingId): (Tables, Result<(), Failure>) {
    if p !in t.pairings || t.pairings[p].user != user || t.pairings[p].status == Revoked then (t, Err(NotFound))
    else (t.(pairings := t.pairings[p := t.pairings[p].(status := Revoked)]), Ok(()))
  }

  // ---------- sessions ----------

  /** A session of the user's own active pairing, with a ticket for the controller. */
  function CreateSession(t: Tables, user: UserId, p: PairingId, id: SessionId): (Tables, Result<Ticket, Failure>) {
    if p == "" then (t, Err(InvalidInput))
    else if p !in t.pairings || t.pairings[p].user != user then (t, Err(NotFound))
    else if t.pairings[p].status != Active then (t, Err(NotActive))
    else if id in t.sessions then (t, Err(StorageFailure))
    else
      var ticket := Ticket(id, user, Protocol.Controller);
      (t.(sessions := t.sessions[id := Session(p, user, Connecting)], started := t.started + [id], tickets := t.tickets + [ticket]),
       Ok(ticket))
  }

  const PENDING_LIMIT := 10

  /** Whether a device's agent should answer session `s`. */
  predicate Answerable(t: Tables, user: UserId, desktop: DeviceId, s: SessionId)
    requires s in t.sessions && t.sessions[s].pairing in t.pairings
  {
    t.sessions[s].user == user && t.sessions[s].status == Connecting && t.pairings[t.sessions[s].pairing].desktop == desktop
  }

  /** The answerable ones among the first `n` sessions started, newest first, at most `limit`. */
  function PendingAmong(t: Tables, user: UserId, desktop: DeviceId, n: nat, limit: nat): seq<SessionId>
    requires Consistent(t) && n <= |t.started|
  {
    if n == 0 || limit == 0 then []
    else if Answerable(t, user, desktop, t.started[n - 1]) then [t.started[n - 1]] + PendingAmong(t, user, desktop, n - 1, limit - 1)
    else PendingAmong(t, user, desktop, n - 1, limit)
  }

  function AgentTickets(user: UserId, sessions: seq<SessionId>): seq<Ticket> {
    seq(|sessions|, i requires 0 <= i < |sessions| => Ticket(sessions[i], user, Protocol.Agent))
  }

  /** The sessions waiting for the agent of a device, each with a ticket for it. */
  function PendingForDevice(t: Tables, user: UserId, desktop: DeviceId): (Tables, Result<seq<Ticket>, Failure>)
    requires Consistent(t)
  {
    if desktop == "" then (t, Err(InvalidInput)) else
    var tickets := AgentTickets(user, PendingAmong(t, user, desktop, |t.started|, PENDING_LIMIT));
    (t.(tickets := t.tickets + tickets), Ok(tickets))
  }

  predicate Terminal(status: SessionStatus) {
    status == Ended || status == Failed
  }

  /** Ending a session that ended or failed changes nothing and is no error. */
  function EndSession(t: Tables, user: UserId, s: SessionId): (Tables, Result<Session, Failure>) {
    if s !in t.sessions || t.sessions[s].user != user then (t, Err(NotFound))
    else if Terminal(t.sessions[s].status) then (t, Ok(t.sessions[s]))
    else
      var ended := t.sessions[s].(status := Ended);
      (t.(sessions := t.sessions[s := ended]), Ok(ended))
  }

  /** Whatever else writes the status column. */
  function MoveStatus(t: Tables, s: SessionId, status: SessionStatus): Tables {
    if s !in t.sessions then t else t.(sessions := t.sessions[s := t.sessions[s].(status := status)])
  }

  // ---------- challenges ----------

  /** The digest a pairing code is stored as. */
  datatype Digest = Sha256(code: string)

  datatype Challenge = Challenge(user: UserId, desktop: DeviceId, codeHash: Digest, expiresAt: nat)

  /** A key's value with the time it expires, if it does. */
  datatype Entry<T> = Entry(value: T, expiry: Option<nat>)

  /** The store's clock, in milliseconds, and its two kinds of keys. */
  datatype Store = Store(clock: nat, challenges: map<ChallengeId, Entry<Challenge>>, attempts: map<ChallengeId, Entry<nat>>)

  const EMPTY_STORE := Store(0, map[], map[])

  /** A key set with no time to live does not expire. */
  function Save(s: Store, id: ChallengeId, ch: Challenge, ttl: nat): Store {
    s.(challenges := s.challenges[id := Entry(ch, if ttl == 0 then None else Some(s.clock + ttl))], attempts := s.attempts - {id})
  }

  /** What Redis answers to TTL: the time left in seconds, to the nearest; nothing for a key that is gone or never expires. */
  function SecondsLeft<T>(keys: map<ChallengeId, Entry<T>>, id: ChallengeId, now: nat): nat {
    if id !in keys || keys[id].expiry.None? || keys[id].expiry.value < now then 0
    else (keys[id].expiry.value - now + 500) / 1000
  }

  /** Increment the counter, keeping the expiry it has; then let it live as many seconds as TTL says the challenge has left. */
  function RecordFailedAttempt(s: Store, id: ChallengeId): (Store, nat) {
    var n := (if id in s.attempts then s.attempts[id].value else 0) + 1;
    var kept := if id in s.attempts then s.attempts[id].expiry else None;
    var ttl := SecondsLeft(s.challenges, id, s.clock);
    (s.(attempts := s.attempts[id := Entry(n, if ttl > 0 then Some(s.clock + 1000 * ttl) else kept)]), n)
  }

  function Consume(s: Store, id: ChallengeId): Store {
    s.(challenges := s.challenges - {id}, attempts := s.attempts - {id})
  }

  predicate Lives<T>(e: Entry<T>, now: nat) {
    e.expiry.None? || now <= e.expiry.value
  }

  /** Time passes, and expired keys go. */
  function Tick(s: Store, dt: nat): Store {
    var now := s.clock + dt;
    Store(now, map k | k in s.challenges && Lives(s.challenges[k], now) :: s.challenges[k],
               map k | k in s.attempts && Lives(s.attempts[k], now) :: s.attempts[k])
  }

  /**
   Everything, with the history of challenges: ids ever issued, how many wrong codes each was rejected for, and the
   challenges confirmed.
   */
  datatype State = State(t: Tables, s: Store, issued: set<ChallengeId>, wrong: map<ChallengeId, nat>, confirmed: seq<ChallengeId>)

  const INIT := State(EMPTY_TABLES, EMPTY_STORE, {}, map[], [])

  function WrongCodes(st: State, id: ChallengeId): nat {
    if id in st.wrong then st.wrong[id] else 0
  }

  /** The service's default when the configured limit is not positive. */
  function EffectiveMaxAttempts(configured: int): (n: nat)
    ensures n >= 1
  {
    if configured <= 0 then 5 else configured
  }

  predicate Blank(s: string) {
    forall i :: 0 <= i < |s| ==> s[i] in {' ', '\t', '\n', '\r'}
  }

  /** Mint a challenge for one of the user's desktops, under an id never used before. */
  function Initiate(st: State, user: UserId, desktop: DeviceId, code: string, id: ChallengeId, now: nat,
                    ttl: nat): (State, Result<ChallengeId, Failure>) {
    if Blank(desktop) then (st, Err(InvalidInput))
    else if !OwnsDevice(st.t, desktop, user) then (st, Err(NotFound))
    else if st.t.devices[desktop].kind != Desktop then (st, Err(InvalidInput))
    else (st.(s := Save(st.s, id, Challenge(user, desktop, Sha256(code), now + ttl), ttl), issued := st.issued + {id}), Ok(id))
  }

  /** A wrong guess: count it, and burn the challenge when the count reaches the limit. */
  function WrongGuess(s: Store, id: ChallengeId, maxAttempts: nat): Store {
    var (counted, n) := RecordFailedAttempt(s, id);
    if n >= maxAttempts then Consume(counted, id) else counted
  }

  /** Validate a challenge and pair the devices. `now` is the service's clock, `pairing` the id of a row it may insert. */
  function Confirm(st: State, maxAttempts: nat, user: UserId, id: ChallengeId, code: string, mobile: DeviceId,
                   now: nat, pairing: PairingId)
    : (State, Result<PairingId, Failure>)
    requires Consistent(st.t)
  {
    if Blank(id) || Blank(code) || Blank(mobile) then (st, Err(InvalidInput))
    else if id !in st.s.challenges then (st, Err(InvalidCode))
    else
      var ch := st.s.challenges[id].value;
      if ch.user != user then (st, Err(InvalidCode))
      else if now > ch.expiresAt then (st.(s := Consume(st.s, id)), Err(InvalidCode))
      else if Sha256(code) != ch.codeHash then
        (st.(s := WrongGuess(st.s, id, maxAttempts), wrong := st.wrong[id := WrongCodes(st, id) + 1]), Err(InvalidCode))
      else if !OwnsDevice(st.t, mobile, user) then (st, Err(NotFound))
      else if st.t.devices[mobile].kind != Mobile then (st, Err(InvalidInput))
      else
        match UpsertActivePairing(st.t, user, mobile, ch.desktop, pairing)
        case (_, Err(e)) => (st, Err(e))
        case (t, Ok(p)) => (st.(t := t, s := Consume(st.s, id), confirmed := st.confirmed + [id]), Ok(p))
  }

  // ---------- runs ----------

  datatype Call =
    | RegisterDevice(user: UserId, kind: Kind, key: PublicKey, device: DeviceId)
    | RevokeTheDevice(user: UserId, device: DeviceId)
    | InitiatePairing(user: UserId, device: DeviceId, code: string, challenge: ChallengeId, now: nat, ttl: nat)
    | ConfirmPairing(user: UserId, challenge: ChallengeId, code: string, device: DeviceId, now: nat, pairing: PairingId)
    | RevokeThePairing(user: UserId, pairing: PairingId)
    | StartSession(user: UserId, pairing: PairingId, session: SessionId)
    | PollSessions(user: UserId, device: DeviceId)
    | FinishSession(user: UserId, session: SessionId)
    | StatusMoves(session: SessionId, status: SessionStatus)
    | TimePasses(dt: nat)

  /** One call. Challenge ids are fresh UUIDs: a call that would reuse one does not happen. */
  function Step(st: State, maxAttempts: nat, c: Call): State
    requires Consistent(st.t)
  {
    match c
    case RegisterDevice(user, kind, key, id) => st.(t := Register(st.t, user, kind, key, id).0)
    case RevokeTheDevice(user, d) => st.(t := RevokeDevice(st.t, user, d).0)
    case InitiatePairing(user, d, code, id, now, ttl) => if id in st.issued then st else Initiate(st, user, d, code, id, now, ttl).0
    case ConfirmPairing(user, id, code, d, now, p) => Confirm(st, maxAttempts, user, id, code, d, now, p).0
    case RevokeThePairing(user, p) => st.(t := RevokePairing(st.t, user, p).0)
    case StartSession(user, p, id) => st.(t := CreateSession(st.t, user, p, id).0)
    case PollSessions(user, d) => st.(t := PendingForDevice(st.t, user, d).0)
    case FinishSession(user, s) => st.(t := EndSession(st.t, user, s).0)
    case StatusMoves(s, status) => st.(t := MoveStatus(st.t, s, status))
    case TimePasses(dt) => st.(s := Tick(st.s, dt))
  }
}
