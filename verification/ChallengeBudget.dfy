/**
 How many guesses a pairing challenge allows, over every run of service calls. Redis tells remaining time in whole
 seconds, so the counter of wrong guesses may expire up to half a second before the challenge and then start again.
 */
module ChallengeBudget {
  import opened Basics
  import opened Trust
  import opened TrustInvariants

  /** What the store has counted for a challenge. */
  function Counted(s: Store, id: ChallengeId): nat {
    if id in s.attempts then s.attempts[id].value else 0
  }

  /** The challenge expires within half a second: TTL answers nothing any more. */
  predicate Late(s: Store, id: ChallengeId) {
    id in s.challenges && s.challenges[id].expiry.Some? && s.challenges[id].expiry.value < s.clock + 500
  }

  /** A counter that expires never started again, and expires less than half a second before its challenge, or after it. */
  ghost predicate CounterSound(st: State, id: ChallengeId)
    requires id in st.s.challenges
  {
    id in st.s.attempts ==>
      var counter, end := st.s.attempts[id], st.s.challenges[id].expiry;
      && counter.value >= 1
      && (counter.expiry.None? ==> end.None? || Late(st.s, id))
      && (counter.expiry.Some? ==> end.Some? && end.value < counter.expiry.value + 500 && counter.value == WrongCodes(st, id))
  }

  /** While a challenge is pending its counter is below the limit, and misses rejections only if the challenge is late. */
  ghost predicate PendingSound(st: State, maxAttempts: nat, id: ChallengeId) {
    id in st.s.challenges ==>
      && id in st.issued && id !in st.confirmed
      && (st.s.challenges[id].expiry.Some? ==> st.s.clock <= st.s.challenges[id].expiry.value)
      && Counted(st.s, id) < maxAttempts
      && Counted(st.s, id) <= WrongCodes(st, id) < Counted(st.s, id) + maxAttempts
      && (WrongCodes(st, id) != Counted(st.s, id) ==> Late(st.s, id))
      && CounterSound(st, id)
  }

  ghost predicate PastSound(st: State, maxAttempts: nat, id: ChallengeId) {
    && WrongCodes(st, id) < 2 * maxAttempts
    && (id !in st.issued ==> WrongCodes(st, id) == 0 && id !in st.confirmed)
  }

  ghost predicate BudgetInv(st: State, maxAttempts: nat) {
    && (forall id {:trigger PendingSound(st, maxAttempts, id)} :: PendingSound(st, maxAttempts, id))
    && (forall id {:trigger PastSound(st, maxAttempts, id)} :: PastSound(st, maxAttempts, id))
    && (forall i, j :: 0 <= i < j < |st.confirmed| ==> st.confirmed[i] != st.confirmed[j])
  }

  // ---------- every call keeps it ----------

  /** A call that touches one challenge, in no time. */
  ghost predicate OthersSame(st: State, st': State, id: ChallengeId) {
    st'.s.clock == st.s.clock && forall k :: k != id ==>
      && (k in st'.s.challenges <==> k in st.s.challenges) && (k in st.s.challenges ==> st'.s.challenges[k] == st.s.challenges[k])
      && (k in st'.s.attempts <==> k in st.s.attempts) && (k in st.s.attempts ==> st'.s.attempts[k] == st.s.attempts[k])
      && WrongCodes(st', k) == WrongCodes(st, k) && (k in st'.issued <==> k in st.issued) && (k in st'.confirmed <==> k in st.confirmed)
  }

  lemma OtherSound(st: State, st': State, maxAttempts: nat, id: ChallengeId, k: ChallengeId)
    requires BudgetInv(st, maxAttempts) && OthersSame(st, st', id) && k != id
    ensures PendingSound(st', maxAttempts, k) && PastSound(st', maxAttempts, k)
  {
    assert PendingSound(st, maxAttempts, k) && PastSound(st, maxAttempts, k);
  }

  lemma OneSound(st: State, st': State, maxAttempts: nat, id: ChallengeId)
    requires BudgetInv(st, maxAttempts) && OthersSame(st, st', id)
    requires PendingSound(st', maxAttempts, id) && PastSound(st', maxAttempts, id)
    requires forall i, j :: 0 <= i < j < |st'.confirmed| ==> st'.confirmed[i] != st'.confirmed[j]
    ensures BudgetInv(st', maxAttempts)
  {
    forall k ensures PendingSound(st', maxAttempts, k) && PastSound(st', maxAttempts, k) {
      if k != id { OtherSound(st, st', maxAttempts, id, k); }
    }
  }

  lemma InitiateKeeps(st: State, maxAttempts: nat, user: UserId, desktop: DeviceId, code: string, id: ChallengeId, now: nat, ttl: nat)
    requires BudgetInv(st, maxAttempts) && maxAttempts >= 1 && id !in st.issued
    ensures BudgetInv(Initiate(st, user, desktop, code, id, now, ttl).0, maxAttempts)
  {
    assert PendingSound(st, maxAttempts, id) && PastSound(st, maxAttempts, id);
    var st' := Initiate(st, user, desktop, code, id, now, ttl).0;
    if st' != st { OneSound(st, st', maxAttempts, id); }
  }

  /** The state after a wrong guess at a pending challenge. */
  function Guessed(st: State, maxAttempts: nat, id: ChallengeId): State {
    st.(s := WrongGuess(st.s, id, maxAttempts), wrong := st.wrong[id := WrongCodes(st, id) + 1])
  }

  /** Counting: the expiry the counter gets is close to its challenge's, or the counter never expires. */
  lemma CountSound(st: State, maxAttempts: nat, id: ChallengeId)
    requires PendingSound(st, maxAttempts, id) && id in st.s.challenges && maxAttempts >= 1
    requires Counted(st.s, id) + 1 < maxAttempts
    ensures PendingSound(Guessed(st, maxAttempts, id), maxAttempts, id)
    ensures Counted(Guessed(st, maxAttempts, id).s, id) == Counted(st.s, id) + 1
    ensures Guessed(st, maxAttempts, id).s == RecordFailedAttempt(st.s, id).0
  {
  }

  lemma GuessKeeps(st: State, maxAttempts: nat, id: ChallengeId)
    requires BudgetInv(st, maxAttempts) && id in st.s.challenges && maxAttempts >= 1
    ensures BudgetInv(Guessed(st, maxAttempts, id), maxAttempts)
  {
    assert PendingSound(st, maxAttempts, id) && PastSound(st, maxAttempts, id);
    if Counted(st.s, id) + 1 < maxAttempts { CountSound(st, maxAttempts, id); }
    OneSound(st, Guessed(st, maxAttempts, id), maxAttempts, id);
  }

  lemma ConsumeKeeps(st: State, maxAttempts: nat, id: ChallengeId, t: Tables, confirmed: seq<ChallengeId>)
    requires BudgetInv(st, maxAttempts) && id in st.s.challenges
    requires confirmed == st.confirmed || confirmed == st.confirmed + [id]
    ensures BudgetInv(st.(t := t, s := Consume(st.s, id), confirmed := confirmed), maxAttempts)
  {
    assert PendingSound(st, maxAttempts, id) && PastSound(st, maxAttempts, id);
    OneSound(st, st.(t := t, s := Consume(st.s, id), confirmed := confirmed), maxAttempts, id);
  }

  /** A confirmation does one of these to the challenges, or nothing. */
  lemma ConfirmCases(st: State, maxAttempts: nat, user: UserId, id: ChallengeId, code: string, mobile: DeviceId, now: nat,
                     pairing: PairingId)
    requires Consistent(st.t)
    ensures var st' := Confirm(st, maxAttempts, user, id, code, mobile, now, pairing).0;
      || st' == st
      || (id in st.s.challenges && st' == Guessed(st, maxAttempts, id))
      || (id in st.s.challenges && st' == st.(s := Consume(st.s, id)))
      || (id in st.s.challenges && st' == st.(t := st'.t, s := Consume(st.s, id), confirmed := st.confirmed + [id]))
  {
  }

  lemma ConfirmKeeps(st: State, maxAttempts: nat, user: UserId, id: ChallengeId, code: string, mobile: DeviceId, now: nat,
                     pairing: PairingId)
    requires BudgetInv(st, maxAttempts) && Consistent(st.t) && maxAttempts >= 1
    ensures BudgetInv(Confirm(st, maxAttempts, user, id, code, mobile, now, pairing).0, maxAttempts)
  {
    ConfirmCases(st, maxAttempts, user, id, code, mobile, now, pairing);
    var st' := Confirm(st, maxAttempts, user, id, code, mobile, now, pairing).0;
    if id in st.s.challenges {
      GuessKeeps(st, maxAttempts, id);
      ConsumeKeeps(st, maxAttempts, id, st.t, st.confirmed);
      ConsumeKeeps(st, maxAttempts, id, st'.t, st.confirmed + [id]);
      assert st.(t := st.t, s := Consume(st.s, id), confirmed := st.confirmed) == st.(s := Consume(st.s, id));
    }
  }

  lemma TickOne(st: State, maxAttempts: nat, dt: nat, id: ChallengeId)
    requires PendingSound(st, maxAttempts, id)
    ensures PendingSound(st.(s := Tick(st.s, dt)), maxAttempts, id)
  {
    var st' := st.(s := Tick(st.s, dt));
    if id in st'.s.challenges {
      assert id in st.s.challenges && st'.s.challenges[id] == st.s.challenges[id];
      if id in st.s.attempts && id !in st'.s.attempts { assert !Lives(st.s.attempts[id], st.s.clock + dt); }
    }
  }

  lemma TickKeeps(st: State, maxAttempts: nat, dt: nat)
    requires BudgetInv(st, maxAttempts)
    ensures BudgetInv(st.(s := Tick(st.s, dt)), maxAttempts)
  {
    var st' := st.(s := Tick(st.s, dt));
    forall k ensures PendingSound(st', maxAttempts, k) && PastSound(st', maxAttempts, k) {
      assert PendingSound(st, maxAttempts, k) && PastSound(st, maxAttempts, k);
      TickOne(st, maxAttempts, dt, k);
    }
  }

  /** Calls that do not touch challenges. */
  lemma TablesOnlyKeeps(st: State, maxAttempts: nat, t: Tables)
    requires BudgetInv(st, maxAttempts)
    ensures BudgetInv(st.(t := t), maxAttempts)
  {
    forall k ensures PendingSound(st.(t := t), maxAttempts, k) && PastSound(st.(t := t), maxAttempts, k) {
      assert PendingSound(st, maxAttempts, k) && PastSound(st, maxAttempts, k);
    }
  }

  lemma StepKeeps(st: State, maxAttempts: nat, c: Call)
    requires BudgetInv(st, maxAttempts) && Consistent(st.t) && maxAttempts >= 1
    ensures BudgetInv(Step(st, maxAttempts, c), maxAttempts)
  {
    match c
    case InitiatePairing(user, d, code, id, now, ttl) =>
      if id !in st.issued { InitiateKeeps(st, maxAttempts, user, d, code, id, now, ttl); }
    case ConfirmPairing(user, id, code, d, now, p) => ConfirmKeeps(st, maxAttempts, user, id, code, d, now, p);
    case TimePasses(dt) => TickKeeps(st, maxAttempts, dt);
    case _ => TablesOnlyKeeps(st, maxAttempts, Step(st, maxAttempts, c).t);
  }

  lemma {:induction false} RunKeeps(maxAttempts: nat, calls: seq<Call>)
    requires maxAttempts >= 1
    ensures BudgetInv(Run(maxAttempts, calls), maxAttempts)
  {
    if calls != [] {
      var last := |calls| - 1;
      RunKeeps(maxAttempts, calls[..last]);
      StepKeeps(Run(maxAttempts, calls[..last]), maxAttempts, calls[last]);
    }
  }

  // ---------- the budget ----------

  /**
   Over a whole run a challenge is rejected for a wrong code fewer than twice `maxAttempts` times and confirmed at most
   once. While it is pending its counter is below the limit, and until half a second before it expires the counter is
   exactly its rejections. Once confirmed, or rejected that often, it is gone.
   */
  lemma GuessBudget(maxAttempts: nat, calls: seq<Call>, id: ChallengeId)
    requires maxAttempts >= 1
    ensures var st := Run(maxAttempts, calls);
      && WrongCodes(st, id) <= 2 * maxAttempts - 1
      && (forall i, j :: 0 <= i < j < |st.confirmed| ==> !(st.confirmed[i] == id && st.confirmed[j] == id))
      && (id in st.s.challenges ==> Counted(st.s, id) < maxAttempts && Counted(st.s, id) <= WrongCodes(st, id))
      && (id in st.s.challenges && !Late(st.s, id) ==> WrongCodes(st, id) == Counted(st.s, id))
      && (id in st.confirmed || WrongCodes(st, id) == 2 * maxAttempts - 1 ==> id !in st.s.challenges)
  {
    RunKeeps(maxAttempts, calls);
    var st := Run(maxAttempts, calls);
    assert PendingSound(st, maxAttempts, id) && PastSound(st, maxAttempts, id);
  }

  /** A wrong guess the service counts: somebody presents another code for a pending challenge of theirs in time. */
  predicate Wrong(st: State, c: Call, id: ChallengeId) {
    && c.ConfirmPairing? && c.challenge == id && !Blank(id) && !Blank(c.code) && !Blank(c.device)
    && id in st.s.challenges && st.s.challenges[id].value.user == c.user && c.now <= st.s.challenges[id].value.expiresAt
    && st.s.challenges[id].value.codeHash != Sha256(c.code)
  }

  function Repeat(c: Call, k: nat): (calls: seq<Call>)
    ensures |calls| == k
  {
    if k == 0 then [] else Repeat(c, k - 1) + [c]
  }

  function Min(a: nat, b: nat): nat {
    if a < b then a else b
  }

  lemma WrongStep(st: State, maxAttempts: nat, c: Call, id: ChallengeId)
    requires Consistent(st.t) && Wrong(st, c, id)
    ensures Step(st, maxAttempts, c) == Guessed(st, maxAttempts, id)
  {
  }

  /** What repeating a wrong guess leaves of the challenge: it is counted on until the limit burns it. */
  ghost predicate GuessedOn(st: State, st': State, maxAttempts: nat, id: ChallengeId, k: nat)
    requires id in st.s.challenges && Counted(st.s, id) < maxAttempts
  {
    && st'.s.clock == st.s.clock
    && WrongCodes(st', id) == WrongCodes(st, id) + Min(k, maxAttempts - Counted(st.s, id))
    && (id in st'.s.challenges <==> Counted(st.s, id) + k < maxAttempts)
    && (id in st'.s.challenges ==> st'.s.challenges[id] == st.s.challenges[id] && Counted(st'.s, id) == Counted(st.s, id) + k)
    && (id in st'.s.challenges && k > 0 ==> id in st'.s.attempts)
    && (id in st'.s.challenges && k > 0 && SecondsLeft(st.s.challenges, id, st.s.clock) > 0 ==>
         st'.s.attempts[id].expiry == Some(st.s.clock + 1000 * SecondsLeft(st.s.challenges, id, st.s.clock)))
  }

  /** The state after `k` wrong guesses at `id`, of which those after it is burned change nothing. */
  ghost function Guessing(st: State, maxAttempts: nat, id: ChallengeId, k: nat): State {
    if k == 0 then st else
    var before := Guessing(st, maxAttempts, id, k - 1);
    if id in before.s.challenges then Guessed(before, maxAttempts, id) else before
  }

  lemma OneMoreGuess(st: State, before: State, maxAttempts: nat, id: ChallengeId, k: nat)
    requires id in st.s.challenges && Counted(st.s, id) < maxAttempts && GuessedOn(st, before, maxAttempts, id, k)
    ensures GuessedOn(st, if id in before.s.challenges then Guessed(before, maxAttempts, id) else before, maxAttempts, id, k + 1)
  {
  }

  lemma {:induction false} GuessingIs(st: State, maxAttempts: nat, id: ChallengeId, k: nat)
    requires id in st.s.challenges && Counted(st.s, id) < maxAttempts
    ensures GuessedOn(st, Guessing(st, maxAttempts, id, k), maxAttempts, id, k)
  {
    if k > 0 {
      GuessingIs(st, maxAttempts, id, k - 1);
      OneMoreGuess(st, Guessing(st, maxAttempts, id, k - 1), maxAttempts, id, k - 1);
    }
  }

  lemma GuessStep(st: State, before: State, maxAttempts: nat, c: Call, id: ChallengeId)
    requires Wrong(st, c, id) && Consistent(before.t)
    requires id in before.s.challenges ==> before.s.challenges[id] == st.s.challenges[id]
    ensures Step(before, maxAttempts, c) == if id in before.s.challenges then Guessed(before, maxAttempts, id) else before
  {
    if id in before.s.challenges { WrongStep(before, maxAttempts, c, id); }
  }

  lemma RepeatStep(maxAttempts: nat, calls: seq<Call>, c: Call, k: nat)
    requires k > 0
    ensures Run(maxAttempts, calls + Repeat(c, k)) == Step(Run(maxAttempts, calls + Repeat(c, k - 1)), maxAttempts, c)
  {
    assert calls + Repeat(c, k) == calls + Repeat(c, k - 1) + [c];
    RunStep(maxAttempts, calls + Repeat(c, k), calls + Repeat(c, k - 1), c);
  }

  lemma GuessedStep(st: State, maxAttempts: nat, c: Call, id: ChallengeId, k: nat)
    requires k > 0 && Wrong(st, c, id) && Counted(st.s, id) < maxAttempts && Consistent(Guessing(st, maxAttempts, id, k - 1).t)
    ensures Step(Guessing(st, maxAttempts, id, k - 1), maxAttempts, c) == Guessing(st, maxAttempts, id, k)
  {
    GuessingIs(st, maxAttempts, id, k - 1);
    GuessStep(st, Guessing(st, maxAttempts, id, k - 1), maxAttempts, c, id);
  }

  lemma {:induction false} RepeatRuns(maxAttempts: nat, calls: seq<Call>, st: State, c: Call, id: ChallengeId, k: nat)
    requires st == Run(maxAttempts, calls) && Wrong(st, c, id) && Counted(st.s, id) < maxAttempts
    ensures Run(maxAttempts, calls + Repeat(c, k)) == Guessing(st, maxAttempts, id, k)
  {
    if k == 0 {
      assert calls + Repeat(c, 0) == calls;
    } else {
      RepeatRuns(maxAttempts, calls, st, c, id, k - 1);
      RepeatStep(maxAttempts, calls, c, k);
      GuessedStep(st, maxAttempts, c, id, k);
    }
  }

  /** Guessing wrong any number of times at one moment. */
  lemma KeepGuessing(maxAttempts: nat, calls: seq<Call>, st: State, c: Call, id: ChallengeId, k: nat)
    requires maxAttempts >= 1 && st == Run(maxAttempts, calls) && Wrong(st, c, id) && Counted(st.s, id) < maxAttempts
    ensures GuessedOn(st, Run(maxAttempts, calls + Repeat(c, k)), maxAttempts, id, k)
  {
    RepeatRuns(maxAttempts, calls, st, c, id, k);
    GuessingIs(st, maxAttempts, id, k);
  }

  /** The rejections of `id` after guessing `k` times more. */
  function After(maxAttempts: nat, calls: seq<Call>, c: Call, id: ChallengeId, k: nat): nat {
    WrongCodes(Run(maxAttempts, calls + Repeat(c, k)), id)
  }

  lemma AfterIs(maxAttempts: nat, calls: seq<Call>, st: State, c: Call, id: ChallengeId, k: nat)
    requires maxAttempts >= 1 && st == Run(maxAttempts, calls) && Wrong(st, c, id)
    ensures Counted(st.s, id) < maxAttempts && Counted(st.s, id) <= WrongCodes(st, id)
    ensures After(maxAttempts, calls, c, id, k) == WrongCodes(st, id) + Min(k, maxAttempts - Counted(st.s, id))
  {
    GuessBudget(maxAttempts, calls, id);
    KeepGuessing(maxAttempts, calls, st, c, id, k);
  }

  /**
   Exactly when a pending challenge can be guessed at more often than the limit: when its counter has fallen short of its
   rejections, that is, has expired before it. Guessing on from there exceeds the limit, and otherwise never does.
   */
  lemma WithinBudgetIff(maxAttempts: nat, calls: seq<Call>, st: State, c: Call, id: ChallengeId)
    requires maxAttempts >= 1 && st == Run(maxAttempts, calls) && Wrong(st, c, id)
    ensures (forall k: nat :: After(maxAttempts, calls, c, id, k) <= maxAttempts) <==> Counted(st.s, id) == WrongCodes(st, id)
  {
    AfterIs(maxAttempts, calls, st, c, id, maxAttempts);
    if Counted(st.s, id) == WrongCodes(st, id) {
      forall k: nat ensures After(maxAttempts, calls, c, id, k) <= maxAttempts { AfterIs(maxAttempts, calls, st, c, id, k); }
    }
  }

  /**
   What configuring a limit means: a challenge not yet guessed at, guessed wrong `k` times in a row, is still pending exactly
   if `k` is below the limit configured, or below 5 when that is not positive.
   */
  lemma BurnedAtLimit(configured: int, calls: seq<Call>, c: Call, id: ChallengeId, k: nat)
    requires var st := Run(EffectiveMaxAttempts(configured), calls); Wrong(st, c, id) && id !in st.s.attempts
    ensures id in Run(EffectiveMaxAttempts(configured), calls + Repeat(c, k)).s.challenges <==> k < if configured >= 1 then configured else 5
  {
    var n := EffectiveMaxAttempts(configured);
    KeepGuessing(n, calls, Run(n, calls), c, id, k);
  }

  // ---------- when the counter falls short ----------

  /** Call `i` is a wrong guess at a challenge whose counter has expired: the store counts it as the first. */
  predicate Restarts(maxAttempts: nat, calls: seq<Call>, i: nat, id: ChallengeId) {
    i < |calls| && var st := Run(maxAttempts, calls[..i]);
    Wrong(st, calls[i], id) && id !in st.s.attempts && WrongCodes(st, id) > 0
  }

  ghost predicate EverRestarts(maxAttempts: nat, calls: seq<Call>, id: ChallengeId) {
    exists i: nat :: Restarts(maxAttempts, calls, i, id)
  }

  lemma RestartsInPrefix(maxAttempts: nat, calls: seq<Call>, n: nat, i: nat, id: ChallengeId)
    requires n <= |calls| && i < n
    ensures Restarts(maxAttempts, calls[..n], i, id) <==> Restarts(maxAttempts, calls, i, id)
  {
    assert calls[..n][..i] == calls[..i];
  }

  /** A call that is no wrong guess leaves a pending challenge's rejections alone, and at most lets its counter expire. */
  lemma OtherStep(st: State, maxAttempts: nat, c: Call, id: ChallengeId)
    requires Consistent(st.t) && !Wrong(st, c, id)
    ensures WrongCodes(Step(st, maxAttempts, c), id) == WrongCodes(st, id)
    ensures id in st.issued && id in Step(st, maxAttempts, c).s.challenges ==>
              id in st.s.challenges && (Counted(Step(st, maxAttempts, c).s, id) == Counted(st.s, id) || id !in Step(st, maxAttempts, c).s.attempts)
  {
  }

  /** Without a restart there are no more rejections than the limit, and a counter that exists has counted them all. */
  lemma {:induction false} NoRestartWithinLimit(maxAttempts: nat, calls: seq<Call>, id: ChallengeId)
    requires maxAttempts >= 1 && !EverRestarts(maxAttempts, calls, id)
    ensures WrongCodes(Run(maxAttempts, calls), id) <= maxAttempts
    ensures id in Run(maxAttempts, calls).s.challenges && id in Run(maxAttempts, calls).s.attempts ==>
              Counted(Run(maxAttempts, calls).s, id) == WrongCodes(Run(maxAttempts, calls), id)
    ensures id in Run(maxAttempts, calls).s.challenges ==> WrongCodes(Run(maxAttempts, calls), id) < maxAttempts
  {
    if calls != [] {
      var last := |calls| - 1;
      var before := calls[..last];
      forall i: nat ensures !Restarts(maxAttempts, before, i, id) {
        if i < last { RestartsInPrefix(maxAttempts, calls, last, i, id); }
      }
      NoRestartWithinLimit(maxAttempts, before, id);
      assert !Restarts(maxAttempts, calls, last, id);
      RunKeeps(maxAttempts, before);
      LimitStep(Run(maxAttempts, before), maxAttempts, calls[last], id);
    }
  }

  /** `id` has had no restart: its counter, if there is one, has counted all its rejections. */
  ghost predicate CountsAll(st: State, maxAttempts: nat, id: ChallengeId) {
    && WrongCodes(st, id) <= maxAttempts
    && (id in st.s.challenges ==> WrongCodes(st, id) < maxAttempts)
    && (id in st.s.challenges && id in st.s.attempts ==> Counted(st.s, id) == WrongCodes(st, id))
  }

  lemma LimitStep(st: State, maxAttempts: nat, c: Call, id: ChallengeId)
    requires Consistent(st.t) && BudgetInv(st, maxAttempts) && maxAttempts >= 1 && CountsAll(st, maxAttempts, id)
    requires Wrong(st, c, id) ==> id in st.s.attempts || WrongCodes(st, id) == 0
    ensures CountsAll(Step(st, maxAttempts, c), maxAttempts, id)
  {
    assert PendingSound(st, maxAttempts, id) && PastSound(st, maxAttempts, id);
    if Wrong(st, c, id) {
      WrongStep(st, maxAttempts, c, id);
    } else {
      OtherStep(st, maxAttempts, c, id);
      if id !in st.issued { FreshIsUncounted(st, maxAttempts, c, id); }
    }
  }

  lemma FreshIsUncounted(st: State, maxAttempts: nat, c: Call, id: ChallengeId)
    requires Consistent(st.t) && id !in st.issued && PendingSound(st, maxAttempts, id)
    ensures id in Step(st, maxAttempts, c).s.challenges ==> id !in Step(st, maxAttempts, c).s.attempts
  {
  }

  lemma StaysShort(st: State, maxAttempts: nat, c: Call, id: ChallengeId)
    requires Consistent(st.t) && id in st.issued && (id in st.s.challenges ==> Counted(st.s, id) < WrongCodes(st, id))
    ensures var st' := Step(st, maxAttempts, c);
      id in st'.issued && (id in st'.s.challenges ==> Counted(st'.s, id) < WrongCodes(st', id))
  {
    if Wrong(st, c, id) { WrongStep(st, maxAttempts, c, id); } else { OtherStep(st, maxAttempts, c, id); }
  }

  /** A counter that started again never catches up. */
  lemma {:induction false} RestartedFallsShort(maxAttempts: nat, calls: seq<Call>, i: nat, id: ChallengeId)
    requires maxAttempts >= 1 && Restarts(maxAttempts, calls, i, id)
    ensures id in Run(maxAttempts, calls).issued
    ensures id in Run(maxAttempts, calls).s.challenges ==> Counted(Run(maxAttempts, calls).s, id) < WrongCodes(Run(maxAttempts, calls), id)
  {
    var last := |calls| - 1;
    var st := Run(maxAttempts, calls[..last]);
    if i == last {
      RunKeeps(maxAttempts, calls[..last]);
      assert PendingSound(st, maxAttempts, id);
    } else {
      RestartsInPrefix(maxAttempts, calls, last, i, id);
      RestartedFallsShort(maxAttempts, calls[..last], i, id);
    }
    StaysShort(st, maxAttempts, calls[last], id);
  }

  /**
   The exact condition on a run: as long as no wrong guess came after the counter had expired, `maxAttempts` holds; and once
   one did, guessing on while the challenge is pending exceeds it.
   */
  lemma LimitHoldsUnlessRestarted(maxAttempts: nat, calls: seq<Call>, c: Call, id: ChallengeId)
    requires maxAttempts >= 1
    ensures !EverRestarts(maxAttempts, calls, id) ==> WrongCodes(Run(maxAttempts, calls), id) <= maxAttempts
    ensures EverRestarts(maxAttempts, calls, id) && Wrong(Run(maxAttempts, calls), c, id) ==>
              exists k: nat :: After(maxAttempts, calls, c, id, k) > maxAttempts
  {
    if EverRestarts(maxAttempts, calls, id) {
      var i: nat :| Restarts(maxAttempts, calls, i, id);
      RestartedFallsShort(maxAttempts, calls, i, id);
      if Wrong(Run(maxAttempts, calls), c, id) { WithinBudgetIff(maxAttempts, calls, Run(maxAttempts, calls), c, id); }
    } else {
      NoRestartWithinLimit(maxAttempts, calls, id);
    }
  }

  // ---------- the bound is reached ----------

  const GUESS := ConfirmPairing("u", "c", "2", "m", 0, "p")

  const SETUP := [RegisterDevice("u", Desktop, "k", "d"), InitiatePairing("u", "d", "1", "c", 0, 300_000), TimePasses(600)]

  const REGISTERED := INIT.(t := EMPTY_TABLES.(devices := map["d" := Device("u", Desktop, "k", false)], byKey := map["k" := "d"]))
  const PENDING := map["c" := Entry(Challenge("u", "d", Sha256("1"), 300_000), Some(300_000))]
  const INITIATED := REGISTERED.(s := Store(0, PENDING, map[]), issued := {"c"})
  const WAITED := INITIATED.(s := Store(600, PENDING, map[]))

  lemma Registers(n: nat)
    ensures Consistent(INIT.t) && Step(INIT, n, SETUP[0]) == REGISTERED
  {
  }

  lemma Initiates(n: nat)
    ensures Consistent(REGISTERED.t) && Step(REGISTERED, n, SETUP[1]) == INITIATED
  {
    assert "d"[0] == 'd';
    assert map[] - {"c"} == INIT.s.attempts;
  }

  lemma Waits(n: nat)
    ensures Consistent(INITIATED.t) && Step(INITIATED, n, SETUP[2]) == WAITED
  {
    assert Tick(INITIATED.s, 600) == WAITED.s;
  }

  lemma SetupRun(maxAttempts: nat)
    requires maxAttempts >= 1
    ensures Run(maxAttempts, SETUP) == WAITED
  {
    Registers(maxAttempts);
    RunStep(maxAttempts, SETUP[..1], [], SETUP[0]);
    Initiates(maxAttempts);
    RunStep(maxAttempts, SETUP[..2], SETUP[..1], SETUP[1]);
    Waits(maxAttempts);
    assert SETUP == SETUP[..2] + [SETUP[2]];
    RunStep(maxAttempts, SETUP, SETUP[..2], SETUP[2]);
  }

  lemma GuessIsWrong(st: State)
    requires "c" in st.s.challenges && st.s.challenges["c"] == PENDING["c"]
    ensures Wrong(st, GUESS, "c")
  {
    assert "c"[0] == 'c' && "2"[0] == '2' && "m"[0] == 'm' && "1"[0] == '1';
    assert Sha256("1") != Sha256("2");
  }

  /** The challenge as the wrong guesses at 0.6 seconds leave it, one short of the limit. */
  ghost predicate OneShort(st: State, maxAttempts: nat) {
    && st.s.clock == 600 && "c" in st.s.challenges && st.s.challenges["c"] == PENDING["c"] && WrongCodes(st, "c") == maxAttempts - 1
    && "c" in st.s.attempts && st.s.attempts["c"].expiry == Some(299_600)
  }

  lemma LeavesOneShort(st: State, maxAttempts: nat)
    requires maxAttempts >= 2 && GuessedOn(WAITED, st, maxAttempts, "c", maxAttempts - 1)
    ensures OneShort(st, maxAttempts)
  {
    assert SecondsLeft(WAITED.s.challenges, "c", 600) == 299;
  }

  /** One guess short of the limit, 0.6 seconds into a challenge of five minutes: the counter lives until 299.6 seconds. */
  lemma EarlyGuesses(maxAttempts: nat, setup: seq<Call>)
    requires maxAttempts >= 2 && Run(maxAttempts, setup) == WAITED
    ensures OneShort(Run(maxAttempts, setup + Repeat(GUESS, maxAttempts - 1)), maxAttempts)
  {
    GuessIsWrong(WAITED);
    KeepGuessing(maxAttempts, setup, WAITED, GUESS, "c", maxAttempts - 1);
    LeavesOneShort(Run(maxAttempts, setup + Repeat(GUESS, maxAttempts - 1)), maxAttempts);
  }

  /** At 299.7 seconds the challenge is still there, and its counter is not. */
  ghost predicate Uncounted(st: State, maxAttempts: nat) {
    Wrong(st, GUESS, "c") && "c" !in st.s.attempts && WrongCodes(st, "c") == maxAttempts - 1
  }

  lemma CounterGone(st: State, st': State, maxAttempts: nat)
    requires OneShort(st, maxAttempts) && st' == st.(s := Tick(st.s, 299_100))
    ensures Uncounted(st', maxAttempts)
  {
    GuessIsWrong(st');
  }

  lemma TimeStep(st: State, maxAttempts: nat, dt: nat)
    requires Consistent(st.t)
    ensures Step(st, maxAttempts, TimePasses(dt)) == st.(s := Tick(st.s, dt))
  {
  }

  lemma CounterExpires(maxAttempts: nat, early: seq<Call>, late: seq<Call>)
    requires maxAttempts >= 2 && OneShort(Run(maxAttempts, early), maxAttempts)
    requires late == early + [TimePasses(299_100)]
    ensures Uncounted(Run(maxAttempts, late), maxAttempts)
  {
    RunStep(maxAttempts, late, early, TimePasses(299_100));
    TimeStep(Run(maxAttempts, early), maxAttempts, 299_100);
    CounterGone(Run(maxAttempts, early), Run(maxAttempts, late), maxAttempts);
  }

  /** So the challenge takes another full `maxAttempts` guesses. */
  lemma LateGuesses(maxAttempts: nat, late: seq<Call>)
    requires maxAttempts >= 2 && Uncounted(Run(maxAttempts, late), maxAttempts)
    ensures After(maxAttempts, late, GUESS, "c", maxAttempts) == 2 * maxAttempts - 1
  {
    AfterIs(maxAttempts, late, Run(maxAttempts, late), GUESS, "c", maxAttempts);
  }

  /** So a limit of two or more can be exceeded up to the bound: two by three, five by nine. */
  lemma OverBudget(maxAttempts: nat) returns (calls: seq<Call>)
    requires maxAttempts >= 2
    ensures WrongCodes(Run(maxAttempts, calls), "c") == 2 * maxAttempts - 1
  {
    SetupRun(maxAttempts);
    EarlyGuesses(maxAttempts, SETUP);
    var early := SETUP + Repeat(GUESS, maxAttempts - 1);
    var late := early + [TimePasses(299_100)];
    CounterExpires(maxAttempts, early, late);
    LateGuesses(maxAttempts, late);
    calls := late + Repeat(GUESS, maxAttempts);
  }

  /** So `maxAttempts` bounds the rejections of every challenge in every run exactly when it is one. */
  lemma LimitIsBoundIff(maxAttempts: nat)
    requires maxAttempts >= 1
    ensures (forall calls: seq<Call>, id: ChallengeId :: WrongCodes(Run(maxAttempts, calls), id) <= maxAttempts) <==> maxAttempts == 1
  {
    if maxAttempts == 1 {
      forall calls: seq<Call>, id: ChallengeId ensures WrongCodes(Run(maxAttempts, calls), id) <= maxAttempts {
        GuessBudget(maxAttempts, calls, id);
      }
    } else {
      var calls := OverBudget(maxAttempts);
    }
  }

  // ---------- other users, other times ----------

  /** Somebody else's attempt at a challenge, right code or wrong, changes nothing at all. */
  lemma OthersCannotTouch(maxAttempts: nat, calls: seq<Call>, c: Call)
    requires c.ConfirmPairing? && c.challenge in Run(maxAttempts, calls).s.challenges
    requires Run(maxAttempts, calls).s.challenges[c.challenge].value.user != c.user
    ensures Run(maxAttempts, calls + [c]) == Run(maxAttempts, calls)
  {
    RunSnoc(maxAttempts, calls, c);
    OtherUsersStep(Run(maxAttempts, calls), maxAttempts, c);
  }

  lemma OtherUsersStep(st: State, maxAttempts: nat, c: Call)
    requires Consistent(st.t) && c.ConfirmPairing? && c.challenge in st.s.challenges && st.s.challenges[c.challenge].value.user != c.user
    ensures Step(st, maxAttempts, c) == st
  {
  }

  /** A challenge that is gone never comes back. */
  lemma {:induction false} GoneForGood(maxAttempts: nat, calls: seq<Call>, more: seq<Call>, id: ChallengeId)
    requires id in Run(maxAttempts, calls).issued && id !in Run(maxAttempts, calls).s.challenges
    ensures id in Run(maxAttempts, calls + more).issued && id !in Run(maxAttempts, calls + more).s.challenges
    ensures WrongCodes(Run(maxAttempts, calls + more), id) == WrongCodes(Run(maxAttempts, calls), id)
  {
    if more == [] {
      assert calls + more == calls;
    } else {
      var before := more[..|more| - 1];
      GoneForGood(maxAttempts, calls, before, id);
      RunLast(maxAttempts, calls, more);
      StepGone(Run(maxAttempts, calls + before), maxAttempts, more[|more| - 1], id);
    }
  }

  lemma StepGone(st: State, maxAttempts: nat, c: Call, id: ChallengeId)
    requires Consistent(st.t) && id in st.issued && id !in st.s.challenges
    ensures id in Step(st, maxAttempts, c).issued && id !in Step(st, maxAttempts, c).s.challenges
    ensures WrongCodes(Step(st, maxAttempts, c), id) == WrongCodes(st, id)
  {
  }
}
