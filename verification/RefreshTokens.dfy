/**
 Refresh-token rotation: the token table, the service calls on it, and what
 holds after any sequence of calls. Each call is one step whose storage calls
 succeed; what JWT verification says of a presented token is an input.
 */
module RefreshTokens {
  import opened Basics

  type Jti = string
  type User = string

  /** SHA-256 of a token. */
  datatype Digest = Sha256(token: string)

  datatype Row = Row(user: User, hash: Digest, expiresAt: nat, revoked: bool, replacedBy: Option<Jti>) {
    predicate Active(now: nat) {
      !revoked && now < expiresAt
    }
  }

  type Rows = map<Jti, Row>

  /** A primary key or a token hash already present makes the insert fail. */
  predicate Insertable(rows: Rows, jti: Jti, hash: Digest) {
    jti !in rows && forall j :: j in rows ==> rows[j].hash != hash
  }

  function Revoke(rows: Rows, jti: Jti, replacedBy: Option<Jti>): Rows {
    if jti in rows && !rows[jti].revoked
    then rows[jti := rows[jti].(revoked := true, replacedBy := replacedBy)]
    else rows
  }

  function RevokeAllForUser(rows: Rows, user: User): Rows {
    map j | j in rows :: if rows[j].user == user && !rows[j].revoked then rows[j].(revoked := true) else rows[j]
  }

  /** Where a token stands: in the chain of which login, at which position, and how many tokens were issued before it. */
  datatype Place = Place(login: nat, pos: nat, serial: nat)

  /** The table and the accounts, with the history: every login's chain of tokens, and the tokens redeemed. */
  datatype Auth = Auth(rows: Rows, users: set<User>, places: map<Jti, Place>, logins: seq<seq<Jti>>, redeemed: seq<Jti>)

  function Init(): Auth {
    Auth(map[], {}, map[], [], [])
  }

  /** Every token has a place in the history. */
  ghost predicate Tracked(a: Auth) {
    && a.rows.Keys == a.places.Keys
    && forall j :: j in a.places ==> a.places[j].login < |a.logins|
  }

  datatype Failure = InvalidToken | ReuseDetected | NotPersisted

  /** The identifier, text and expiry a call gives a token it mints. */
  datatype Minted = Minted(jti: Jti, token: string, expiresAt: nat)

  function NewRow(user: User, m: Minted): Row {
    Row(user, Sha256(m.token), m.expiresAt, false, None)
  }

  /** Register, Login and the OAuth callback all end here, with the account at hand. */
  function SignIn(a: Auth, user: User, m: Minted): (Auth, Result<Jti, Failure>) {
    var known := a.(users := a.users + {user});
    if !Insertable(a.rows, m.jti, Sha256(m.token)) then (known, Err(NotPersisted)) else
    (known.(rows := a.rows[m.jti := NewRow(user, m)],
            places := a.places[m.jti := Place(|a.logins|, 0, |a.places|)],
            logins := a.logins + [[m.jti]]),
     Ok(m.jti))
  }

  /** Token `jti` makes way for a new one, which continues its login's chain. */
  function Rotate(a: Auth, jti: Jti, m: Minted): Auth
    requires Tracked(a) && jti in a.rows
  {
    var login := a.places[jti].login;
    Auth(Revoke(a.rows[m.jti := NewRow(a.rows[jti].user, m)], jti, Some(m.jti)),
         a.users,
         a.places[m.jti := Place(login, |a.logins[login]|, |a.places|)],
         a.logins[login := a.logins[login] + [m.jti]],
         a.redeemed + [jti])
  }

  /** `claims` is the token id JWT verification yields, if the token verifies. */
  function Refresh(a: Auth, token: string, claims: Option<Jti>, now: nat, m: Minted): (Auth, Result<Jti, Failure>)
    requires Tracked(a)
  {
    if claims.None? || claims.value !in a.rows then (a, Err(InvalidToken)) else
    var row := a.rows[claims.value];
    if row.revoked then (a.(rows := RevokeAllForUser(a.rows, row.user)), Err(ReuseDetected))
    else if Sha256(token) != row.hash || !row.Active(now) then (a, Err(InvalidToken))
    else if row.user !in a.users then (a, Err(InvalidToken))
    else if !Insertable(a.rows, m.jti, Sha256(m.token)) then (a, Err(NotPersisted))
    else (Rotate(a, claims.value, m), Ok(m.jti))
  }

  function Logout(a: Auth, claims: Option<Jti>): Auth {
    if claims.None? then a else a.(rows := Revoke(a.rows, claims.value, None))
  }

  // ---------- runs ----------

  datatype Call =
    | SignsIn(user: User, m: Minted)
    | Refreshes(token: string, claims: Option<Jti>, now: nat, m: Minted)
    | LogsOut(claims: Option<Jti>)

  function Step(a: Auth, c: Call): (a': Auth)
    requires Tracked(a)
    ensures Tracked(a')
  {
    match c
    case SignsIn(user, m) => SignIn(a, user, m).0
    case Refreshes(token, claims, now, m) => Refresh(a, token, claims, now, m).0
    case LogsOut(claims) => Logout(a, claims)
  }

  function Run(calls: seq<Call>): (a: Auth)
    ensures Tracked(a)
  {
    if calls == [] then Init() else Step(Run(calls[..|calls| - 1]), calls[|calls| - 1])
  }

  lemma RunStep(longer: seq<Call>, calls: seq<Call>, c: Call)
    requires longer == calls + [c]
    ensures Run(longer) == Step(Run(calls), c)
  {
    assert longer[..|longer| - 1] == calls;
  }

  // ---------- what every call keeps ----------

  /** Token `j` is where its place says. */
  ghost predicate Placed(a: Auth, j: Jti)
    requires Tracked(a) && j in a.rows
  {
    var p := a.places[j];
    p.pos < |a.logins[p.login]| && a.logins[p.login][p.pos] == j && p.serial < |a.places|
  }

  /** Link `i` of a login's chain: in the table, the login's user's, and replaced by exactly the next link, or not at all if it is the last. */
  ghost predicate Linked(a: Auth, c: nat, i: nat)
    requires Tracked(a) && c < |a.logins| && i < |a.logins[c]|
  {
    var j := a.logins[c][i];
    && j in a.rows && a.places[j].login == c && a.places[j].pos == i
    && a.logins[c][0] in a.rows && a.rows[j].user == a.rows[a.logins[c][0]].user
    && (if i + 1 < |a.logins[c]| then
          var next := a.logins[c][i + 1];
          a.rows[j].revoked && a.rows[j].replacedBy == Some(next) && next in a.rows && a.places[j].serial < a.places[next].serial
        else a.rows[j].replacedBy == None)
  }

  /** The tokens redeemed are those that were replaced. */
  ghost predicate RedeemedSound(a: Auth) {
    && (forall j :: j in a.redeemed <==> j in a.rows && a.rows[j].replacedBy.Some?)
    && (forall i, k :: 0 <= i < k < |a.redeemed| ==> a.redeemed[i] != a.redeemed[k])
  }

  ghost predicate PlacesSound(a: Auth) {
    Tracked(a) && forall j :: j in a.rows ==> Placed(a, j)
  }

  ghost predicate ChainsSound(a: Auth) {
    && Tracked(a)
    && (forall c :: 0 <= c < |a.logins| ==> a.logins[c] != [])
    && (forall c, i {:trigger Linked(a, c, i)} :: 0 <= c < |a.logins| && 0 <= i < |a.logins[c]| ==> Linked(a, c, i))
  }

  ghost predicate RowsSound(a: Auth) {
    forall j :: j in a.rows ==> a.rows[j].user in a.users && (a.rows[j].replacedBy.Some? ==> a.rows[j].revoked)
  }

  ghost predicate Inv(a: Auth) {
    PlacesSound(a) && ChainsSound(a) && RowsSound(a) && RedeemedSound(a)
  }

  // ---------- revoking without a successor ----------

  /** Same tokens, same owners and successors; some more are revoked. */
  ghost predicate OnlyRevoked(rows: Rows, rows': Rows) {
    rows'.Keys == rows.Keys && forall j :: j in rows ==> rows'[j] == rows[j] || rows'[j] == rows[j].(revoked := true)
  }

  lemma RevokedLink(a: Auth, rows: Rows, c: nat, i: nat)
    requires Tracked(a) && OnlyRevoked(a.rows, rows) && c < |a.logins| && i < |a.logins[c]| && Linked(a, c, i)
    ensures Tracked(a.(rows := rows)) && Linked(a.(rows := rows), c, i)
  {
  }

  lemma RevokedChains(a: Auth, rows: Rows)
    requires ChainsSound(a) && OnlyRevoked(a.rows, rows)
    ensures ChainsSound(a.(rows := rows))
  {
    var a' := a.(rows := rows);
    forall c, i | 0 <= c < |a'.logins| && 0 <= i < |a'.logins[c]| ensures Linked(a', c, i) {
      assert Linked(a, c, i);
      RevokedLink(a, rows, c, i);
    }
  }

  lemma RevokedPlaces(a: Auth, rows: Rows)
    requires PlacesSound(a) && OnlyRevoked(a.rows, rows)
    ensures PlacesSound(a.(rows := rows))
  {
    forall j | j in rows ensures Placed(a.(rows := rows), j) { assert Placed(a, j); }
  }

  lemma RevokedRows(a: Auth, rows: Rows)
    requires RowsSound(a) && RedeemedSound(a) && OnlyRevoked(a.rows, rows)
    ensures RowsSound(a.(rows := rows)) && RedeemedSound(a.(rows := rows))
  {
  }

  lemma RevokeKeeps(a: Auth, rows: Rows)
    requires Inv(a) && OnlyRevoked(a.rows, rows)
    ensures Inv(a.(rows := rows))
  {
    RevokedChains(a, rows);
    RevokedPlaces(a, rows);
    RevokedRows(a, rows);
  }

  // ---------- a new chain ----------

  lemma SignInPlaced(a: Auth, user: User, m: Minted, j: Jti)
    requires Tracked(a) && j in a.rows && Placed(a, j) && j in SignIn(a, user, m).0.rows
    ensures Placed(SignIn(a, user, m).0, j)
  {
  }

  lemma SignInPlacesNew(a: Auth, user: User, m: Minted)
    requires Tracked(a) && m.jti !in a.rows && m.jti in SignIn(a, user, m).0.rows
    ensures Placed(SignIn(a, user, m).0, m.jti)
  {
    assert |a.places[m.jti := Place(|a.logins|, 0, |a.places|)]| == |a.places| + 1;
  }

  lemma SignInTracked(a: Auth, user: User, m: Minted)
    requires Tracked(a)
    ensures Tracked(SignIn(a, user, m).0)
  {
  }

  lemma SignInPlacedAny(a: Auth, user: User, m: Minted, j: Jti)
    requires PlacesSound(a) && j in SignIn(a, user, m).0.rows
    ensures Placed(SignIn(a, user, m).0, j)
  {
    if j in a.rows { SignInPlaced(a, user, m, j); } else { SignInPlacesNew(a, user, m); }
  }

  lemma SignInPlaces(a: Auth, user: User, m: Minted)
    requires PlacesSound(a)
    ensures PlacesSound(SignIn(a, user, m).0)
  {
    SignInTracked(a, user, m);
    forall j | j in SignIn(a, user, m).0.rows ensures Placed(SignIn(a, user, m).0, j) {
      SignInPlacedAny(a, user, m, j);
    }
  }

  lemma SignInLink(a: Auth, user: User, m: Minted, c: nat, i: nat)
    requires Tracked(a) && c < |a.logins| && i < |a.logins[c]| && Linked(a, c, i)
    ensures var a' := SignIn(a, user, m).0; c < |a'.logins| && a'.logins[c] == a.logins[c] && Linked(a', c, i)
  {
  }

  lemma SignInChains(a: Auth, user: User, m: Minted)
    requires ChainsSound(a)
    ensures ChainsSound(SignIn(a, user, m).0)
  {
    var a' := SignIn(a, user, m).0;
    forall c, i | 0 <= c < |a'.logins| && 0 <= i < |a'.logins[c]| ensures Linked(a', c, i) {
      if c < |a.logins| {
        assert Linked(a, c, i);
        SignInLink(a, user, m, c, i);
      }
    }
  }

  lemma SignInRows(a: Auth, user: User, m: Minted)
    requires RowsSound(a) && RedeemedSound(a)
    ensures RowsSound(SignIn(a, user, m).0) && RedeemedSound(SignIn(a, user, m).0)
  {
  }

  lemma SignInKeeps(a: Auth, user: User, m: Minted)
    requires Inv(a)
    ensures Inv(SignIn(a, user, m).0)
  {
    SignInPlaces(a, user, m);
    SignInChains(a, user, m);
    SignInRows(a, user, m);
  }

  // ---------- the next link ----------

  /** A token that is not revoked is the last of its chain. */
  lemma UnrevokedIsLast(a: Auth, jti: Jti)
    requires PlacesSound(a) && ChainsSound(a) && jti in a.rows && !a.rows[jti].revoked
    ensures var p := a.places[jti]; p.pos + 1 == |a.logins[p.login]| && a.logins[p.login][p.pos] == jti
  {
    assert Placed(a, jti);
    assert Linked(a, a.places[jti].login, a.places[jti].pos);
  }

  lemma RotatePlaces(a: Auth, jti: Jti, m: Minted)
    requires PlacesSound(a) && jti in a.rows && m.jti !in a.rows
    ensures PlacesSound(Rotate(a, jti, m))
  {
    var a' := Rotate(a, jti, m);
    assert |a'.places| == |a.places| + 1;
    forall j | j in a'.rows ensures Placed(a', j) {
      if j != m.jti { assert Placed(a, j); }
    }
  }

  /** Links other than the last of the rotated chain are untouched. */
  lemma RotateLink(a: Auth, jti: Jti, m: Minted, c: nat, i: nat)
    requires Tracked(a) && jti in a.rows && m.jti !in a.rows
    requires c < |a.logins| && i < |a.logins[c]| && Linked(a, c, i) && a.logins[c][i] != jti
    requires c != a.places[jti].login || i + 1 < |a.logins[c]|
    ensures Linked(Rotate(a, jti, m), c, i)
  {
  }

  /** The rotated token and its successor are the chain's two newest links. */
  lemma RotateNewLinks(a: Auth, jti: Jti, m: Minted)
    requires PlacesSound(a) && ChainsSound(a) && RowsSound(a) && jti in a.rows && !a.rows[jti].revoked && m.jti !in a.rows
    ensures var p := a.places[jti]; var a' := Rotate(a, jti, m);
      p.pos + 2 == |a'.logins[p.login]| && Linked(a', p.login, p.pos) && Linked(a', p.login, p.pos + 1)
  {
    UnrevokedIsLast(a, jti);
    assert Placed(a, jti);
    assert Linked(a, a.places[jti].login, a.places[jti].pos);
  }

  lemma RotateChains(a: Auth, jti: Jti, m: Minted)
    requires PlacesSound(a) && ChainsSound(a) && RowsSound(a) && jti in a.rows && !a.rows[jti].revoked && m.jti !in a.rows
    ensures ChainsSound(Rotate(a, jti, m))
  {
    var a' := Rotate(a, jti, m);
    var p := a.places[jti];
    RotateNewLinks(a, jti, m);
    forall c, i | 0 <= c < |a'.logins| && 0 <= i < |a'.logins[c]| ensures Linked(a', c, i) {
      if c != p.login || i < p.pos {
        assert Linked(a, c, i);
        assert a.logins[c][i] != jti;
        RotateLink(a, jti, m, c, i);
      }
    }
  }

  lemma RotateRows(a: Auth, jti: Jti, m: Minted)
    requires Tracked(a) && RowsSound(a) && RedeemedSound(a) && jti in a.rows && !a.rows[jti].revoked && m.jti !in a.rows
    ensures RowsSound(Rotate(a, jti, m)) && RedeemedSound(Rotate(a, jti, m))
  {
    assert jti !in a.redeemed;
  }

  lemma RotateKeeps(a: Auth, jti: Jti, m: Minted)
    requires Inv(a) && jti in a.rows && !a.rows[jti].revoked && m.jti !in a.rows
    ensures Inv(Rotate(a, jti, m))
  {
    RotatePlaces(a, jti, m);
    RotateChains(a, jti, m);
    RotateRows(a, jti, m);
  }

  /** A refresh rotates a token, revokes a user's tokens, or does nothing. */
  lemma RefreshCases(a: Auth, token: string, claims: Option<Jti>, now: nat, m: Minted)
    requires Tracked(a)
    ensures var a' := Refresh(a, token, claims, now, m).0;
      || a' == a
      || (claims.Some? && claims.value in a.rows && a' == a.(rows := RevokeAllForUser(a.rows, a.rows[claims.value].user)))
      || (claims.Some? && claims.value in a.rows && !a.rows[claims.value].revoked && m.jti !in a.rows && a' == Rotate(a, claims.value, m))
  {
  }

  lemma RefreshKeeps(a: Auth, token: string, claims: Option<Jti>, now: nat, m: Minted)
    requires Inv(a)
    ensures Inv(Refresh(a, token, claims, now, m).0)
  {
    RefreshCases(a, token, claims, now, m);
    if claims.Some? && claims.value in a.rows {
      RevokeKeeps(a, RevokeAllForUser(a.rows, a.rows[claims.value].user));
      if !a.rows[claims.value].revoked && m.jti !in a.rows { RotateKeeps(a, claims.value, m); }
    }
  }

  lemma StepKeeps(a: Auth, c: Call)
    requires Inv(a)
    ensures Inv(Step(a, c))
  {
    match c
    case SignsIn(user, m) => SignInKeeps(a, user, m);
    case Refreshes(token, claims, now, m) => RefreshKeeps(a, token, claims, now, m);
    case LogsOut(claims) => if claims.Some? { LogoutKeeps(a, claims.value); }
  }

  lemma LogoutKeeps(a: Auth, jti: Jti)
    requires Inv(a)
    ensures Inv(a.(rows := Revoke(a.rows, jti, None)))
  {
    if jti in a.rows && !a.rows[jti].revoked {
      assert a.rows[jti].replacedBy == None by { UnrevokedUnreplaced(a, jti); }
      RevokeKeeps(a, Revoke(a.rows, jti, None));
    }
  }

  lemma UnrevokedUnreplaced(a: Auth, jti: Jti)
    requires RowsSound(a) && jti in a.rows && !a.rows[jti].revoked
    ensures a.rows[jti].replacedBy == None
  {
  }

  lemma {:induction false} RunKeeps(calls: seq<Call>)
    ensures Inv(Run(calls))
  {
    if calls != [] {
      RunKeeps(calls[..|calls| - 1]);
      StepKeeps(Run(calls[..|calls| - 1]), calls[|calls| - 1]);
    }
  }

  // ---------- what rotation promises ----------

  /**
   The tokens of a login form one chain, in issue order: each but the last is revoked and replaced by exactly the next,
   the last is replaced by none, and all are the same user's. Every token is in one chain, once.
   */
  lemma ChainIsAPath(calls: seq<Call>, c: nat, i: nat)
    requires c < |Run(calls).logins| && i < |Run(calls).logins[c]|
    ensures var a := Run(calls); var chain := a.logins[c];
      && chain[i] in a.rows
      && (forall d, k :: 0 <= d < |a.logins| && 0 <= k < |a.logins[d]| && a.logins[d][k] == chain[i] ==> d == c && k == i)
      && (i + 1 < |chain| ==>
           && a.rows[chain[i]].revoked && a.rows[chain[i]].replacedBy == Some(chain[i + 1]) && chain[i + 1] in a.rows
           && a.places[chain[i]].serial < a.places[chain[i + 1]].serial
           && a.rows[chain[i + 1]].user == a.rows[chain[i]].user)
      && (i + 1 == |chain| ==> a.rows[chain[i]].replacedBy == None)
  {
    var a := Run(calls);
    RunKeeps(calls);
    assert Linked(a, c, i);
    if i + 1 < |a.logins[c]| { assert Linked(a, c, i + 1); }
    forall d, k | 0 <= d < |a.logins| && 0 <= k < |a.logins[d]| && a.logins[d][k] == a.logins[c][i] ensures d == c && k == i {
      assert Linked(a, d, k);
    }
  }

  /** A login has at most one token that is not revoked, and it is the newest. */
  lemma OnlyNewestUnrevoked(calls: seq<Call>, j: Jti)
    requires j in Run(calls).rows && !Run(calls).rows[j].revoked
    ensures var a := Run(calls); var p := a.places[j];
      p.pos + 1 == |a.logins[p.login]| && a.logins[p.login][p.pos] == j
  {
    var a := Run(calls);
    RunKeeps(calls);
    assert Placed(a, j);
    assert Linked(a, a.places[j].login, a.places[j].pos);
  }

  /** No token is ever redeemed twice, and redeeming one revoked it for good. */
  lemma RedeemedOnce(calls: seq<Call>, i: nat, k: nat)
    requires i < k < |Run(calls).redeemed|
    ensures Run(calls).redeemed[i] != Run(calls).redeemed[k]
    ensures var j := Run(calls).redeemed[i]; j in Run(calls).rows && Run(calls).rows[j].revoked
  {
    RunKeeps(calls);
    assert Run(calls).redeemed[i] in Run(calls).redeemed;
  }

  lemma RefreshIff(a: Auth, token: string, jti: Jti, now: nat, m: Minted)
    requires Tracked(a)
    ensures var (a', r) := Refresh(a, token, Some(jti), now, m);
      && (r.Ok? <==>
           && jti in a.rows && !a.rows[jti].revoked && a.rows[jti].hash == Sha256(token) && now < a.rows[jti].expiresAt
           && a.rows[jti].user in a.users && Insertable(a.rows, m.jti, Sha256(m.token)))
      && (r.Ok? ==>
           && r.value == m.jti && m.jti in a'.rows && jti in a'.rows
           && a'.rows[jti].revoked && a'.rows[jti].replacedBy == Some(m.jti)
           && a'.rows[m.jti] == Row(a.rows[jti].user, Sha256(m.token), m.expiresAt, false, None)
           && forall j :: j in a.rows && j != jti ==> j in a'.rows && a'.rows[j] == a.rows[j])
  {
  }

  /**
   Exactly when a refresh succeeds: the token verifies, is stored under its id with its hash, is neither revoked nor
   expired, its account exists, and the successor can be stored. The successor is then redeemable, for the same user.
   */
  lemma RefreshSucceedsIff(calls: seq<Call>, token: string, jti: Jti, now: nat, m: Minted)
    ensures var a := Run(calls); var (a', r) := Refresh(a, token, Some(jti), now, m);
      && (r.Ok? <==>
           && jti in a.rows && !a.rows[jti].revoked && a.rows[jti].hash == Sha256(token) && now < a.rows[jti].expiresAt
           && a.rows[jti].user in a.users && Insertable(a.rows, m.jti, Sha256(m.token)))
      && (r.Ok? ==>
           && r.value == m.jti && m.jti in a'.rows && jti in a'.rows
           && a'.rows[jti].revoked && a'.rows[jti].replacedBy == Some(m.jti)
           && a'.rows[m.jti] == Row(a.rows[jti].user, Sha256(m.token), m.expiresAt, false, None)
           && forall j :: j in a.rows && j != jti ==> j in a'.rows && a'.rows[j] == a.rows[j])
  {
    RefreshIff(Run(calls), token, jti, now, m);
  }

  /** A refused refresh changes nothing, except that a revoked token revokes its user's tokens and nobody else's. */
  lemma RefusalEffect(a: Auth, token: string, claims: Option<Jti>, now: nat, m: Minted)
    requires Tracked(a) && Refresh(a, token, claims, now, m).1.Err?
    ensures var (a', r) := Refresh(a, token, claims, now, m);
      && (r.error == ReuseDetected <==> claims.Some? && claims.value in a.rows && a.rows[claims.value].revoked)
      && (r.error != ReuseDetected ==> a' == a)
      && (r.error == ReuseDetected ==>
           && a'.rows.Keys == a.rows.Keys && a' == a.(rows := a'.rows)
           && forall j :: j in a.rows ==>
                if a.rows[j].user == a.rows[claims.value].user then a'.rows[j] == a.rows[j].(revoked := true) else a'.rows[j] == a.rows[j])
  {
  }

  ghost predicate NothingRedeemable(a: Auth, user: User) {
    forall j :: j in a.rows && a.rows[j].user == user ==> a.rows[j].revoked
  }

  lemma StepStaysUnredeemable(a: Auth, c: Call, user: User)
    requires Tracked(a) && NothingRedeemable(a, user) && !(c.SignsIn? && c.user == user)
    ensures NothingRedeemable(Step(a, c), user)
  {
  }

  lemma OneMoreLockedOut(longer: seq<Call>, calls: seq<Call>, c: Call, user: User)
    requires longer == calls + [c] && NothingRedeemable(Run(calls), user) && !(c.SignsIn? && c.user == user)
    ensures NothingRedeemable(Run(longer), user)
  {
    RunStep(longer, calls, c);
    StepStaysUnredeemable(Run(calls), c, user);
  }

  lemma {:induction false} StaysLockedOut(calls: seq<Call>, more: seq<Call>, user: User)
    requires NothingRedeemable(Run(calls), user)
    requires forall i :: 0 <= i < |more| ==> !(more[i].SignsIn? && more[i].user == user)
    ensures NothingRedeemable(Run(calls + more), user)
  {
    if more == [] {
      assert calls + more == calls;
    } else {
      var last := |more| - 1;
      StaysLockedOut(calls, more[..last], user);
      AppendSnoc(calls, more);
      OneMoreLockedOut(calls + more, calls + more[..last], more[last], user);
    }
  }

  lemma ReuseRevokesAll(a: Auth, token: string, jti: Jti, now: nat, m: Minted)
    requires Tracked(a) && jti in a.rows && a.rows[jti].revoked
    ensures Refresh(a, token, Some(jti), now, m).1 == Err(ReuseDetected)
    ensures NothingRedeemable(Refresh(a, token, Some(jti), now, m).0, a.rows[jti].user)
  {
  }

  /**
   Presenting a revoked token whose JWT still verifies leaves its user with no redeemable token, and it stays so, through
   any calls by anybody, until that user signs in again: no presentation of any of the user's tokens succeeds.
   */
  lemma ReuseLocksOut(calls: seq<Call>, token: string, jti: Jti, now: nat, m: Minted, more: seq<Call>,
                      token': string, jti': Jti, now': nat, m': Minted)
    requires jti in Run(calls).rows && Run(calls).rows[jti].revoked
    requires forall i :: 0 <= i < |more| ==> !(more[i].SignsIn? && more[i].user == Run(calls).rows[jti].user)
    ensures Refresh(Run(calls), token, Some(jti), now, m).1 == Err(ReuseDetected)
    ensures var a := Run(calls + [Refreshes(token, Some(jti), now, m)] + more);
      jti' in a.rows && a.rows[jti'].user == Run(calls).rows[jti].user ==>
        a.rows[jti'].revoked && Refresh(a, token', Some(jti'), now', m').1 == Err(ReuseDetected)
  {
    var reuse := calls + [Refreshes(token, Some(jti), now, m)];
    var user := Run(calls).rows[jti].user;
    RunStep(reuse, calls, Refreshes(token, Some(jti), now, m));
    ReuseRevokesAll(Run(calls), token, jti, now, m);
    StaysLockedOut(reuse, more, user);
  }

  // ---------- signing in and out ----------

  /**
   A sign-in stores the new token, and only that, exactly when neither its id nor its hash is there yet; what it stored can
   be redeemed by that text alone, until it expires, if the successor can be stored.
   */
  lemma SignInThenRefresh(a: Auth, user: User, m: Minted, token: string, now: nat, m': Minted)
    requires Tracked(a)
    ensures var (a', r) := SignIn(a, user, m);
      && (r.Ok? <==> m.jti !in a.rows && forall j :: j in a.rows ==> a.rows[j].hash != Sha256(m.token))
      && (r.Err? ==> a'.rows == a.rows)
      && (r.Ok? ==>
           && r.value == m.jti && m.jti in a'.rows && a'.rows[m.jti].user == user && a'.rows - {m.jti} == a.rows
           && Tracked(a')
           && (Refresh(a', token, Some(m.jti), now, m').1.Ok? <==>
                 token == m.token && now < m.expiresAt && Insertable(a'.rows, m'.jti, Sha256(m'.token))))
  {
    SignInTracked(a, user, m);
  }

  predicate IsRevoked(a: Auth, j: Jti) {
    j in a.rows && a.rows[j].revoked
  }

  lemma StepStaysRevoked(a: Auth, c: Call, j: Jti)
    requires Tracked(a) && IsRevoked(a, j)
    ensures IsRevoked(Step(a, c), j)
  {
  }

  lemma {:induction false} StaysRevoked(calls: seq<Call>, more: seq<Call>, j: Jti)
    requires IsRevoked(Run(calls), j)
    ensures IsRevoked(Run(calls + more), j)
  {
    if more == [] {
      assert calls + more == calls;
    } else {
      var last := |more| - 1;
      StaysRevoked(calls, more[..last], j);
      AppendSnoc(calls, more);
      RunStep(calls + more, calls + more[..last], more[last]);
      StepStaysRevoked(Run(calls + more[..last]), more[last], j);
    }
  }

  lemma LogoutRevokes(a: Auth, j: Jti)
    requires Tracked(a) && j in a.rows
    ensures var a' := Logout(a, Some(j)); IsRevoked(a', j) && a'.rows - {j} == a.rows - {j} && a' == a.(rows := a'.rows)
    ensures a.rows[j].revoked ==> Logout(a, Some(j)) == a
  {
  }

  /**
   A token logged out is refused as reuse for ever, whoever calls what afterwards and whatever text, time and successor it
   is presented with; and logging out touches nothing but its row.
   */
  lemma LogoutIsFinal(calls: seq<Call>, j: Jti, more: seq<Call>, token: string, now: nat, m: Minted)
    requires j in Run(calls).rows
    ensures var a := Run(calls + [LogsOut(Some(j))] + more);
      j in a.rows && a.rows[j].revoked && Refresh(a, token, Some(j), now, m).1 == Err(ReuseDetected)
    ensures var a, a' := Run(calls), Run(calls + [LogsOut(Some(j))]); a'.rows - {j} == a.rows - {j} && a' == a.(rows := a'.rows)
  {
    RunStep(calls + [LogsOut(Some(j))], calls, LogsOut(Some(j)));
    LogoutRevokes(Run(calls), j);
    StaysRevoked(calls + [LogsOut(Some(j))], more, j);
  }

  /** Logging out with a token that does not verify, or is not stored, changes nothing. */
  lemma EmptyLogout(calls: seq<Call>, claims: Option<Jti>)
    requires claims.Some? ==> claims.value !in Run(calls).rows
    ensures Run(calls + [LogsOut(claims)]) == Run(calls)
  {
    RunStep(calls + [LogsOut(claims)], calls, LogsOut(claims));
  }
}
