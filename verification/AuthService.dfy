/** The refresh-token table and the service over it, updated in place; each call is the step of the rotation model. */
module AuthService {
  import opened Basics
  import opened M = RefreshTokens

  datatype RepoError = RefreshNotFound | UniqueViolation

  class RefreshRepo {
    var rows: Rows

    constructor ()
      ensures rows == map[]
    {
      rows := map[];
    }

    method Create(jti: Jti, row: Row) returns (r: Result<(), RepoError>)
      modifies this
      ensures r.Ok? <==> Insertable(old(rows), jti, row.hash)
      ensures rows == if r.Ok? then old(rows)[jti := row] else old(rows)
    {
      if jti in rows || exists j :: j in rows && rows[j].hash == row.hash {
        return Err(UniqueViolation);
      }
      rows := rows[jti := row];
      return Ok(());
    }

    method GetByID(jti: Jti) returns (r: Result<Row, RepoError>)
      ensures r == if jti in rows then Ok(rows[jti]) else Err(RefreshNotFound)
    {
      if jti !in rows {
        return Err(RefreshNotFound);
      }
      return Ok(rows[jti]);
    }

    /** Updates an unrevoked row only; an already revoked one is left as it is, without an error. */
    method Revoke(jti: Jti, replacedBy: Option<Jti>) returns (r: Result<(), RepoError>)
      modifies this
      ensures rows == M.Revoke(old(rows), jti, replacedBy)
      ensures r == if jti in old(rows) then Ok(()) else Err(RefreshNotFound)
    {
      if jti in rows && !rows[jti].revoked {
        rows := rows[jti := rows[jti].(revoked := true, replacedBy := replacedBy)];
        return Ok(());
      }
      if jti !in rows {
        return Err(RefreshNotFound);
      }
      return Ok(());
    }

    method RevokeAllForUser(user: User)
      modifies this
      ensures rows == M.RevokeAllForUser(old(rows), user)
    {
      rows := map j | j in rows :: if rows[j].user == user && !rows[j].revoked then rows[j].(revoked := true) else rows[j];
    }
  }

  class Service {
    const refresh: RefreshRepo
    var users: set<User>
    ghost var history: Auth

    ghost function View(): Auth
      reads this, refresh
    {
      history.(rows := refresh.rows, users := users)
    }

    constructor ()
      ensures fresh(refresh) && View() == Init()
    {
      refresh := new RefreshRepo();
      users := {};
      history := Init();
    }

    /** Persist the new refresh token's hash. */
    method Mint(user: User, m: Minted) returns (r: Result<Jti, Failure>)
      modifies refresh
      ensures r == if Insertable(old(refresh.rows), m.jti, Sha256(m.token)) then Ok(m.jti) else Err(NotPersisted)
      ensures refresh.rows == if r.Ok? then old(refresh.rows)[m.jti := NewRow(user, m)] else old(refresh.rows)
    {
      var created := refresh.Create(m.jti, NewRow(user, m));
      if created.Err? {
        return Err(NotPersisted);
      }
      return Ok(m.jti);
    }

    /** What Register, Login and the OAuth callback do once they have the account. */
    method IssueTokens(user: User, m: Minted) returns (r: Result<Jti, Failure>)
      requires Tracked(View())
      modifies this`users, this`history, refresh
      ensures (View(), r) == SignIn(old(View()), user, m)
    {
      ghost var after := SignIn(View(), user, m).0;
      users := users + {user};
      r := Mint(user, m);
      history := after;
    }

    /** Check the presented token, mint its successor, then revoke it in the successor's favour. */
    method Refresh(token: string, claims: Option<Jti>, now: nat, m: Minted) returns (r: Result<Jti, Failure>)
      requires Tracked(View())
      modifies this`history, refresh
      ensures (View(), r) == M.Refresh(old(View()), token, claims, now, m)
    {
      ghost var after := M.Refresh(View(), token, claims, now, m).0;
      if claims.None? {
        return Err(InvalidToken);
      }
      var found := refresh.GetByID(claims.value);
      if found.Err? {
        return Err(InvalidToken);
      }
      var stored := found.value;
      if stored.revoked {
        refresh.RevokeAllForUser(stored.user);
        return Err(ReuseDetected);
      }
      if Sha256(token) != stored.hash || !stored.Active(now) {
        return Err(InvalidToken);
      }
      if stored.user !in users {
        return Err(InvalidToken);
      }
      r := Mint(stored.user, m);
      if r.Err? {
        return;
      }
      var revoked := refresh.Revoke(claims.value, Some(m.jti));
      history := after;
    }

    /** Revoke the presented token; invalid input counts as success. */
    method Logout(claims: Option<Jti>)
      requires Tracked(View())
      modifies refresh
      ensures View() == M.Logout(old(View()), claims)
    {
      if claims.None? {
        return;
      }
      var revoked := refresh.Revoke(claims.value, None);
    }
  }
}
