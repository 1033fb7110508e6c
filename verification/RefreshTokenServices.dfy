/** Token requests run from start to end, over the tables they update. */
module RefreshTokenServices {
  import opened Prelude
  import opened RefreshTokens
  import PR = PasswordResets

  datatype AuthError = Unauthorized | InvalidResetToken

  datatype ResetRecord = ResetRecord(key: UserKey, expiresAt: int, used: bool)

  class TokenTables {
    var rows: seq<Token>
    var directory: Directory
    var resets: seq<ResetRecord>

    constructor (directory: Directory)
      ensures Now() == Auth([], directory, map[]) && resets == []
    {
      rows, resets := [], [];
      this.directory := directory;
    }

    /** The tables, with no request in flight. */
    function Now(): Auth
      reads this
    {
      Auth(rows, directory, map[])
    }
  }

  /** Which reset records were used. */
  function UsedOf(resets: seq<ResetRecord>): (used: seq<bool>)
    ensures |used| == |resets| && forall i :: 0 <= i < |resets| ==> used[i] == resets[i].used
  {
    seq(|resets|, i requires 0 <= i < |resets| => resets[i].used)
  }

  function ConsumeSteps(s: Auth, token: nat, now: int): seq<Step> {
    if Takes(s.rows, token, now) then
      if StillValid(s.directory, s.rows[token].claims) then [Take(0, token, now), Check(0)]
      else [Take(0, token, now), Check(0), RevokeStep(0, now)]
    else if token < |s.rows| && s.rows[token].revokedAt.Some? then [Take(0, token, now), Look(0), RevokeStep(0, now)]
    else [Take(0, token, now), Look(0)]
  }

  lemma RunThree(s: Auth, a: Step, b: Step, c: Step)
    ensures Run(s, [a, b]) == Apply(Apply(s, a), b)
    ensures Run(s, [a, b, c]) == Apply(Apply(Apply(s, a), b), c)
  {
    assert [a, b, c][..2] == [a, b] && [a, b][..1] == [a] && [a][..0] == [];
    assert Run(s, [a]) == Apply(Run(s, []), a);
  }

  /** What the statements of one consumption do when nothing runs between them. */
  lemma ConsumeRuns(s: Auth, token: nat, now: int)
    requires s.requests == map[]
    ensures Run(s, ConsumeSteps(s, token, now)) == s.(rows :=
              if Takes(s.rows, token, now) then
                if StillValid(s.directory, s.rows[token].claims) then RevokeOne(s.rows, token, now)
                else RevokeFamily(RevokeOne(s.rows, token, now), s.rows[token].claims.family, now)
              else if token < |s.rows| && s.rows[token].revokedAt.Some? then RevokeFamily(s.rows, s.rows[token].claims.family, now)
              else s.rows)
  {
    hide Run, StillValid;
    RunThree(s, Take(0, token, now), Check(0), RevokeStep(0, now));
    RunThree(s, Take(0, token, now), Look(0), RevokeStep(0, now));
    if Takes(s.rows, token, now) {
      assert RevokeOne(s.rows, token, now)[token].claims == s.rows[token].claims;
    }
  }

  class RefreshTokenService {
    const db: TokenTables

    constructor (db: TokenTables)
      ensures this.db == db
    {
      this.db := db;
    }

    /** The number of the new token stands for the secret handed to the client. */
    method IssueToken(claims: Claims, now: int) returns (token: nat)
      modifies db`rows
      ensures db.rows == old(db.rows) + [Token(claims, now + 30 * 24 * 60, None)] && token == |old(db.rows)|
      ensures Takes(db.rows, token, now)
      ensures ClaimsRead(db.directory, claims) ==> db.Now() == Apply(old(db.Now()), Issue(claims, now))
    {
      token := |db.rows|;
      db.rows := IssueRow(db.rows, claims, now);
    }

    /** Rotation: a live token of an unchanged user is used up; a replay revokes the family. */
    method Consume(token: nat, now: int) returns (r: Result<Claims, AuthError>)
      modifies db`rows
      ensures r.Ok? <==>
              && token < |old(db.rows)| && old(db.rows)[token].revokedAt.None? && old(db.rows)[token].expiresAt > now
              && var claims := old(db.rows)[token].claims;
              && claims.family.tenant in db.directory.activeTenants
              && UserKey(claims.family.tenant, claims.family.userId) in db.directory.people
              && var person := db.directory.people[UserKey(claims.family.tenant, claims.family.userId)];
              && person.active && person.email == claims.email && person.role == claims.family.role && person.version == claims.version
      ensures r.Ok? ==>
                && r.value == old(db.rows)[token].claims
                && db.rows == old(db.rows)[token := old(db.rows)[token].(revokedAt := Some(now))]
      ensures db.Now() == Run(old(db.Now()), ConsumeSteps(old(db.Now()), token, now))
      ensures r.Err? && token < |old(db.rows)| && (old(db.rows)[token].revokedAt.Some? || old(db.rows)[token].expiresAt > now) ==>
                NoLiveToken(db.Now(), old(db.rows)[token].claims.family)
    {
      hide Run, ConsumeSteps;
      ConsumeRuns(db.Now(), token, now);
      if Takes(db.rows, token, now) {
        db.rows := RevokeOne(db.rows, token, now);
        var claims := db.rows[token].claims;
        if !StillValid(db.directory, claims) {
          RevokeAll(claims.family, now);
          return Err(Unauthorized);
        }
        return Ok(claims);
      }
      RevokeOnReuse(token, now);
      return Err(Unauthorized);
    }

    method RevokeOnReuse(token: nat, now: int)
      modifies db`rows
      ensures db.rows == if token < |old(db.rows)| && old(db.rows)[token].revokedAt.Some?
                         then RevokeFamily(old(db.rows), old(db.rows)[token].claims.family, now) else old(db.rows)
    {
      if token < |db.rows| && db.rows[token].revokedAt.Some? {
        RevokeAll(db.rows[token].claims.family, now);
      }
    }

    method RevokeAll(family: Family, now: int)
      modifies db`rows
      ensures db.rows == RevokeFamily(old(db.rows), family, now)
      ensures NoLiveToken(db.Now(), family)
    {
      db.rows := RevokeFamily(db.rows, family, now);
    }

    method Revoke(token: nat, now: int) returns (owner: Option<Family>)
      modifies db`rows
      ensures db.rows == RevokeOne(old(db.rows), token, now)
      ensures owner == if token < |old(db.rows)| && old(db.rows)[token].revokedAt.None?
                       then Some(old(db.rows)[token].claims.family) else None
    {
      owner := None;
      if token < |db.rows| && db.rows[token].revokedAt.None? {
        owner := Some(db.rows[token].claims.family);
        db.rows := db.rows[token := db.rows[token].(revokedAt := Some(now))];
      }
    }
  }

  class AuthService {
    const db: TokenTables

    constructor (db: TokenTables)
      ensures this.db == db
    {
      this.db := db;
    }

    /**
     * Run undisturbed: version, reset record and sessions change together, and the
     * record is found and used as two steps of `PasswordResets`.
     */
    method ResetUserPassword(record: nat, now: int) returns (r: Result<UserKey, AuthError>)
      modifies db
      ensures r.Ok? <==> record < |old(db.resets)| && !old(db.resets)[record].used && old(db.resets)[record].expiresAt > now
      ensures r.Err? ==> db.Now() == old(db.Now()) && db.resets == old(db.resets)
      ensures r.Ok? ==>
                && r.value == old(db.resets)[record].key
                && db.resets == old(db.resets)[record := old(db.resets)[record].(used := true)]
                && db.Now() == if r.value in old(db.directory).people
                               then Apply(old(db.Now()), ResetPassword(r.value, old(db.directory).people[r.value].role, now))
                               else old(db.Now())
      ensures r.Ok? ==>
                PR.Run(PR.State(UsedOf(old(db.resets)), map[]), [PR.Find(0, record), PR.Commit(0)]) == PR.State(UsedOf(db.resets), map[])
      ensures r.Ok? && r.value in db.directory.people ==>
                NoLiveToken(db.Now(), Family(r.value.userId, r.value.tenant, db.directory.people[r.value].role))
    {
      if record >= |db.resets| || db.resets[record].used || db.resets[record].expiresAt <= now {
        return Err(InvalidResetToken);
      }
      PR.ResetIsRun(UsedOf(db.resets), record);
      var key := db.resets[record].key;
      db.resets := db.resets[record := db.resets[record].(used := true)];
      if key in db.directory.people {
        var person := db.directory.people[key];
        db.directory := db.directory.(people := db.directory.people[key := person.(version := person.version + 1)]);
        db.rows := RevokeFamily(db.rows, Family(key.userId, key.tenant, person.role), now);
      }
      return Ok(key);
    }
  }
}
