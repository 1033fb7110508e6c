/**
 * Refresh tokens (refresh-token.service.ts and resetPassword of
 * auth.service.ts), one statement at a time: several requests may be in flight
 * and any of them may stop between two statements. A token is named by the
 * position of its row, since hashes are taken to be injective. E-mail addresses
 * are stored folded to lower case. Times are minutes.
 */
module RefreshTokens {
  import opened Prelude

  datatype Family = Family(userId: int, tenant: string, role: string)

  datatype Claims = Claims(family: Family, email: string, version: nat)

  datatype Token = Token(claims: Claims, expiresAt: int, revokedAt: Option<int>)

  datatype Person = Person(email: string, role: string, active: bool, version: nat)

  datatype UserKey = UserKey(tenant: string, userId: int)

  datatype Directory = Directory(people: map<UserKey, Person>, activeTenants: set<string>)

  const REFRESH_TTL := 30 * 24 * 60

  function KeyOf(claims: Claims): UserKey {
    UserKey(claims.family.tenant, claims.family.userId)
  }

  // ------------------------------------------------------------- statements

  predicate Live(t: Token, now: int) {
    t.revokedAt.None? && t.expiresAt > now
  }

  function Revoked(t: Token, now: int): Token {
    if t.revokedAt.None? then t.(revokedAt := Some(now)) else t
  }

  function IssueRow(rows: seq<Token>, claims: Claims, now: int): seq<Token> {
    rows + [Token(claims, now + REFRESH_TTL, None)]
  }

  /** The rotating update takes a live token. */
  predicate Takes(rows: seq<Token>, k: nat, now: int) {
    k < |rows| && Live(rows[k], now)
  }

  function RevokeOne(rows: seq<Token>, k: nat, now: int): seq<Token> {
    if k < |rows| then rows[k := Revoked(rows[k], now)] else rows
  }

  function RevokeFamily(rows: seq<Token>, family: Family, now: int): (after: seq<Token>)
    ensures |after| == |rows|
    ensures forall k :: 0 <= k < |rows| ==> after[k] == if rows[k].claims.family == family then Revoked(rows[k], now) else rows[k]
  {
    seq(|rows|, k requires 0 <= k < |rows| => if rows[k].claims.family == family then Revoked(rows[k], now) else rows[k])
  }

  /** The user a token was issued to is still the same, active and of the same version. */
  predicate StillValid(d: Directory, claims: Claims) {
    && claims.family.tenant in d.activeTenants
    && KeyOf(claims) in d.people
    && var p := d.people[KeyOf(claims)];
       (p.active && p.email == claims.email && p.role == claims.family.role && p.version == claims.version)
  }

  function Bumped(p: Person): Person {
    p.(version := p.version + 1)
  }

  // ---------------------------------------------------------------- machine

  datatype Phase = Taken(token: nat) | Missed(missed: nat) | MustRevoke(family: Family)

  datatype Auth = Auth(rows: seq<Token>, directory: Directory, requests: map<nat, Phase>)

  /**
   * `ResetPassword` is a reset by mail or a change by hand (users.service.ts),
   * which issue the same statements.
   */
  datatype Step =
    | Issue(claims: Claims, now: int)
    | Take(request: nat, token: nat, now: int)
    | Check(request: nat)
    | Look(request: nat)
    | RevokeStep(request: nat, now: int)
    | Abandon(request: nat)
    | Logout(token: nat, now: int)
    | LogoutAll(family: Family, now: int)
    | ResetPassword(key: UserKey, role: string, now: int)
    | ChangePerson(key: UserKey, email: string, role: string, active: bool)
    | AddPerson(key: UserKey, email: string, role: string)
    | SetTenants(tenants: set<string>)

  /** Claims are always read from the user's row or copied from an earlier token. */
  predicate ClaimsRead(d: Directory, claims: Claims) {
    KeyOf(claims) in d.people && claims.version <= d.people[KeyOf(claims)].version
  }

  predicate Enabled(s: Auth, step: Step) {
    match step
    case Issue(claims, _) => ClaimsRead(s.directory, claims)
    case Take(request, _, _) => request !in s.requests
    case Check(request) => request in s.requests && s.requests[request].Taken? && s.requests[request].token < |s.rows|
    case Look(request) => request in s.requests && s.requests[request].Missed?
    case RevokeStep(request, _) => request in s.requests && s.requests[request].MustRevoke?
    case ResetPassword(key, _, _) => key in s.directory.people
    case ChangePerson(key, _, _, _) => key in s.directory.people
    case AddPerson(key, _, _) => key !in s.directory.people
    case _ => true
  }

  function SetPerson(s: Auth, key: UserKey, p: Person): Auth {
    s.(directory := s.directory.(people := s.directory.people[key := p]))
  }

  function Apply(s: Auth, step: Step): Auth {
    if !Enabled(s, step) then s else
    match step
    case Issue(claims, now) => s.(rows := IssueRow(s.rows, claims, now))
    case Take(request, k, now) =>
      if Takes(s.rows, k, now) then s.(rows := RevokeOne(s.rows, k, now), requests := s.requests[request := Taken(k)])
      else s.(requests := s.requests[request := Missed(k)])
    case Check(request) =>
      var claims := s.rows[s.requests[request].token].claims;
      if StillValid(s.directory, claims) then s.(requests := s.requests - {request})
      else s.(requests := s.requests[request := MustRevoke(claims.family)])
    case Look(request) =>
      var k := s.requests[request].missed;
      if k < |s.rows| && s.rows[k].revokedAt.Some? then s.(requests := s.requests[request := MustRevoke(s.rows[k].claims.family)])
      else s.(requests := s.requests - {request})
    case RevokeStep(request, now) =>
      s.(rows := RevokeFamily(s.rows, s.requests[request].family, now), requests := s.requests - {request})
    case Abandon(request) => s.(requests := s.requests - {request})
    case Logout(k, now) => s.(rows := RevokeOne(s.rows, k, now))
    case LogoutAll(family, now) => s.(rows := RevokeFamily(s.rows, family, now))
    case ResetPassword(key, role, now) =>
      SetPerson(s, key, Bumped(s.directory.people[key])).(rows := RevokeFamily(s.rows, Family(key.userId, key.tenant, role), now))
    case ChangePerson(key, email, role, active) =>
      SetPerson(s, key, s.directory.people[key].(email := email, role := role, active := active))
    case AddPerson(key, email, role) => SetPerson(s, key, Person(email, role, true, 0))
    case SetTenants(tenants) => s.(directory := s.directory.(activeTenants := tenants))
  }

  function Run(s: Auth, steps: seq<Step>): Auth {
    if steps == [] then s else Apply(Run(s, steps[..|steps| - 1]), steps[|steps| - 1])
  }

  /** The step hands out the claims of a token: its consumption succeeds. */
  predicate Succeeds(s: Auth, step: Step, token: nat) {
    && step.Check? && Enabled(s, step) && s.requests[step.request].token == token
    && StillValid(s.directory, s.rows[token].claims)
  }

  function Successes(s: Auth, steps: seq<Step>, token: nat): nat {
    if steps == [] then 0
    else
      var before := steps[..|steps| - 1];
      Successes(s, before, token) + if Succeeds(Run(s, before), steps[|steps| - 1], token) then 1 else 0
  }

  // --------------------------------------------------------- rows only grow

  ghost predicate Extends(after: Auth, before: Auth) {
    && |before.rows| <= |after.rows|
    && (forall k :: 0 <= k < |before.rows| ==>
          && after.rows[k].claims == before.rows[k].claims && after.rows[k].expiresAt == before.rows[k].expiresAt
          && (before.rows[k].revokedAt.Some? ==> after.rows[k].revokedAt == before.rows[k].revokedAt))
    && (forall key :: key in before.directory.people ==>
          key in after.directory.people && before.directory.people[key].version <= after.directory.people[key].version)
  }

  lemma ApplyExtends(s: Auth, step: Step)
    ensures Extends(Apply(s, step), s)
  {
  }

  /** In every run a revocation keeps its instant and versions never go back. */
  lemma {:induction false} RunExtends(s: Auth, steps: seq<Step>)
    ensures Extends(Run(s, steps), s)
  {
    if steps != [] {
      RunExtends(s, steps[..|steps| - 1]);
      ApplyExtends(Run(s, steps[..|steps| - 1]), steps[|steps| - 1]);
    }
  }

  // ------------------------------------------------------ consumed only once

  /** A request holding a token holds it alone, and the token is revoked. */
  ghost predicate HoldersSound(s: Auth) {
    && (forall r :: r in s.requests && s.requests[r].Taken? ==>
          s.requests[r].token < |s.rows| && s.rows[s.requests[r].token].revokedAt.Some?)
    && (forall r, q :: r in s.requests && q in s.requests && r != q && s.requests[r].Taken? && s.requests[q].Taken? ==>
          s.requests[r].token != s.requests[q].token)
  }

  ghost predicate Held(s: Auth, token: nat) {
    exists r :: r in s.requests && s.requests[r] == Taken(token)
  }

  lemma ApplyHolders(s: Auth, step: Step)
    requires HoldersSound(s)
    ensures HoldersSound(Apply(s, step))
  {
    hide StillValid, ClaimsRead;
  }

  /** A token can be consumed while it is unrevoked, or once more while a request holds it. */
  ghost function Chances(s: Auth, token: nat): nat {
    if token >= |s.rows| || s.rows[token].revokedAt.None? || Held(s, token) then 1 else 0
  }

  lemma ChancesSpent(s: Auth, step: Step, token: nat)
    requires HoldersSound(s)
    ensures Chances(Apply(s, step), token) + (if Succeeds(s, step, token) then 1 else 0) <= Chances(s, token)
  {
    var after := Apply(s, step);
    if Held(after, token) && !Held(s, token) {
      var r :| r in after.requests && after.requests[r] == Taken(token);
      assert step.Take? && step.request == r;
    }
    if Succeeds(s, step, token) {
      assert s.requests[step.request] == Taken(token);
      assert !Held(after, token);
    }
  }

  /** In every run a token is consumed successfully at most once, and never if it starts revoked. */
  lemma {:induction false} ConsumedAtMostOnce(s: Auth, steps: seq<Step>, token: nat)
    requires HoldersSound(s)
    ensures HoldersSound(Run(s, steps))
    ensures Successes(s, steps, token) + Chances(Run(s, steps), token) <= Chances(s, token) <= 1
  {
    if steps != [] {
      var before := Run(s, steps[..|steps| - 1]);
      ConsumedAtMostOnce(s, steps[..|steps| - 1], token);
      ApplyHolders(before, steps[|steps| - 1]);
      ChancesSpent(before, steps[|steps| - 1], token);
    }
  }

  // ------------------------------------------------------------ old versions

  ghost predicate VersionsSound(s: Auth) {
    forall k :: 0 <= k < |s.rows| ==> ClaimsRead(s.directory, s.rows[k].claims)
  }

  lemma {:induction false} RunVersions(s: Auth, steps: seq<Step>)
    requires VersionsSound(s)
    ensures VersionsSound(Run(s, steps))
  {
    if steps != [] {
      var before, step := Run(s, steps[..|steps| - 1]), steps[|steps| - 1];
      RunVersions(s, steps[..|steps| - 1]);
      ApplyExtends(before, step);
      var after := Apply(before, step);
      forall k | 0 <= k < |after.rows| ensures ClaimsRead(after.directory, after.rows[k].claims) {
        if k < |before.rows| { assert ClaimsRead(before.directory, before.rows[k].claims); }
      }
    }
  }

  /** A token older than its user's version never succeeds again. */
  lemma {:induction false} StaleNeverSucceeds(s: Auth, steps: seq<Step>, token: nat)
    requires token < |s.rows| && KeyOf(s.rows[token].claims) in s.directory.people
    requires s.rows[token].claims.version < s.directory.people[KeyOf(s.rows[token].claims)].version
    ensures Successes(s, steps, token) == 0
  {
    if steps != [] {
      StaleNeverSucceeds(s, steps[..|steps| - 1], token);
      RunExtends(s, steps[..|steps| - 1]);
    }
  }

  /**
   * After the password was reset or changed no token the user had before it succeeds, in any run,
   * not even one a request was already holding.
   */
  lemma ResetEndsSessions(s: Auth, key: UserKey, role: string, now: int, steps: seq<Step>, token: nat)
    requires VersionsSound(s) && key in s.directory.people
    requires token < |s.rows| && KeyOf(s.rows[token].claims) == key
    ensures Successes(Apply(s, ResetPassword(key, role, now)), steps, token) == 0
  {
    assert ClaimsRead(s.directory, s.rows[token].claims);
    StaleNeverSucceeds(Apply(s, ResetPassword(key, role, now)), steps, token);
  }

  // ---------------------------------------------------------- reuse detection

  ghost predicate NoLiveToken(s: Auth, family: Family) {
    forall k :: 0 <= k < |s.rows| && s.rows[k].claims.family == family ==> s.rows[k].revokedAt.Some?
  }

  /**
   * Replaying a revoked token, whatever else runs in between, ends with its
   * family revoked: the lookup finds it and the next statement leaves no live
   * token of the same user, tenant and role.
   */
  lemma ReplayRevokesFamily(s: Auth, request: nat, token: nat, first: int, between: seq<Step>, later: seq<Step>, now: int)
    requires token < |s.rows| && s.rows[token].revokedAt.Some? && request !in s.requests
    requires Untouched(between, request) && Untouched(later, request)
    ensures var looked := Apply(Run(Apply(s, Take(request, token, first)), between), Look(request));
            NoLiveToken(Apply(Run(looked, later), RevokeStep(request, now)), s.rows[token].claims.family)
  {
    var taken := Apply(s, Take(request, token, first));
    RequestKept(taken, between, request);
    RunExtends(taken, between);
    var middle := Run(taken, between);
    var looked := Apply(middle, Look(request));
    assert looked.requests[request] == MustRevoke(s.rows[token].claims.family);
    RequestKept(looked, later, request);
    var last := Run(looked, later);
    forall k | 0 <= k < |last.rows| && last.rows[k].claims.family == s.rows[token].claims.family
      ensures Apply(last, RevokeStep(request, now)).rows[k].revokedAt.Some?
    {
    }
  }

  /** Steps of other requests. */
  ghost predicate Untouched(steps: seq<Step>, request: nat) {
    forall i :: 0 <= i < |steps| ==> !Moves(steps[i], request)
  }

  predicate Moves(step: Step, request: nat) {
    match step
    case Take(r, _, _) => r == request
    case Check(r) => r == request
    case Look(r) => r == request
    case RevokeStep(r, _) => r == request
    case Abandon(r) => r == request
    case _ => false
  }

  lemma {:induction false} RequestKept(s: Auth, steps: seq<Step>, request: nat)
    requires Untouched(steps, request) && request in s.requests
    ensures request in Run(s, steps).requests && Run(s, steps).requests[request] == s.requests[request]
  {
    if steps != [] {
      RequestKept(s, steps[..|steps| - 1], request);
      assert !Moves(steps[|steps| - 1], request);
    }
  }

  /** A revoked family stays dead until a token is issued to it. */
  lemma {:induction false} FamilyStaysDead(s: Auth, steps: seq<Step>, family: Family)
    requires NoLiveToken(s, family)
    requires forall i :: 0 <= i < |steps| ==> !(steps[i].Issue? && steps[i].claims.family == family)
    ensures NoLiveToken(Run(s, steps), family)
  {
    if steps != [] {
      FamilyStaysDead(s, steps[..|steps| - 1], family);
      var before := Run(s, steps[..|steps| - 1]);
      ApplyExtends(before, steps[|steps| - 1]);
    }
  }

  // -------------------------------------------------------- what a success needs

  /** Step i takes the token before it expires and before anyone revoked it. */
  predicate TakenInTime(s: Auth, steps: seq<Step>, i: nat, request: nat, token: nat) {
    && i < |steps| && steps[i].Take? && steps[i].request == request && steps[i].token == token
    && var rows := Run(s, steps[..i]).rows;
    && token < |rows| && rows[token].revokedAt.None? && steps[i].now < rows[token].expiresAt
  }

  /** Step j finds an active tenant and its active user with the address, role and version of the token. */
  predicate CheckedWhileUnchanged(s: Auth, steps: seq<Step>, j: nat, request: nat, token: nat) {
    && j < |steps| && steps[j] == Check(request)
    && var before := Run(s, steps[..j]);
    && token < |before.rows|
    && var claims, people := before.rows[token].claims, before.directory.people;
    && claims.family.tenant in before.directory.activeTenants
    && UserKey(claims.family.tenant, claims.family.userId) in people
    && var person := people[UserKey(claims.family.tenant, claims.family.userId)];
    && person.active && person.email == claims.email && person.role == claims.family.role && person.version == claims.version
  }

  ghost predicate HeldInTime(s: Auth, steps: seq<Step>, token: nat) {
    forall r :: r in Run(s, steps).requests && Run(s, steps).requests[r] == Taken(token) ==>
      exists i: nat :: TakenInTime(s, steps, i, r, token)
  }

  lemma {:induction false} HoldersTookInTime(s: Auth, steps: seq<Step>, token: nat)
    requires !Held(s, token)
    ensures HeldInTime(s, steps, token)
  {
    if steps != [] {
      var before, last := steps[..|steps| - 1], |steps| - 1;
      HoldersTookInTime(s, before, token);
      forall r | r in Run(s, steps).requests && Run(s, steps).requests[r] == Taken(token)
        ensures exists i: nat :: TakenInTime(s, steps, i, r, token)
      {
        if r in Run(s, before).requests && Run(s, before).requests[r] == Taken(token) {
          var i: nat :| TakenInTime(s, before, i, r, token);
          assert before[..i] == steps[..i];
          assert TakenInTime(s, steps, i, r, token);
        } else {
          assert TakenInTime(s, steps, last, r, token);
        }
      }
    }
  }

  /**
   * In every run a token that succeeds was taken by some request while it was
   * neither revoked nor expired, and then checked by the same request while its
   * user was unchanged.
   */
  lemma {:induction false} SuccessExplained(s: Auth, steps: seq<Step>, token: nat)
    requires !Held(s, token) && Successes(s, steps, token) > 0
    ensures exists i: nat, j: nat, request: nat :: i < j && TakenInTime(s, steps, i, request, token) && CheckedWhileUnchanged(s, steps, j, request, token)
  {
    var before, last := steps[..|steps| - 1], |steps| - 1;
    if Succeeds(Run(s, before), steps[last], token) {
      var request := steps[last].request;
      HoldersTookInTime(s, before, token);
      var i: nat :| TakenInTime(s, before, i, request, token);
      assert before[..i] == steps[..i];
      assert TakenInTime(s, steps, i, request, token) && CheckedWhileUnchanged(s, steps, last, request, token);
    } else {
      SuccessExplained(s, before, token);
      var i: nat, j: nat, request: nat :| i < j && TakenInTime(s, before, i, request, token) && CheckedWhileUnchanged(s, before, j, request, token);
      assert before[..i] == steps[..i] && before[..j] == steps[..j];
      assert TakenInTime(s, steps, i, request, token) && CheckedWhileUnchanged(s, steps, j, request, token);
    }
  }

  /** A token that is presented only once it has expired never succeeds. */
  lemma ExpiredNeverSucceeds(s: Auth, steps: seq<Step>, token: nat)
    requires !Held(s, token)
    requires forall i :: 0 <= i < |steps| && steps[i].Take? && steps[i].token == token && token < |Run(s, steps[..i]).rows| ==>
               Run(s, steps[..i]).rows[token].expiresAt <= steps[i].now
    ensures Successes(s, steps, token) == 0
  {
    assert forall i: nat, request: nat :: !TakenInTime(s, steps, i, request, token);
    if Successes(s, steps, token) > 0 {
      SuccessExplained(s, steps, token);
      assert false;
    }
  }
}
