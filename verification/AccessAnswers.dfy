/**
 What each request of the access services answers and writes, field by field, and that the protocol completes:
 an assigned officer who goes through it does get the session.
 */
module AccessAnswers {
  import opened Wrappers
  import opened AccessGrants
  import opened GrantHistory
  import opened OpenGrants

  // ----- the tests, in terms of the fields ---------------------------------------------------------------

  /** The scope names a provider or a case, and not both. */
  predicate OneNamed(scope: Scope) {
    || (scope.provider.Some? && scope.provider.value != "" && (scope.caseId == None || scope.caseId == Some("")))
    || (scope.caseId.Some? && scope.caseId.value != "" && (scope.provider == None || scope.provider == Some("")))
  }

  predicate IsAdmin(r: Role) {
    r == SuperAdmin || r == Admin
  }

  /** An assignment in force for the scope: for its provider if it names one, else for its case. */
  predicate InForce(a: Assignment, staffId: string, scope: Scope) {
    && a.staffId == staffId && a.revokedAt == None
    && (scope.provider.Some? && scope.provider.value != "" ==> a.scope.provider == scope.provider)
    && (scope.provider == None || scope.provider == Some("") ==> a.scope.caseId == scope.caseId)
  }

  predicate Entitled(s: State, actor: Actor, scope: Scope) {
    IsAdmin(actor.role) && exists k :: 0 <= k < |s.assignments| && InForce(s.assignments[k], actor.id, scope)
  }

  /** A grant that stands in the way of a new one: not revoked, and its session, if any, not over. */
  predicate StillOpen(g: Grant, staffId: string, scope: Scope, now: int) {
    && g.staffId == staffId && g.scope == scope && g.status in {Pending, Approved, Redeemed}
    && (g.sessionExpiresAt == None || now < g.sessionExpiresAt.value)
  }

  predicate PasswordRight(e: Env, s: State, id: string, password: string) {
    id in s.users && s.users[id].active && e.compare(password, s.users[id].passwordHash)
  }

  /** A grant whose token was minted from `typed`. */
  predicate Opens(g: Grant, staffId: string, scope: Scope, hash: string) {
    && g.staffId == staffId && g.scope == scope && g.status in {Approved, Redeemed}
    && g.tokenHash == Some(hash) && g.revokedAt == None
  }

  lemma TestsAgree(e: Env, s: State, actor: Actor, scope: Scope, password: string)
    ensures OneNamed(scope) <==> ExactlyOne(scope)
    ensures IsAdmin(actor.role) <==> RawRole(actor.role)
    ensures Entitled(s, actor, scope) <==> RawRole(actor.role) && Assigned(s, actor.id, scope)
    ensures PasswordRight(e, s, actor.id, password) <==> PasswordOk(e, s, actor.id, password)
  {
    assert forall a: Assignment {:trigger Covers(a, actor.id, scope)} ::
        InForce(a, actor.id, scope) <==> Covers(a, actor.id, scope);
    if k :| 0 <= k < |s.assignments| && Covers(s.assignments[k], actor.id, scope) {
      assert InForce(s.assignments[k], actor.id, scope);
    }
  }

  // ----- the answers ----------------------------------------------------------------------------------------

  /** Asking for a grant. */
  lemma RequestAnswered(e: Env, s: State, actor: Actor, scope: Scope, reason: string, hint: nat, now: int)
    ensures var (z, r) := RequestStep(e, s, actor, scope, reason, hint, now);
            if e.trim(reason) == "" || !OneNamed(scope) then r == Err(BadRequest) && z == s
            else if !Entitled(s, actor, scope) then r == Err(Forbidden) && z == s
            else if exists k :: 0 <= k < |s.grants| && StillOpen(s.grants[k], actor.id, scope, now)
            then r.Ok? && z == s && r.value < |s.grants| && StillOpen(s.grants[r.value], actor.id, scope, now)
            else && r == Ok(|s.grants|)
                 && z == s.(grants := s.grants + [Grant(
                           actor.id, scope, e.trim(reason), Pending, None, None, None, None, None, None, None)])
  {
    TestsAgree(e, s, actor, scope, "");
    hide ExactlyOne, OneNamed, Assigned, Entitled, RawRole, Find;
    assert forall g: Grant {:trigger Matches(g, actor.id, scope, Open(now))} ::
        Matches(g, actor.id, scope, Open(now)) <==> StillOpen(g, actor.id, scope, now);
  }

  /** Approving one: the token's digest, and an hour to redeem it. */
  lemma ApproveAnswered(e: Env, s: State, approver: Actor, id: nat, raw: string, now: int)
    ensures var (z, r) := ApproveStep(e, s, approver, id, raw, now);
            if approver.role != SuperAdmin then r == Err(Forbidden) && z == s
            else if id >= |s.grants| then r == Err(NotFound) && z == s
            else if s.grants[id].status != Pending then r == Err(BadRequest) && z == s
            else
              var g := s.grants[id];
              && r == Ok(now + 3_600_000)
              && z == s.(grants := s.grants[id := Grant(
                        g.staffId, g.scope, g.reason, Approved, Some(e.digest(raw)), Some(approver.id), Some(now),
                        Some(now + 3_600_000), g.redeemedAt, g.sessionExpiresAt, g.revokedAt)])
  {
  }

  /** What redeeming grant `k` does: it opens a session of eight hours once, until its deadline. */
  predicate RedeemsTo(s: State, k: nat, now: int, z: State, r: Result<Option<int>>)
    requires k < |s.grants|
  {
    var g := s.grants[k];
    if g.status == Approved && (g.redeemExpiresAt == None || now <= g.redeemExpiresAt.value) then
      && r == Ok(Some(now + 28_800_000))
      && z == s.(grants := s.grants[k := Grant(
                g.staffId, g.scope, g.reason, Redeemed, g.tokenHash, g.approvedBy, g.approvedAt, g.redeemExpiresAt,
                Some(now), Some(now + 28_800_000), g.revokedAt)])
    else if g.status == Redeemed && (g.sessionExpiresAt == None || now <= g.sessionExpiresAt.value) then
      r == Ok(g.sessionExpiresAt) && z == s
    else r == Err(Forbidden) && z == s
  }

  /** Redeeming a token. */
  lemma RedeemAnswered(e: Env, s: State, actor: Actor, scope: Scope, token: string, password: string, hint: nat,
                       now: int)
    ensures var (z, r) := RedeemStep(e, s, actor, scope, token, password, hint, now);
            var typed := e.upper(e.trim(token));
            if typed == "" || password == "" || !OneNamed(scope) then r == Err(BadRequest) && z == s
            else if PasswordRight(e, s, actor.id, password)
                    && exists k :: 0 <= k < |s.grants| && Opens(s.grants[k], actor.id, scope, e.digest(typed))
            then exists k :: && 0 <= k < |s.grants| && Opens(s.grants[k], actor.id, scope, e.digest(typed))
                             && RedeemsTo(s, k, now, z, r)
            else r == Err(Forbidden) && z == s
  {
    var typed := e.upper(e.trim(token));
    TestsAgree(e, s, actor, scope, password);
    hide ExactlyOne, OneNamed, PasswordOk, PasswordRight, Find, RedeemsTo;
    assert forall g: Grant {:trigger Matches(g, actor.id, scope, Token(e.digest(typed)))} ::
        Matches(g, actor.id, scope, Token(e.digest(typed))) <==> Opens(g, actor.id, scope, e.digest(typed));
    var found := Pick(s.grants, actor.id, scope, Token(e.digest(typed)), hint);
    if typed != "" && password != "" && OneNamed(scope) && PasswordRight(e, s, actor.id, password) && found.Some? {
      RedeemedTo(e, s, actor, scope, token, password, hint, now, found.value);
    }
  }

  lemma RedeemedTo(e: Env, s: State, actor: Actor, scope: Scope, token: string, password: string, hint: nat, now: int,
                   k: nat)
    requires var typed := e.upper(e.trim(token));
             && typed != "" && password != "" && ExactlyOne(scope) && PasswordOk(e, s, actor.id, password)
             && Pick(s.grants, actor.id, scope, Token(e.digest(typed)), hint) == Some(k)
    ensures var (z, r) := RedeemStep(e, s, actor, scope, token, password, hint, now);
            k < |s.grants| && Opens(s.grants[k], actor.id, scope, e.digest(e.upper(e.trim(token))))
            && RedeemsTo(s, k, now, z, r)
  {
    hide ExactlyOne, PasswordOk, Find;
  }

  /** Checking for a session. */
  lemma SessionAnswered(s: State, staffId: string, scope: Scope, now: int)
    ensures ActiveSession(s, staffId, scope, now) <==>
            exists k :: 0 <= k < |s.grants| && HasSession(s.grants[k], staffId, scope, now)
  {
    assert forall g: Grant {:trigger Matches(g, staffId, scope, Live(now))} ::
        Matches(g, staffId, scope, Live(now)) <==> HasSession(g, staffId, scope, now);
    if k :| 0 <= k < |s.grants| && Matches(s.grants[k], staffId, scope, Live(now)) {
      assert HasSession(s.grants[k], staffId, scope, now);
    }
  }

  predicate HasSession(g: Grant, staffId: string, scope: Scope, now: int) {
    && g.staffId == staffId && g.scope == scope && g.status == Redeemed && g.revokedAt == None
    && g.sessionExpiresAt.Some? && now < g.sessionExpiresAt.value
  }

  /** Revoking a grant, and withdrawing an assignment: once, and dated. */
  lemma RevokeAnswered(s: State, actor: Actor, id: nat, now: int)
    ensures var (z, r) := RevokeStep(s, actor, id, now);
            if !IsAdmin(actor.role) then r == Some(Forbidden) && z == s
            else if id >= |s.grants| then r == Some(NotFound) && z == s
            else
              var g := s.grants[id];
              && r == None
              && z == if g.revokedAt.Some? then s
                      else s.(grants := s.grants[id := Grant(
                                g.staffId, g.scope, g.reason, Revoked, None, g.approvedBy, g.approvedAt,
                                g.redeemExpiresAt, g.redeemedAt, g.sessionExpiresAt, Some(now))])
    ensures var (z, r) := UnassignStep(s, actor, id, now);
            if !IsAdmin(actor.role) then r == Some(Forbidden) && z == s
            else if id >= |s.assignments| then r == Some(NotFound) && z == s
            else
              var a := s.assignments[id];
              && r == None
              && z == if a.revokedAt.Some? then s
                      else s.(assignments := s.assignments[id := Assignment(
                                a.staffId, a.scope, a.reason, a.grantedBy, Some(now))])
  {
  }

  /** Assigning an officer to a provider or a case. */
  lemma AssignAnswered(e: Env, s: State, actor: Actor, staffId: string, scope: Scope, reason: string, scopeExists: bool)
    ensures var (z, r) := AssignStep(e, s, actor, staffId, scope, reason, scopeExists);
            if !IsAdmin(actor.role) then r == Some(Forbidden) && z == s
            else if !OneNamed(scope) || e.trim(reason) == "" then r == Some(BadRequest) && z == s
            else if staffId !in s.users || !s.users[staffId].active then r == Some(NotFound) && z == s
            else if !IsAdmin(s.users[staffId].role) then r == Some(BadRequest) && z == s
            else if !scopeExists then r == Some(NotFound) && z == s
            else && r == None
                 && z == if exists k :: 0 <= k < |s.assignments| && s.assignments[k].staffId == staffId
                                        && s.assignments[k].scope == scope && s.assignments[k].revokedAt == None
                         then s
                         else s.(assignments := s.assignments + [
                                   Assignment(staffId, scope, e.trim(reason), actor.id, None)])
  {
    TestsAgree(e, s, actor, scope, "");
    if k :| 0 <= k < |s.assignments| && s.assignments[k].staffId == staffId && s.assignments[k].scope == scope
            && s.assignments[k].revokedAt == None {
      assert Holds(s.assignments[k], staffId, scope);
    }
    hide ExactlyOne, OneNamed;
  }

  // ----- the protocol completes -------------------------------------------------------------------------------

  /**
   From any state in which an admin is assigned to a scope, has no grant open for it and nobody's token has this
   digest: asking, a super admin's approval, and redeeming the minted token with the password within the hour
   succeed one after another, and the session then holds until exactly eight hours after the redemption.
   */
  lemma ProtocolCompletes(e: Env, s: State, officer: Actor, scope: Scope, reason: string, approver: Actor, raw: string,
                          token: string, password: string, asked: int, approved: int, redeemed: int, hint: nat)
    requires Entitled(s, officer, scope) && OneNamed(scope) && e.trim(reason) != "" && approver.role == SuperAdmin
    requires PasswordRight(e, s, officer.id, password) && password != ""
    requires e.upper(e.trim(token)) == raw && raw != "" && redeemed <= approved + 3_600_000
    requires forall k | 0 <= k < |s.grants| ::
               !StillOpen(s.grants[k], officer.id, scope, asked)
               && !HasSession(s.grants[k], officer.id, scope, redeemed) && s.grants[k].tokenHash != Some(e.digest(raw))
    ensures var (s1, r1) := RequestStep(e, s, officer, scope, reason, hint, asked);
            r1 == Ok(|s.grants|) &&
            var (s2, r2) := ApproveStep(e, s1, approver, |s.grants|, raw, approved);
            r2 == Ok(approved + 3_600_000) &&
            var (s3, r3) := RedeemStep(e, s2, officer, scope, token, password, hint, redeemed);
            && r3 == Ok(Some(redeemed + 28_800_000))
            && forall t | redeemed <= t :: ActiveSession(s3, officer.id, scope, t) <==> t < redeemed + 28_800_000
  {
    RequestAnswered(e, s, officer, scope, reason, hint, asked);
    var s1 := RequestStep(e, s, officer, scope, reason, hint, asked).0;
    var id := |s.grants|;
    ApproveAnswered(e, s1, approver, id, raw, approved);
    var s2 := ApproveStep(e, s1, approver, id, raw, approved).0;
    RedeemAnswered(e, s2, officer, scope, token, password, hint, redeemed);
    assert Opens(s2.grants[id], officer.id, scope, e.digest(raw));
    var (s3, r3) := RedeemStep(e, s2, officer, scope, token, password, hint, redeemed);
    hide RequestStep, ApproveStep, RedeemStep, ActiveSession, Entitled, OneNamed, PasswordRight;
    forall k | 0 <= k < |s2.grants| && k != id ensures !Opens(s2.grants[k], officer.id, scope, e.digest(raw)) {
      assert s2.grants[k] == s.grants[k];
    }
    assert RedeemsTo(s2, id, redeemed, s3, r3);
    forall t | redeemed <= t ensures ActiveSession(s3, officer.id, scope, t) <==> t < redeemed + 28_800_000 {
      SessionAnswered(s3, officer.id, scope, t);
      if t < redeemed + 28_800_000 { assert HasSession(s3.grants[id], officer.id, scope, t); }
    }
  }
}
