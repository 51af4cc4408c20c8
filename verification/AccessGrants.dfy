/**
 Need-to-know assignments and four-eyes grants: an assigned officer requests access to one provider or one
 case, a super admin approves and mints a one-time token, and the officer redeems it with a password for
 one work session. Requests are atomic; every action carries its own clock reading, in milliseconds.
 */
module AccessGrants {
  import opened Wrappers

  const REDEEM_WINDOW_MS := 60 * 60_000
  const SESSION_MS := 8 * 3_600_000

  /** String trimming and upper-casing, the token digest and the password comparison. */
  datatype Env = Env(
    trim: string -> string,
    upper: string -> string,
    digest: string -> string,
    compare: (string, string) -> bool)

  datatype Role = SuperAdmin | Admin | OtherRole

  predicate RawRole(r: Role) {
    r.SuperAdmin? || r.Admin?
  }

  datatype Actor = Actor(id: string, role: Role)

  datatype User = User(role: Role, active: bool, passwordHash: string)

  /** The provider and case of a request, as sent; an empty name counts as missing. */
  datatype Scope = Scope(provider: Option<string>, caseId: Option<string>)

  predicate Named(x: Option<string>) {
    x.Some? && x.value != ""
  }

  predicate ExactlyOne(scope: Scope) {
    Named(scope.provider) != Named(scope.caseId)
  }

  datatype Assignment = Assignment(staffId: string, scope: Scope, reason: string, grantedBy: string,
                                   revokedAt: Option<int>)

  datatype Status = Pending | Approved | Redeemed | Revoked | Expired

  datatype Grant = Grant(
    staffId: string, scope: Scope, reason: string, status: Status, tokenHash: Option<string>,
    approvedBy: Option<string>, approvedAt: Option<int>, redeemExpiresAt: Option<int>,
    redeemedAt: Option<int>, sessionExpiresAt: Option<int>, revokedAt: Option<int>)

  datatype State = State(users: map<string, User>, assignments: seq<Assignment>, grants: seq<Grant>)

  datatype Error = BadRequest | Forbidden | NotFound

  datatype Result<T> = Ok(value: T) | Err(error: Error)

  // ----- the table lookups ------------------------------------------------------------------------

  /** The three lookups of grants, all for one officer and one scope. */
  datatype Query =
    | Open(now: int)
    | Token(hash: string)
    | Live(now: int)

  predicate Matches(g: Grant, staffId: string, scope: Scope, q: Query) {
    && g.staffId == staffId && g.scope == scope
    && match q
       case Open(now) =>
         && (g.status.Pending? || g.status.Approved? || g.status.Redeemed?)
         && (g.sessionExpiresAt.None? || g.sessionExpiresAt.value > now)
       case Token(hash) =>
         (g.status.Approved? || g.status.Redeemed?) && g.tokenHash == Some(hash) && g.revokedAt.None?
       case Live(now) =>
         g.status.Redeemed? && g.revokedAt.None? && g.sessionExpiresAt.Some? && g.sessionExpiresAt.value > now
  }

  /** The first matching row from `i` on. */
  function Find(gs: seq<Grant>, staffId: string, scope: Scope, q: Query, i: nat): (r: Option<nat>)
    requires i <= |gs|
    ensures r.Some? ==> i <= r.value < |gs| && Matches(gs[r.value], staffId, scope, q)
    ensures r.None? ==> forall k | i <= k < |gs| :: !Matches(gs[k], staffId, scope, q)
    decreases |gs| - i
  {
    if i == |gs| then None
    else if Matches(gs[i], staffId, scope, q) then Some(i)
    else Find(gs, staffId, scope, q, i + 1)
  }

  /** The lookups name no order: whichever matching row `hint` the database reaches first is the answer. */
  function Pick(gs: seq<Grant>, staffId: string, scope: Scope, q: Query, hint: nat): (r: Option<nat>)
    ensures r.Some? ==> r.value < |gs| && Matches(gs[r.value], staffId, scope, q)
    ensures r.None? ==> forall k | 0 <= k < |gs| :: !Matches(gs[k], staffId, scope, q)
  {
    if hint < |gs| && Matches(gs[hint], staffId, scope, q) then Some(hint) else Find(gs, staffId, scope, q, 0)
  }

  /** An active assignment for the provider if one is named, else for the case. */
  predicate Covers(a: Assignment, staffId: string, scope: Scope) {
    && a.staffId == staffId && a.revokedAt.None?
    && if Named(scope.provider) then a.scope.provider == scope.provider else a.scope.caseId == scope.caseId
  }

  predicate Assigned(s: State, staffId: string, scope: Scope) {
    exists k :: 0 <= k < |s.assignments| && Covers(s.assignments[k], staffId, scope)
  }

  predicate Holds(a: Assignment, staffId: string, scope: Scope) {
    a.staffId == staffId && a.scope == scope && a.revokedAt.None?
  }

  // ----- what each request does ---------------------------------------------------------------------

  function AssignStep(e: Env, s: State, actor: Actor, staffId: string, scope: Scope, reason: string, scopeExists: bool)
    : (State, Option<Error>)
  {
    if !RawRole(actor.role) then (s, Some(Forbidden))
    else if !ExactlyOne(scope) then (s, Some(BadRequest))
    else if e.trim(reason) == "" then (s, Some(BadRequest))
    else if staffId !in s.users || !s.users[staffId].active then (s, Some(NotFound))
    else if !RawRole(s.users[staffId].role) then (s, Some(BadRequest))
    else if !scopeExists then (s, Some(NotFound))
    else if exists k :: 0 <= k < |s.assignments| && Holds(s.assignments[k], staffId, scope) then (s, None)
    else (s.(assignments := s.assignments + [Assignment(staffId, scope, e.trim(reason), actor.id, None)]), None)
  }

  function UnassignStep(s: State, actor: Actor, id: nat, now: int): (State, Option<Error>) {
    if !RawRole(actor.role) then (s, Some(Forbidden))
    else if id >= |s.assignments| then (s, Some(NotFound))
    else if s.assignments[id].revokedAt.Some? then (s, None)
    else (s.(assignments := s.assignments[id := s.assignments[id].(revokedAt := Some(now))]), None)
  }

  function RequestStep(e: Env, s: State, actor: Actor, scope: Scope, reason: string, hint: nat, now: int)
    : (State, Result<nat>)
  {
    if e.trim(reason) == "" || !ExactlyOne(scope) then (s, Err(BadRequest))
    else if !RawRole(actor.role) || !Assigned(s, actor.id, scope) then (s, Err(Forbidden))
    else
      match Pick(s.grants, actor.id, scope, Open(now), hint)
      case Some(k) => (s, Ok(k))
      case None => (s.(grants := s.grants + [NewGrant(actor.id, scope, e.trim(reason))]), Ok(|s.grants|))
  }

  function NewGrant(staffId: string, scope: Scope, reason: string): Grant {
    Grant(staffId, scope, reason, Pending, None, None, None, None, None, None, None)
  }

  function SetGrant(s: State, id: nat, g: Grant): State
    requires id < |s.grants|
  {
    s.(grants := s.grants[id := g])
  }

  function ApproveStep(e: Env, s: State, approver: Actor, id: nat, raw: string, now: int): (State, Result<int>) {
    if !approver.role.SuperAdmin? then (s, Err(Forbidden))
    else if id >= |s.grants| then (s, Err(NotFound))
    else if !s.grants[id].status.Pending? then (s, Err(BadRequest))
    else
      (SetGrant(s, id, s.grants[id].(
         status := Approved, tokenHash := Some(e.digest(raw)), approvedBy := Some(approver.id),
         approvedAt := Some(now), redeemExpiresAt := Some(now + REDEEM_WINDOW_MS))),
       Ok(now + REDEEM_WINDOW_MS))
  }

  predicate PasswordOk(e: Env, s: State, id: string, password: string) {
    id in s.users && s.users[id].active && e.compare(password, s.users[id].passwordHash)
  }

  function RedeemStep(e: Env, s: State, actor: Actor, scope: Scope, token: string, password: string, hint: nat,
                      now: int)
    : (State, Result<Option<int>>)
  {
    if e.upper(e.trim(token)) == "" || password == "" || !ExactlyOne(scope) then (s, Err(BadRequest))
    else if !PasswordOk(e, s, actor.id, password) then (s, Err(Forbidden))
    else
      match Pick(s.grants, actor.id, scope, Token(e.digest(e.upper(e.trim(token)))), hint)
      case None => (s, Err(Forbidden))
      case Some(k) =>
        var g := s.grants[k];
        if g.status.Approved? then
          if g.redeemExpiresAt.Some? && g.redeemExpiresAt.value < now then (s, Err(Forbidden))
          else
            (SetGrant(s, k, g.(
               status := Redeemed, redeemedAt := Some(now), sessionExpiresAt := Some(now + SESSION_MS))),
             Ok(Some(now + SESSION_MS)))
        else if g.sessionExpiresAt.Some? && g.sessionExpiresAt.value < now then (s, Err(Forbidden))
        else (s, Ok(g.sessionExpiresAt))
  }

  /** `assertActiveSession` does not throw. */
  predicate ActiveSession(s: State, staffId: string, scope: Scope, now: int) {
    exists k :: 0 <= k < |s.grants| && Matches(s.grants[k], staffId, scope, Live(now))
  }

  function RevokeStep(s: State, actor: Actor, id: nat, now: int): (State, Option<Error>) {
    if !RawRole(actor.role) then (s, Some(Forbidden))
    else if id >= |s.grants| then (s, Some(NotFound))
    else if s.grants[id].revokedAt.Some? then (s, None)
    else (SetGrant(s, id, s.grants[id].(status := Revoked, revokedAt := Some(now), tokenHash := None)), None)
  }

  // ----- the services ---------------------------------------------------------------------------------

  class Db {
    var users: map<string, User>
    var assignments: seq<Assignment>
    var grants: seq<Grant>

    constructor (users: map<string, User>)
      ensures Contents() == State(users, [], [])
    {
      this.users, assignments, grants := users, [], [];
    }

    function Contents(): State
      reads this
    {
      State(users, assignments, grants)
    }

    method FindGrant(staffId: string, scope: Scope, q: Query, hint: nat) returns (r: Option<nat>)
      ensures r == Pick(grants, staffId, scope, q, hint)
    {
      if hint < |grants| && Matches(grants[hint], staffId, scope, q) { return Some(hint); }
      var i := 0;
      while i < |grants|
        invariant i <= |grants|
        invariant Find(grants, staffId, scope, q, 0) == Find(grants, staffId, scope, q, i)
      {
        if Matches(grants[i], staffId, scope, q) { return Some(i); }
        i := i + 1;
      }
      return None;
    }
  }

  class AccessAssignmentService {
    const db: Db
    const e: Env

    constructor (db: Db, e: Env)
      ensures this.db == db && this.e == e
    {
      this.db, this.e := db, e;
    }

    method AssertAccess(staff: Actor, scope: Scope) returns (r: Option<Error>)
      ensures r == if RawRole(staff.role) && Assigned(db.Contents(), staff.id, scope) then None else Some(Forbidden)
    {
      if !RawRole(staff.role) { return Some(Forbidden); }
      var i := 0;
      while i < |db.assignments|
        invariant i <= |db.assignments|
        invariant forall k | 0 <= k < i :: !Covers(db.assignments[k], staff.id, scope)
      {
        if Covers(db.assignments[i], staff.id, scope) { return None; }
        i := i + 1;
      }
      return Some(Forbidden);
    }

    method Grant(actor: Actor, staffId: string, scope: Scope, reason: string, scopeExists: bool)
      returns (r: Option<Error>)
      modifies db`assignments
      ensures (db.Contents(), r) == AssignStep(e, old(db.Contents()), actor, staffId, scope, reason, scopeExists)
    {
      if !RawRole(actor.role) { return Some(Forbidden); }
      if !ExactlyOne(scope) || e.trim(reason) == "" { return Some(BadRequest); }
      if staffId !in db.users || !db.users[staffId].active { return Some(NotFound); }
      if !RawRole(db.users[staffId].role) { return Some(BadRequest); }
      if !scopeExists { return Some(NotFound); }
      var i := 0;
      while i < |db.assignments|
        invariant i <= |db.assignments| && db.assignments == old(db.assignments)
        invariant forall k | 0 <= k < i :: !Holds(db.assignments[k], staffId, scope)
      {
        if Holds(db.assignments[i], staffId, scope) { return None; }
        i := i + 1;
      }
      db.assignments := db.assignments + [Assignment(staffId, scope, e.trim(reason), actor.id, None)];
      return None;
    }

    method Revoke(actor: Actor, id: nat, now: int) returns (r: Option<Error>)
      modifies db`assignments
      ensures (db.Contents(), r) == UnassignStep(old(db.Contents()), actor, id, now)
    {
      if !RawRole(actor.role) { return Some(Forbidden); }
      if id >= |db.assignments| { return Some(NotFound); }
      if db.assignments[id].revokedAt.None? {
        db.assignments := db.assignments[id := db.assignments[id].(revokedAt := Some(now))];
      }
      return None;
    }
  }

  class AccessGrantTokenService {
    const db: Db
    const assignments: AccessAssignmentService
    const e: Env

    constructor (assignments: AccessAssignmentService)
      ensures this.assignments == assignments && db == assignments.db && e == assignments.e
    {
      this.db, this.assignments, this.e := assignments.db, assignments, assignments.e;
    }

    method Request(actor: Actor, scope: Scope, reason: string, hint: nat, now: int) returns (r: Result<nat>)
      requires assignments.db == db && assignments.e == e
      modifies db`grants
      ensures (db.Contents(), r) == RequestStep(e, old(db.Contents()), actor, scope, reason, hint, now)
    {
      if e.trim(reason) == "" || !ExactlyOne(scope) { return Err(BadRequest); }
      var refused := assignments.AssertAccess(actor, scope);
      if refused.Some? { return Err(refused.value); }
      var existing := db.FindGrant(actor.id, scope, Open(now), hint);
      if existing.Some? { return Ok(existing.value); }
      r := Ok(|db.grants|);
      db.grants := db.grants + [NewGrant(actor.id, scope, e.trim(reason))];
    }

    method Approve(approver: Actor, id: nat, raw: string, now: int) returns (r: Result<int>)
      modifies db`grants
      ensures (db.Contents(), r) == ApproveStep(e, old(db.Contents()), approver, id, raw, now)
    {
      if !approver.role.SuperAdmin? { return Err(Forbidden); }
      if id >= |db.grants| { return Err(NotFound); }
      if !db.grants[id].status.Pending? { return Err(BadRequest); }
      var redeemExpiresAt := now + REDEEM_WINDOW_MS;
      db.grants := db.grants[id := db.grants[id].(
        status := Approved, tokenHash := Some(e.digest(raw)), approvedBy := Some(approver.id),
        approvedAt := Some(now), redeemExpiresAt := Some(redeemExpiresAt))];
      r := Ok(redeemExpiresAt);
    }

    method Redeem(actor: Actor, scope: Scope, token: string, password: string, hint: nat, now: int)
      returns (r: Result<Option<int>>)
      modifies db`grants
      ensures (db.Contents(), r) == RedeemStep(e, old(db.Contents()), actor, scope, token, password, hint, now)
    {
      var canonical := e.upper(e.trim(token));
      if canonical == "" || password == "" || !ExactlyOne(scope) { return Err(BadRequest); }
      if !PasswordOk(e, db.Contents(), actor.id, password) { return Err(Forbidden); }
      var found := db.FindGrant(actor.id, scope, Token(e.digest(canonical)), hint);
      if found.None? { return Err(Forbidden); }
      var g := db.grants[found.value];
      if g.status.Approved? {
        if g.redeemExpiresAt.Some? && g.redeemExpiresAt.value < now { return Err(Forbidden); }
        var sessionExpiresAt := now + SESSION_MS;
        db.grants := db.grants[found.value := g.(
          status := Redeemed, redeemedAt := Some(now), sessionExpiresAt := Some(sessionExpiresAt))];
        return Ok(Some(sessionExpiresAt));
      }
      if g.sessionExpiresAt.Some? && g.sessionExpiresAt.value < now { return Err(Forbidden); }
      return Ok(g.sessionExpiresAt);
    }

    method AssertActiveSession(staffId: string, scope: Scope, now: int) returns (passes: bool)
      ensures passes <==> ActiveSession(db.Contents(), staffId, scope, now)
    {
      var found := db.FindGrant(staffId, scope, Live(now), 0);
      return found.Some?;
    }

    method Revoke(actor: Actor, id: nat, now: int) returns (r: Option<Error>)
      modifies db`grants
      ensures (db.Contents(), r) == RevokeStep(old(db.Contents()), actor, id, now)
    {
      if !RawRole(actor.role) { return Some(Forbidden); }
      if id >= |db.grants| { return Some(NotFound); }
      if db.grants[id].revokedAt.None? {
        db.grants := db.grants[id := db.grants[id].(status := Revoked, revokedAt := Some(now), tokenHash := None)];
      }
      return None;
    }
  }

  // ----- runs -------------------------------------------------------------------------------------------

  datatype Action =
    | Assign(actor: Actor, staffId: string, scope: Scope, reason: string, scopeExists: bool, now: int)
    | Unassign(actor: Actor, id: nat, now: int)
    | Request(actor: Actor, scope: Scope, reason: string, hint: nat, now: int)
    | Approve(actor: Actor, id: nat, raw: string, now: int)
    | Redeem(actor: Actor, scope: Scope, token: string, password: string, hint: nat, now: int)
    | Revoke(actor: Actor, id: nat, now: int)
    | SetUser(staffId: string, user: User, now: int)  // another service creates or changes an account

  function Step(e: Env, s: State, a: Action): State {
    match a
    case Assign(actor, staffId, scope, reason, scopeExists, _) =>
      AssignStep(e, s, actor, staffId, scope, reason, scopeExists).0
    case Unassign(actor, id, now) => UnassignStep(s, actor, id, now).0
    case Request(actor, scope, reason, hint, now) => RequestStep(e, s, actor, scope, reason, hint, now).0
    case Approve(actor, id, raw, now) => ApproveStep(e, s, actor, id, raw, now).0
    case Redeem(actor, scope, token, password, hint, now) =>
      RedeemStep(e, s, actor, scope, token, password, hint, now).0
    case Revoke(actor, id, now) => RevokeStep(s, actor, id, now).0
    case SetUser(id, user, _) => s.(users := s.users[id := user])
  }

  function Exec(e: Env, s: State, actions: seq<Action>): State {
    if actions == [] then s else Step(e, Exec(e, s, actions[..|actions| - 1]), actions[|actions| - 1])
  }

  function Start(users: map<string, User>): State {
    State(users, [], [])
  }

  lemma ExecSnoc(e: Env, s: State, actions: seq<Action>, a: Action)
    ensures Exec(e, s, actions + [a]) == Step(e, Exec(e, s, actions), a)
  {
    assert (actions + [a])[..|actions|] == actions;
  }
}
