/**
 Open grants over whole runs: at most one per officer and scope, deadlines set once, immediate revocation,
 timely redemption, and the approval that lapses.
 */
module OpenGrants {
  import opened Wrappers
  import opened AccessGrants
  import opened GrantHistory

  // ----- at most one open grant

  /** No request of the run read a clock later than `now`. */
  predicate RequestedBy(actions: seq<Action>, now: int) {
    forall i | 0 <= i < |actions| && actions[i].Request? :: actions[i].now <= now
  }

  /** Action `i` of the run is the request that created grant `id`. */
  predicate CreatedAt(e: Env, s: State, actions: seq<Action>, i: nat, id: nat) {
    i < |actions| && actions[i].Request?
    && |Exec(e, s, actions[..i]).grants| == id < |Exec(e, s, actions[..i + 1]).grants|
  }

  predicate IsOpen(g: Grant, now: int) {
    Matches(g, g.staffId, g.scope, Open(now))
  }

  predicate OneOpen(s: State, now: int) {
    forall i, j | 0 <= i < j < |s.grants| && s.grants[i].staffId == s.grants[j].staffId
        && s.grants[i].scope == s.grants[j].scope ::
      !(IsOpen(s.grants[i], now) && IsOpen(s.grants[j], now))
  }

  /** What `Explains` says of a row before its first redemption. */
  predicate Tidy(g: Grant) {
    && (g.status.Pending? ==> g.redeemExpiresAt.None?)
    && (g.status.Pending? || g.status.Approved? ==> g.sessionExpiresAt.None?)
    && (g.status.Redeemed? ==> g.sessionExpiresAt.Some?)
    && (g.revokedAt.Some? <==> g.status.Revoked?) && !g.status.Expired?
  }

  predicate AllTidy(s: State) {
    forall id | 0 <= id < |s.grants| :: Tidy(s.grants[id])
  }

  lemma RunTidy(e: Env, users: map<string, User>, actions: seq<Action>)
    ensures AllTidy(Exec(e, Start(users), actions))
  {
    RunExplained(e, users, actions);
    var s := Exec(e, Start(users), actions);
    forall id | 0 <= id < |s.grants| ensures Tidy(s.grants[id]) {
      hide Exec;
      assert Explained(e, Start(users), actions, id, s.grants[id]);
    }
  }

  lemma OthersClosed(s: State, id: nat, now: int)
    requires OneOpen(s, now) && id < |s.grants| && IsOpen(s.grants[id], now)
    ensures forall k | 0 <= k < |s.grants| && k != id && s.grants[k].staffId == s.grants[id].staffId
                       && s.grants[k].scope == s.grants[id].scope :: !IsOpen(s.grants[k], now)
  {
  }

  /** A step opens no grant but the one a request adds. */
  lemma StepOpensNone(e: Env, s: State, a: Action, i: nat, now: int)
    requires i < |s.grants| && Tidy(s.grants[i])
    ensures var s' := Step(e, s, a);
            && |s.grants| <= |s'.grants| && s'.grants[i].staffId == s.grants[i].staffId
            && s'.grants[i].scope == s.grants[i].scope
            && (IsOpen(s'.grants[i], now) ==> IsOpen(s.grants[i], now))
  {
  }

  /** A step that adds a grant found no open one of that officer and scope. */
  lemma RequestAddsFirst(e: Env, s: State, a: Action, i: nat)
    requires |s.grants| < |Step(e, s, a).grants| && i < |s.grants|
    ensures var s' := Step(e, s, a);
            && a.Request? && |s'.grants| == |s.grants| + 1 && s'.grants[i] == s.grants[i]
            && (s.grants[i].staffId == s'.grants[|s.grants|].staffId
                  && s.grants[i].scope == s'.grants[|s.grants|].scope ==>
                  !IsOpen(s.grants[i], a.now))
  {
  }

  lemma GrowsByOne(e: Env, s: State, a: Action)
    ensures |Step(e, s, a).grants| <= |s.grants| + 1
  {
  }

  lemma ClosedUntil(g: Grant, then': int, now: int)
    requires !IsOpen(g, then') && IsOpen(g, now)
    ensures now < then'
  {
  }

  lemma CreatedStill(e: Env, s: State, actions: seq<Action>, i: nat, id: nat)
    requires actions != [] && CreatedAt(e, s, actions[..|actions| - 1], i, id)
    ensures CreatedAt(e, s, actions, i, id)
  {
    var n := |actions| - 1;
    assert actions[..n][..i] == actions[..i] && actions[..n][..i + 1] == actions[..i + 1];
  }

  /**
   In every run, whatever the clock does: of two grants of one officer and scope that are both open at `now`,
   the later was created by a request whose clock was past `now`.
   */
  lemma {:induction false} SecondOpenGrant(e: Env, users: map<string, User>, actions: seq<Action>, i: nat, j: nat,
                                           now: int)
    requires i < j < |Exec(e, Start(users), actions).grants|
    requires var gs := Exec(e, Start(users), actions).grants;
             && gs[i].staffId == gs[j].staffId && gs[i].scope == gs[j].scope
             && IsOpen(gs[i], now) && IsOpen(gs[j], now)
    ensures exists r: nat ::
              r < |actions| && CreatedAt(e, Start(users), actions, r, j) && actions[r].now > now
    decreases |actions|
  {
    hide Step, IsOpen, CreatedAt;
    assert actions != [];
    var n := |actions| - 1;
    var s, a := Exec(e, Start(users), actions[..n]), actions[n];
    RunTidy(e, users, actions[..n]);
    if j < |s.grants| {
      StepOpensNone(e, s, a, i, now);
      StepOpensNone(e, s, a, j, now);
      SecondOpenGrant(e, users, actions[..n], i, j, now);
      var r: nat :| r < n && CreatedAt(e, Start(users), actions[..n], r, j) && actions[r].now > now;
      CreatedStill(e, Start(users), actions, r, j);
    } else {
      GrowsByOne(e, s, a);
      RequestAddsFirst(e, s, a, i);
      ClosedUntil(s.grants[i], a.now, now);
      CreatedLast(e, Start(users), actions);
    }
  }

  lemma CreatedLast(e: Env, s: State, actions: seq<Action>)
    requires actions != []
    requires var t := Exec(e, s, actions[..|actions| - 1]);
             actions[|actions| - 1].Request? && |t.grants| < |Exec(e, s, actions).grants|
    ensures CreatedAt(e, s, actions, |actions| - 1, |Exec(e, s, actions[..|actions| - 1]).grants|)
  {
    assert actions[..|actions|] == actions;
  }

  /** So each officer and scope has at most one open grant, unless a request read a clock ahead of this one. */
  lemma OneOpenGrant(e: Env, users: map<string, User>, actions: seq<Action>, now: int)
    requires RequestedBy(actions, now)
    ensures OneOpen(Exec(e, Start(users), actions), now)
  {
    var s := Exec(e, Start(users), actions);
    forall i, j | 0 <= i < j < |s.grants| && s.grants[i].staffId == s.grants[j].staffId
        && s.grants[i].scope == s.grants[j].scope && IsOpen(s.grants[i], now)
      ensures !IsOpen(s.grants[j], now)
    {
      if IsOpen(s.grants[j], now) {
        SecondOpenGrant(e, users, actions, i, j, now);
        assert false;
      }
    }
  }

  // ----- deadlines are set once ------------------------------------------------------------------------------

  /** `h` is a later version of the row `g`. */
  predicate Continues(g: Grant, h: Grant) {
    && h.staffId == g.staffId && h.scope == g.scope && h.reason == g.reason
    && (g.redeemExpiresAt.Some? ==> h.redeemExpiresAt == g.redeemExpiresAt && h.approvedBy == g.approvedBy)
    && (g.sessionExpiresAt.Some? ==> h.sessionExpiresAt == g.sessionExpiresAt && h.redeemedAt == g.redeemedAt)
    && (g.revokedAt.Some? ==> h == g)
  }

  lemma StepContinues(e: Env, s: State, a: Action, id: nat)
    requires id < |s.grants| && Tidy(s.grants[id])
    requires s.grants[id].sessionExpiresAt.Some? ==> s.grants[id].status.Redeemed? || s.grants[id].status.Revoked?
    requires s.grants[id].redeemExpiresAt.Some? ==> !s.grants[id].status.Pending?
    ensures id < |Step(e, s, a).grants| && Continues(s.grants[id], Step(e, s, a).grants[id])
  {
  }

  /** Over any run, the approval, the redemption deadline, the session's end and a revocation are never rewritten. */
  lemma {:induction false} DeadlinesSetOnce(e: Env, users: map<string, User>, actions: seq<Action>, n: nat, id: nat)
    requires n <= |actions| && id < |Exec(e, Start(users), actions[..n]).grants|
    ensures id < |Exec(e, Start(users), actions).grants|
    ensures Continues(Exec(e, Start(users), actions[..n]).grants[id], Exec(e, Start(users), actions).grants[id])
    decreases |actions|
  {
    if n == |actions| {
      assert actions[..n] == actions;
    } else {
      hide Step;
      var m := |actions| - 1;
      assert actions[..m][..n] == actions[..n];
      DeadlinesSetOnce(e, users, actions[..m], n, id);
      RunTidy(e, users, actions[..m]);
      StepContinues(e, Exec(e, Start(users), actions[..m]), actions[m], id);
    }
  }

  // ----- revocation, redemption, and the lapsed approval ---------------------------------------------------

  /** A revocation is immediate: the officer has no session for the scope any more. */
  lemma RevokeCutsOff(e: Env, users: map<string, User>, actions: seq<Action>, actor: Actor, id: nat, now: int)
    requires RequestedBy(actions, now) && RawRole(actor.role)
    requires id < |Exec(e, Start(users), actions).grants|
    requires IsOpen(Exec(e, Start(users), actions).grants[id], now)
    ensures var s := Exec(e, Start(users), actions);
            var s' := RevokeStep(s, actor, id, now).0;
            forall t | now <= t :: !ActiveSession(s', s.grants[id].staffId, s.grants[id].scope, t)
  {
    OneOpenGrant(e, users, actions, now);
    RunTidy(e, users, actions);
    var s := Exec(e, Start(users), actions);
    hide Exec;
    OthersClosed(s, id, now);
  }

  /**
   The minted token, however typed, opens a session exactly until 60 minutes after the approval, unless
   another grant of that officer and scope carries the same digest; the session lasts eight hours.
   */
  lemma MintedTokenRedeems(e: Env, users: map<string, User>, actions: seq<Action>, j: nat, id: nat,
                           role: Role, token: string, password: string, hint: nat, now: int)
    requires RequestedBy(actions, now) && id < |Exec(e, Start(users), actions).grants|
    requires var s := Exec(e, Start(users), actions);
             var g := s.grants[id];
             && g.status.Approved? && ApprovedAt(e, actions, j, id, g)
             && e.upper(e.trim(token)) == actions[j].raw && actions[j].raw != "" && password != ""
             && PasswordOk(e, s, g.staffId, password)
             && forall k | 0 <= k < |s.grants| && k != id ::
                 !Matches(s.grants[k], g.staffId, g.scope, Token(e.digest(actions[j].raw)))
    ensures var s := Exec(e, Start(users), actions);
            var g := s.grants[id];
            var (s', r) := RedeemStep(e, s, Actor(g.staffId, role), g.scope, token, password, hint, now);
            if now <= actions[j].now + REDEEM_WINDOW_MS then
              r == Ok(Some(now + SESSION_MS)) &&
              forall t | now <= t :: ActiveSession(s', g.staffId, g.scope, t) <==> t < now + SESSION_MS
            else r == Err(Forbidden) && s' == s
  {
    OneOpenGrant(e, users, actions, now);
    RunTidy(e, users, actions);
    RunExplained(e, users, actions);
    var s := Exec(e, Start(users), actions);
    var g := s.grants[id];
    assert Explained(e, Start(users), actions, id, g);
    assert ExactlyOne(g.scope);
    hide Exec, Explained, AllExplained, Explains;
    assert Matches(g, g.staffId, g.scope, Token(e.digest(actions[j].raw)));
    var k := Pick(s.grants, g.staffId, g.scope, Token(e.digest(actions[j].raw)), hint);
    assert k == Some(id);
    if now <= actions[j].now + REDEEM_WINDOW_MS {
      var s' := RedeemStep(e, s, Actor(g.staffId, role), g.scope, token, password, hint, now).0;
      OnlySession(s, s', id, now);
    }
  }

  lemma OnlySession(s: State, s': State, id: nat, now: int)
    requires id < |s.grants| && OneOpen(s, now) && IsOpen(s.grants[id], now)
    requires s' == SetGrant(s, id, s.grants[id].(
                     status := Redeemed, redeemedAt := Some(now), sessionExpiresAt := Some(now + SESSION_MS)))
    requires s.grants[id].revokedAt.None?
    ensures forall t | now <= t :: ActiveSession(s', s.grants[id].staffId, s.grants[id].scope, t) <==>
            t < now + SESSION_MS
  {
    var g := s.grants[id];
    OthersClosed(s, id, now);
    forall t | now <= t ensures ActiveSession(s', g.staffId, g.scope, t) <==> t < now + SESSION_MS {
      if t < now + SESSION_MS { assert Matches(s'.grants[id], g.staffId, g.scope, Live(t)); }
      forall k | 0 <= k < |s'.grants| && k != id ensures !Matches(s'.grants[k], g.staffId, g.scope, Live(t)) {
        assert s'.grants[k] == s.grants[k];
      }
    }
  }

  /** An approval whose 60 minutes have passed unused. */
  predicate Lapsed(g: Grant, now: int) {
    g.status.Approved? && g.redeemExpiresAt.Some? && g.redeemExpiresAt.value < now
  }

  predicate NobodyRevokes(actions: seq<Action>, from: nat, id: nat) {
    forall m | from <= m < |actions| :: !(actions[m].Revoke? && actions[m].id == id && RawRole(actions[m].actor.role))
  }

  lemma StepKeepsLapsed(e: Env, s: State, a: Action, id: nat)
    requires id < |s.grants| && Lapsed(s.grants[id], a.now)
    requires !(a.Revoke? && a.id == id && RawRole(a.actor.role))
    ensures id < |Step(e, s, a).grants| && Step(e, s, a).grants[id] == s.grants[id]
  {
  }

  lemma {:induction false} LapsedStays(e: Env, users: map<string, User>, actions: seq<Action>, n: nat, id: nat,
                                       now: int)
    requires n <= |actions| && NobodyRevokes(actions, n, id)
    requires forall m | n <= m < |actions| :: now <= actions[m].now
    requires id < |Exec(e, Start(users), actions[..n]).grants|
    requires Lapsed(Exec(e, Start(users), actions[..n]).grants[id], now)
    ensures id < |Exec(e, Start(users), actions).grants|
    ensures Exec(e, Start(users), actions).grants[id] == Exec(e, Start(users), actions[..n]).grants[id]
    decreases |actions|
  {
    if n == |actions| {
      assert actions[..n] == actions;
    } else {
      hide Step;
      var m := |actions| - 1;
      assert actions[..m][..n] == actions[..n];
      LapsedStays(e, users, actions[..m], n, id, now);
      StepKeepsLapsed(e, Exec(e, Start(users), actions[..m]), actions[m], id);
    }
  }

  /**
   A lapsed approval locks its officer out: for as long as nobody revokes it, every further request for the
   scope is answered with the lapsed grant, and no session check passes - whatever else happens.
   */
  lemma LapsedApprovalLocksOut(e: Env, users: map<string, User>, actions: seq<Action>, n: nat, id: nat, lapsed: int,
                               role: Role, reason: string, hint: nat, now: int)
    requires RequestedBy(actions, now) && n <= |actions| && NobodyRevokes(actions, n, id) && lapsed <= now
    requires forall m | n <= m < |actions| :: lapsed <= actions[m].now
    requires id < |Exec(e, Start(users), actions[..n]).grants|
    requires Lapsed(Exec(e, Start(users), actions[..n]).grants[id], lapsed)
    ensures var s := Exec(e, Start(users), actions);
            && id < |s.grants|
            && var g := s.grants[id];
               var (s', r) := RequestStep(e, s, Actor(g.staffId, role), g.scope, reason, hint, now);
               && s' == s && (r.Ok? ==> r == Ok(id))
               && !ActiveSession(s, g.staffId, g.scope, now)
  {
    LapsedStays(e, users, actions, n, id, lapsed);
    OneOpenGrant(e, users, actions, now);
    RunTidy(e, users, actions);
    var s := Exec(e, Start(users), actions);
    var g := s.grants[id];
    hide Exec;
    LockedOut(s, id, role, e, reason, hint, now);
  }

  lemma LockedOut(s: State, id: nat, role: Role, e: Env, reason: string, hint: nat, now: int)
    requires id < |s.grants| && OneOpen(s, now) && s.grants[id].status.Approved? && s.grants[id].sessionExpiresAt.None?
    ensures var g := s.grants[id];
            var (s', r) := RequestStep(e, s, Actor(g.staffId, role), g.scope, reason, hint, now);
            && s' == s && (r.Ok? ==> r == Ok(id))
            && !ActiveSession(s, g.staffId, g.scope, now)
  {
    var g := s.grants[id];
    OthersClosed(s, id, now);
    assert Matches(g, g.staffId, g.scope, Open(now));
    hide OneOpen, Assigned;
    assert Pick(s.grants, g.staffId, g.scope, Open(now), hint) == Some(id);
    forall k | 0 <= k < |s.grants| ensures !Matches(s.grants[k], g.staffId, g.scope, Live(now)) {}
  }

  /** A revocation ends the lockout: the next valid request of an assigned officer creates a pending grant. */
  lemma RevokeUnlocks(e: Env, users: map<string, User>, actions: seq<Action>, id: nat, admin: Actor,
                      role: Role, reason: string, hint: nat, now: int)
    requires RequestedBy(actions, now) && id < |Exec(e, Start(users), actions).grants|
    requires IsOpen(Exec(e, Start(users), actions).grants[id], now)
    requires RawRole(admin.role) && RawRole(role) && e.trim(reason) != ""
    requires var s := Exec(e, Start(users), actions); Assigned(s, s.grants[id].staffId, s.grants[id].scope)
    ensures var s := Exec(e, Start(users), actions);
            var g := s.grants[id];
            var s' := RevokeStep(s, admin, id, now).0;
            var (s'', r) := RequestStep(e, s', Actor(g.staffId, role), g.scope, reason, hint, now);
            s'' == s'.(grants := s'.grants + [NewGrant(g.staffId, g.scope, e.trim(reason))]) && r == Ok(|s.grants|)
  {
    OneOpenGrant(e, users, actions, now);
    RunTidy(e, users, actions);
    RunExplained(e, users, actions);
    var s := Exec(e, Start(users), actions);
    var g := s.grants[id];
    assert Explained(e, Start(users), actions, id, g);
    assert ExactlyOne(g.scope);
    hide Exec, Explained, AllExplained, Explains;
    var s' := RevokeStep(s, admin, id, now).0;
    assert s'.assignments == s.assignments;
    OthersClosed(s, id, now);
    forall k | 0 <= k < |s'.grants| ensures !Matches(s'.grants[k], g.staffId, g.scope, Open(now)) {}
  }
}
