/**
 Where grants and assignments come from: in every run each row is explained by the actions that made it.
 */
module GrantHistory {
  import opened Wrappers
  import opened AccessGrants

  // ----- grant safety -----------------------------------------------------------------------------------

  /** The positions in a run of the actions that requested, approved and redeemed a grant. */
  datatype History = History(requested: nat, approved: nat, redeemed: nat)

  /** Action `i` requested grant `id`, by its officer, with a reason, while assigned. */
  predicate RequestedAt(e: Env, s: State, actions: seq<Action>, i: nat, id: nat, g: Grant) {
    && i < |actions| && actions[i].Request?
    && actions[i].actor.id == g.staffId && actions[i].scope == g.scope
    && RawRole(actions[i].actor.role) && e.trim(actions[i].reason) != "" && ExactlyOne(g.scope)
    && Assigned(Exec(e, s, actions[..i]), g.staffId, g.scope)
    && |Exec(e, s, actions[..i]).grants| == id
  }

  predicate ApprovedAt(e: Env, actions: seq<Action>, j: nat, id: nat, g: Grant) {
    && j < |actions| && actions[j].Approve? && actions[j].id == id && actions[j].actor.role.SuperAdmin?
    && g.approvedBy == Some(actions[j].actor.id) && g.approvedAt == Some(actions[j].now)
    && g.redeemExpiresAt == Some(actions[j].now + REDEEM_WINDOW_MS)
    && g.tokenHash == Some(e.digest(actions[j].raw))
  }

  /** Action `k` redeemed the grant with its officer's password and a token of the minted digest, in time. */
  predicate RedeemedAt(e: Env, s: State, actions: seq<Action>, j: nat, k: nat, g: Grant)
    requires j < |actions| && actions[j].Approve?
  {
    && k < |actions| && actions[k].Redeem?
    && actions[k].actor.id == g.staffId && actions[k].scope == g.scope
    && PasswordOk(e, Exec(e, s, actions[..k]), g.staffId, actions[k].password)
    && e.digest(e.upper(e.trim(actions[k].token))) == e.digest(actions[j].raw)
    && actions[k].now <= actions[j].now + REDEEM_WINDOW_MS
    && g.redeemedAt == Some(actions[k].now) && g.sessionExpiresAt == Some(actions[k].now + SESSION_MS)
  }

  /** Somebody who may revoke grant `id` did so after action `i`. */
  predicate RevokedAfter(actions: seq<Action>, i: nat, id: nat) {
    exists m :: i < m < |actions| && actions[m].Revoke? && actions[m].id == id && RawRole(actions[m].actor.role)
  }

  /** The run explains the grant's row. */
  predicate Explains(e: Env, s: State, actions: seq<Action>, id: nat, g: Grant, h: History) {
    && RequestedAt(e, s, actions, h.requested, id, g)
    && (RevokedAfter(actions, h.requested, id) <==> g.status.Revoked?)
    && match g.status
       case Pending => g == NewGrant(g.staffId, g.scope, g.reason)
       case Approved =>
         && h.requested < h.approved && ApprovedAt(e, actions, h.approved, id, g)
         && g.redeemedAt.None? && g.sessionExpiresAt.None? && g.revokedAt.None?
       case Redeemed =>
         && h.requested < h.approved < h.redeemed && ApprovedAt(e, actions, h.approved, id, g)
         && RedeemedAt(e, s, actions, h.approved, h.redeemed, g) && g.revokedAt.None?
       case Revoked => g.tokenHash.None? && g.revokedAt.Some?
       case Expired => false
  }

  ghost predicate Explained(e: Env, s: State, actions: seq<Action>, id: nat, g: Grant) {
    exists h :: Explains(e, s, actions, id, g, h)
  }

  lemma PrefixKept(actions: seq<Action>, a: Action, i: nat)
    requires i <= |actions|
    ensures (actions + [a])[..i] == actions[..i]
  {
  }

  lemma RevokedAfterKept(actions: seq<Action>, a: Action, i: nat, id: nat)
    ensures RevokedAfter(actions + [a], i, id) <==>
            RevokedAfter(actions, i, id) || (i < |actions| && a.Revoke? && a.id == id && RawRole(a.actor.role))
  {
    var longer := actions + [a];
    if RevokedAfter(actions, i, id) {
      var m :| i < m < |actions| && actions[m].Revoke? && actions[m].id == id && RawRole(actions[m].actor.role);
      assert longer[m] == actions[m];
    } else if i < |actions| && a.Revoke? && a.id == id && RawRole(a.actor.role) {
      assert longer[|actions|] == a;
    }
  }

  lemma RedeemedAtKept(e: Env, s: State, actions: seq<Action>, a: Action, j: nat, k: nat, g: Grant)
    requires j < |actions| && actions[j].Approve? && RedeemedAt(e, s, actions, j, k, g)
    ensures (actions + [a])[j] == actions[j] && RedeemedAt(e, s, actions + [a], j, k, g)
  {
    PrefixKept(actions, a, k);
  }

  /** Only the officer and the scope of the row matter. */
  lemma RequestedAtKept(e: Env, s: State, actions: seq<Action>, a: Action, i: nat, id: nat, g: Grant, h: Grant)
    requires RequestedAt(e, s, actions, i, id, g) && h.staffId == g.staffId && h.scope == g.scope
    ensures i < |actions| && RequestedAt(e, s, actions + [a], i, id, h)
  {
    hide Exec, Assigned;
    PrefixKept(actions, a, i);
  }

  lemma ExplainsLonger(e: Env, s: State, actions: seq<Action>, a: Action, id: nat, g: Grant, h: History)
    requires Explains(e, s, actions, id, g, h)
    requires a.Revoke? && a.id == id && RawRole(a.actor.role) ==> g.status.Revoked?
    ensures Explains(e, s, actions + [a], id, g, h)
  {
    hide RevokedAfter, RequestedAt, RedeemedAt, Exec;
    RequestedAtKept(e, s, actions, a, h.requested, id, g, g);
    RevokedAfterKept(actions, a, h.requested, id);
    match g.status {
      case Approved => assert (actions + [a])[h.approved] == actions[h.approved];
      case Redeemed => RedeemedAtKept(e, s, actions, a, h.approved, h.redeemed, g);
      case _ =>
    }
  }

  ghost predicate AllExplained(e: Env, s: State, actions: seq<Action>) {
    var t := Exec(e, s, actions);
    forall id | 0 <= id < |t.grants| :: Explained(e, s, actions, id, t.grants[id])
  }

  /** What a step that adds a grant tells of it. */
  lemma RequestAdds(e: Env, s: State, a: Action)
    requires a.Request? && |s.grants| < |Step(e, s, a).grants|
    ensures |Step(e, s, a).grants| == |s.grants| + 1
    ensures Step(e, s, a).grants[|s.grants|] == NewGrant(a.actor.id, a.scope, e.trim(a.reason))
    ensures RawRole(a.actor.role) && e.trim(a.reason) != "" && ExactlyOne(a.scope) && Assigned(s, a.actor.id, a.scope)
  {
    hide Assigned, Pick;
  }

  lemma RequestKeeps(e: Env, s: State, a: Action, id: nat)
    requires a.Request? && id < |s.grants|
    ensures id < |Step(e, s, a).grants| && Step(e, s, a).grants[id] == s.grants[id]
  {
    hide Assigned, Pick;
  }

  lemma RequestExplained(e: Env, s: State, actions: seq<Action>, a: Action, id: nat)
    requires a.Request? && AllExplained(e, s, actions)
    requires id < |Step(e, Exec(e, s, actions), a).grants|
    ensures Explained(e, s, actions + [a], id, Step(e, Exec(e, s, actions), a).grants[id])
  {
    var t := Exec(e, s, actions);
    var t' := Step(e, t, a);
    hide Exec, Step, Assigned;
    if id < |t.grants| {
      hide Explains;
      RequestKeeps(e, t, a, id);
      assert Explained(e, s, actions, id, t.grants[id]);
      var h :| Explains(e, s, actions, id, t.grants[id], h);
      ExplainsLonger(e, s, actions, a, id, t.grants[id], h);
    } else {
      RequestAdds(e, t, a);
      PrefixKept(actions, a, |actions|);
      assert actions[..|actions|] == actions;
      assert !RevokedAfter(actions + [a], |actions|, id);
      assert Explains(e, s, actions + [a], id, t'.grants[id], History(|actions|, 0, 0));
    }
  }

  lemma ApproveExplained(e: Env, s: State, actions: seq<Action>, a: Action, id: nat, h: History)
    requires a.Approve? && id < |Exec(e, s, actions).grants|
    requires Explains(e, s, actions, id, Exec(e, s, actions).grants[id], h)
    ensures id < |Step(e, Exec(e, s, actions), a).grants|
    ensures Explained(e, s, actions + [a], id, Step(e, Exec(e, s, actions), a).grants[id])
  {
    var t := Exec(e, s, actions);
    var t' := Step(e, t, a);
    hide Exec, RequestedAt, Assigned;
    if t'.grants[id] == t.grants[id] {
      ExplainsLonger(e, s, actions, a, id, t.grants[id], h);
    } else {
      var h' := h.(approved := |actions|);
      RequestedAtKept(e, s, actions, a, h.requested, id, t.grants[id], t'.grants[id]);
      RevokedAfterKept(actions, a, h.requested, id);
      assert ApprovedAt(e, actions + [a], |actions|, id, t'.grants[id]);
      hide RevokedAfter;
      assert Explains(e, s, actions + [a], id, t'.grants[id], h');
    }
  }

  lemma RedeemExplained(e: Env, s: State, actions: seq<Action>, a: Action, id: nat, h: History)
    requires a.Redeem? && id < |Exec(e, s, actions).grants|
    requires Explains(e, s, actions, id, Exec(e, s, actions).grants[id], h)
    ensures id < |Step(e, Exec(e, s, actions), a).grants|
    ensures Explained(e, s, actions + [a], id, Step(e, Exec(e, s, actions), a).grants[id])
  {
    var t := Exec(e, s, actions);
    var t' := Step(e, t, a);
    hide Exec, RequestedAt, Assigned;
    if t'.grants[id] == t.grants[id] {
      ExplainsLonger(e, s, actions, a, id, t.grants[id], h);
    } else {
      var h' := h.(redeemed := |actions|);
      RequestedAtKept(e, s, actions, a, h.requested, id, t.grants[id], t'.grants[id]);
      RevokedAfterKept(actions, a, h.requested, id);
      hide RevokedAfter;
      PrefixKept(actions, a, |actions|);
      assert actions[..|actions|] == actions;
      assert (actions + [a])[h.approved] == actions[h.approved];
      assert RedeemedAt(e, s, actions + [a], h.approved, |actions|, t'.grants[id]);
      assert Explains(e, s, actions + [a], id, t'.grants[id], h');
    }
  }

  lemma RevokeExplained(e: Env, s: State, actions: seq<Action>, a: Action, id: nat, h: History)
    requires a.Revoke? && id < |Exec(e, s, actions).grants|
    requires Explains(e, s, actions, id, Exec(e, s, actions).grants[id], h)
    ensures id < |Step(e, Exec(e, s, actions), a).grants|
    ensures Explained(e, s, actions + [a], id, Step(e, Exec(e, s, actions), a).grants[id])
  {
    var t := Exec(e, s, actions);
    var t' := Step(e, t, a);
    hide Exec, RequestedAt, Assigned;
    if t'.grants[id] == t.grants[id] {
      ExplainsLonger(e, s, actions, a, id, t.grants[id], h);
    } else {
      RequestedAtKept(e, s, actions, a, h.requested, id, t.grants[id], t'.grants[id]);
      RevokedAfterKept(actions, a, h.requested, id);
      hide RevokedAfter;
      assert Explains(e, s, actions + [a], id, t'.grants[id], h);
    }
  }

  lemma RowExplained(e: Env, s: State, actions: seq<Action>, a: Action, id: nat, h: History)
    requires !a.Request? && id < |Exec(e, s, actions).grants|
    requires Explains(e, s, actions, id, Exec(e, s, actions).grants[id], h)
    ensures id < |Step(e, Exec(e, s, actions), a).grants|
    ensures Explained(e, s, actions + [a], id, Step(e, Exec(e, s, actions), a).grants[id])
  {
    hide Exec, Explains;
    var g := Exec(e, s, actions).grants[id];
    match a {
      case Approve(_, _, _, _) => ApproveExplained(e, s, actions, a, id, h);
      case Redeem(_, _, _, _, _, _) => RedeemExplained(e, s, actions, a, id, h);
      case Revoke(_, _, _) => RevokeExplained(e, s, actions, a, id, h);
      case _ => ExplainsLonger(e, s, actions, a, id, g, h);
    }
  }

  lemma RowsKept(e: Env, s: State, a: Action)
    requires !a.Request?
    ensures |Step(e, s, a).grants| == |s.grants|
  {
  }

  lemma StepExplained(e: Env, s: State, actions: seq<Action>, a: Action)
    requires AllExplained(e, s, actions)
    ensures AllExplained(e, s, actions + [a])
  {
    ExecSnoc(e, s, actions, a);
    var t := Exec(e, s, actions);
    var t' := Step(e, t, a);
    hide Exec, Explains, Step;
    forall id | 0 <= id < |t'.grants| ensures Explained(e, s, actions + [a], id, t'.grants[id]) {
      if a.Request? {
        RequestExplained(e, s, actions, a, id);
      } else {
        RowsKept(e, t, a);
        assert Explained(e, s, actions, id, t.grants[id]);
        var h :| Explains(e, s, actions, id, t.grants[id], h);
        RowExplained(e, s, actions, a, id, h);
      }
    }
  }

  lemma {:induction false} RunExplained(e: Env, users: map<string, User>, actions: seq<Action>)
    ensures AllExplained(e, Start(users), actions)
    decreases |actions|
  {
    if actions != [] {
      hide AllExplained;
      var n := |actions| - 1;
      RunExplained(e, users, actions[..n]);
      StepExplained(e, Start(users), actions[..n], actions[n]);
      assert actions[..n] + [actions[n]] == actions;
    }
  }

  /** What must have happened in a run for a session of grant `id` to be live at `now`. */
  predicate Earned(e: Env, s: State, actions: seq<Action>, staffId: string, scope: Scope, now: int, id: nat, h: History)
  {
    && h.requested < h.approved < h.redeemed < |actions|
    && actions[h.requested].Request? && actions[h.approved].Approve? && actions[h.redeemed].Redeem?
    && actions[h.requested].actor.id == staffId && actions[h.requested].scope == scope
    && RawRole(actions[h.requested].actor.role) && e.trim(actions[h.requested].reason) != ""
    && Assigned(Exec(e, s, actions[..h.requested]), staffId, scope)
    && |Exec(e, s, actions[..h.requested]).grants| == id
    && actions[h.approved].id == id && actions[h.approved].actor.role.SuperAdmin?
    && actions[h.redeemed].actor.id == staffId && actions[h.redeemed].scope == scope
    && PasswordOk(e, Exec(e, s, actions[..h.redeemed]), staffId, actions[h.redeemed].password)
    && e.digest(e.upper(e.trim(actions[h.redeemed].token))) == e.digest(actions[h.approved].raw)
    && actions[h.redeemed].now <= actions[h.approved].now + REDEEM_WINDOW_MS
    && now < actions[h.redeemed].now + SESSION_MS
    && !RevokedAfter(actions, h.requested, id)
  }

  /**
   Grant safety over every run, whatever the clock does: a session check passes only if that officer
   requested the grant while assigned, a super admin approved it afterwards, it was then redeemed with the
   officer's password and the minted token within 60 minutes of approval, less than eight hours have passed
   since, and nobody entitled to has revoked it.
   */
  lemma GrantSafety(e: Env, users: map<string, User>, actions: seq<Action>, staffId: string, scope: Scope, now: int)
    requires ActiveSession(Exec(e, Start(users), actions), staffId, scope, now)
    ensures exists id, h :: Earned(e, Start(users), actions, staffId, scope, now, id, h)
  {
    RunExplained(e, users, actions);
    var s := Exec(e, Start(users), actions);
    hide Exec, Explains, RevokedAfter;
    var id :| 0 <= id < |s.grants| && Matches(s.grants[id], staffId, scope, Live(now));
    var h :| Explains(e, Start(users), actions, id, s.grants[id], h);
    LiveIsEarned(e, Start(users), actions, staffId, scope, now, id, s.grants[id], h);
  }

  lemma LiveIsEarned(e: Env, s: State, actions: seq<Action>, staffId: string, scope: Scope, now: int, id: nat,
                     g: Grant, h: History)
    requires Matches(g, staffId, scope, Live(now)) && Explains(e, s, actions, id, g, h)
    ensures Earned(e, s, actions, staffId, scope, now, id, h)
  {
    hide Exec;
  }

  // ----- where assignments come from ------------------------------------------------------------------------

  predicate UnassignedAfter(actions: seq<Action>, i: nat, k: nat) {
    exists m :: i < m < |actions| && actions[m].Unassign? && actions[m].id == k && RawRole(actions[m].actor.role)
  }

  /** Action `i` made assignment `k`: an admin did, with a reason, for an active admin. */
  predicate AssignedAt(e: Env, s: State, actions: seq<Action>, i: nat, k: nat, x: Assignment) {
    && i < |actions| && actions[i].Assign? && RawRole(actions[i].actor.role) && actions[i].actor.id == x.grantedBy
    && actions[i].staffId == x.staffId && actions[i].scope == x.scope && ExactlyOne(x.scope)
    && e.trim(actions[i].reason) == x.reason != "" && actions[i].scopeExists
    && |Exec(e, s, actions[..i]).assignments| == k
    && var users := Exec(e, s, actions[..i]).users;
       x.staffId in users && users[x.staffId].active && RawRole(users[x.staffId].role)
  }

  lemma UnassignedAfterKept(actions: seq<Action>, a: Action, i: nat, k: nat)
    ensures UnassignedAfter(actions + [a], i, k) <==>
            UnassignedAfter(actions, i, k) || (i < |actions| && a.Unassign? && a.id == k && RawRole(a.actor.role))
  {
    var longer := actions + [a];
    if UnassignedAfter(actions, i, k) {
      var m :| i < m < |actions| && actions[m].Unassign? && actions[m].id == k && RawRole(actions[m].actor.role);
      assert longer[m] == actions[m];
    } else if i < |actions| && a.Unassign? && a.id == k && RawRole(a.actor.role) {
      assert longer[|actions|] == a;
    }
  }

  lemma OldAssignment(e: Env, s: State, actions: seq<Action>, a: Action, i: nat, k: nat)
    requires k < |Exec(e, s, actions).assignments|
    requires AssignedAt(e, s, actions, i, k, Exec(e, s, actions).assignments[k])
    requires Exec(e, s, actions).assignments[k].revokedAt.Some? <==> UnassignedAfter(actions, i, k)
    ensures k < |Exec(e, s, actions + [a]).assignments|
    ensures AssignedAt(e, s, actions + [a], i, k, Exec(e, s, actions + [a]).assignments[k])
    ensures Exec(e, s, actions + [a]).assignments[k].revokedAt.Some? <==> UnassignedAfter(actions + [a], i, k)
  {
    ExecSnoc(e, s, actions, a);
    hide Exec;
    PrefixKept(actions, a, i);
    UnassignedAfterKept(actions, a, i, k);
    hide UnassignedAfter;
  }

  lemma NewAssignment(e: Env, s: State, actions: seq<Action>, a: Action)
    requires |Exec(e, s, actions).assignments| < |Step(e, Exec(e, s, actions), a).assignments|
    ensures var t := Step(e, Exec(e, s, actions), a);
            var k := |Exec(e, s, actions).assignments|;
            && |t.assignments| == k + 1 && t.assignments[k].revokedAt.None?
            && AssignedAt(e, s, actions + [a], |actions|, k, t.assignments[k])
  {
    hide Exec;
    PrefixKept(actions, a, |actions|);
    assert actions[..|actions|] == actions;
  }

  /**
   Every assignment in force was made, in some earlier action, by an admin who gave a reason, for a staff
   member who was then an active admin, and no admin has withdrawn it since.
   */
  lemma {:induction false} AssignmentEarned(e: Env, users: map<string, User>, actions: seq<Action>, k: nat)
    requires k < |Exec(e, Start(users), actions).assignments|
    ensures var x := Exec(e, Start(users), actions).assignments[k];
            exists i :: AssignedAt(e, Start(users), actions, i, k, x)
                && (x.revokedAt.Some? <==> UnassignedAfter(actions, i, k))
    decreases |actions|
  {
    var n := |actions| - 1;
    var s := Start(users);
    var init, a := actions[..n], actions[n];
    assert init + [a] == actions;
    ExecSnoc(e, s, init, a);
    hide Exec, Step, AssignedAt;
    if k < |Exec(e, s, init).assignments| {
      AssignmentEarned(e, users, init, k);
      var x := Exec(e, s, init).assignments[k];
      var i :| AssignedAt(e, s, init, i, k, x) && (x.revokedAt.Some? <==> UnassignedAfter(init, i, k));
      OldAssignment(e, s, init, a, i, k);
    } else {
      NewAssignment(e, s, init, a);
      assert !UnassignedAfter(actions, n, k);
    }
  }
}
