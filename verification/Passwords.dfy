/**
 Which password an account answers to: over every run it is the one its last accepted change carried.
 */
module Passwords {
  import opened Wrappers
  import opened Sessions

  // ----- the writes of a run -----------------------------------------------------------------------------

  /** Action `a`, in state `s`, creates account `id`: nobody of that kind has the address yet. */
  predicate Creates(e: Env, s: State, a: Action, id: nat) {
    && a.CreateAccount? && id == |s.accounts|
    && forall k | 0 <= k < |s.accounts| ::
        !(s.accounts[k].userType == a.userType && s.accounts[k].email == e.lower(a.email))
  }

  /** The reset token `raw` is one of account `id`, unused and in its hour. */
  predicate OpensReset(e: Env, s: State, userType: UserType, raw: string, id: nat, now: int) {
    exists k :: 0 <= k < |s.resets| && s.resets[k].tokenHash == e.digest(raw) && s.resets[k].userType == userType
                && s.resets[k].userId == id && s.resets[k].usedAt.None? && now <= s.resets[k].expiresAt
  }

  /** Action `a`, in state `s`, is an accepted change of account `id`'s password. */
  predicate Sets(e: Env, s: State, a: Action, id: nat) {
    && id < |s.accounts|
    && match a
       case AdminReset(i, next, _, _) => i == id && |next| >= 8
       case ChangePassword(t, i, current, next, _, _) =>
         && i == id && s.accounts[id].userType == t && |next| >= 8
         && e.compare(current, s.accounts[id].passwordHash)
       case ResetPassword(t, raw, next, _, now) => raw != "" && |next| >= 8 && OpensReset(e, s, t, raw, id, now)
       case _ => false
  }

  /** The account holds what `a` carried. */
  predicate Carried(a: Action, x: Account) {
    match a
    case CreateAccount(t, _, hash, _, _) =>
      x.passwordHash == hash && x.passwordChangedAt == None && (x.mustChangePassword <==> t.Provider?)
    case AdminReset(_, _, hash, now) =>
      x.passwordHash == hash && x.passwordChangedAt == Some(now) && x.mustChangePassword
    case ChangePassword(_, _, _, _, hash, now) =>
      x.passwordHash == hash && x.passwordChangedAt == Some(now) && !x.mustChangePassword
    case ResetPassword(_, _, _, hash, now) =>
      x.passwordHash == hash && x.passwordChangedAt == Some(now) && !x.mustChangePassword
    case _ => false
  }

  // ----- addresses and tokens are unique -------------------------------------------------------------------

  predicate SoleAddress(s: State, id: nat) {
    && id < |s.accounts|
    && forall k | 0 <= k < |s.accounts| && k != id ::
        s.accounts[k].userType != s.accounts[id].userType || s.accounts[k].email != s.accounts[id].email
  }

  predicate Unique(s: State) {
    && (forall id | 0 <= id < |s.accounts| :: SoleAddress(s, id))
    && (forall i, j | 0 <= i < j < |s.resets| :: s.resets[i].tokenHash != s.resets[j].tokenHash)
  }

  /** What no action changes of the accounts there are, and what it may add. */
  lemma StepKeepsIdentity(e: Env, s: State, a: Action)
    ensures var z := Step(e, s, a);
            && |s.accounts| <= |z.accounts| <= |s.accounts| + 1
            && (forall k | 0 <= k < |s.accounts| ::
                  z.accounts[k].userType == s.accounts[k].userType && z.accounts[k].email == s.accounts[k].email)
            && (|z.accounts| > |s.accounts| ==>
                  Creates(e, s, a, |s.accounts|) && z.accounts[|s.accounts|].userType == a.userType
                  && z.accounts[|s.accounts|].email == e.lower(a.email))
  {
    hide FindReset, Burn;
  }

  /** What no action changes of the reset tokens there are, and what it may add. */
  lemma StepKeepsTokens(e: Env, s: State, a: Action)
    ensures var z := Step(e, s, a);
            && |s.resets| <= |z.resets| <= |s.resets| + 1
            && (forall k | 0 <= k < |s.resets| :: z.resets[k].tokenHash == s.resets[k].tokenHash)
            && (|z.resets| > |s.resets| ==>
                  forall k | 0 <= k < |s.resets| :: s.resets[k].tokenHash != z.resets[|s.resets|].tokenHash)
  {
    hide FindEmail;
  }

  lemma StepKeepsUnique(e: Env, s: State, a: Action)
    requires Unique(s)
    ensures Unique(Step(e, s, a))
  {
    hide Step;
    StepKeepsIdentity(e, s, a);
    StepKeepsTokens(e, s, a);
    var z := Step(e, s, a);
    forall id | 0 <= id < |z.accounts| ensures SoleAddress(z, id) {
      if id < |s.accounts| { assert SoleAddress(s, id); }
    }
  }

  lemma {:induction false} RunUnique(e: Env, actions: seq<Action>)
    ensures Unique(Exec(e, NO_ACCOUNTS, actions))
    decreases |actions|
  {
    if actions != [] {
      hide Step, Unique;
      RunUnique(e, actions[..|actions| - 1]);
      StepKeepsUnique(e, Exec(e, NO_ACCOUNTS, actions[..|actions| - 1]), actions[|actions| - 1]);
    }
  }

  // ----- the stored password ---------------------------------------------------------------------------------

  /** The token lookup finds the one token there is. */
  lemma FindsToken(e: Env, s: State, raw: string, k: nat)
    requires Unique(s) && k < |s.resets| && s.resets[k].tokenHash == e.digest(raw)
    ensures FindReset(s.resets, e.digest(raw), 0) == Some(k)
    ensures forall t, id, now :: OpensReset(e, s, t, raw, id, now) <==>
              s.resets[k].userType == t && s.resets[k].userId == id && s.resets[k].usedAt.None?
              && now <= s.resets[k].expiresAt
  {
  }

  lemma NoToken(e: Env, s: State, a: Action, id: nat)
    requires a.ResetPassword? && forall k | 0 <= k < |s.resets| :: s.resets[k].tokenHash != e.digest(a.raw)
    ensures FindReset(s.resets, e.digest(a.raw), 0) == None && !Sets(e, s, a, id)
  {
  }

  /** One action either sets the account's password, to what it carries, or leaves it alone. */
  lemma StepPassword(e: Env, s: State, a: Action, id: nat)
    requires Unique(s) && id < |s.accounts|
    ensures id < |Step(e, s, a).accounts|
    ensures var x, z := s.accounts[id], Step(e, s, a).accounts[id];
            if Sets(e, s, a, id) then Carried(a, z)
            else z.passwordHash == x.passwordHash && z.passwordChangedAt == x.passwordChangedAt
                 && z.mustChangePassword == x.mustChangePassword
  {
    hide FindEmail, FindReset, Burn, Unique, OpensReset;
    if a.ResetPassword? {
      if k :| 0 <= k < |s.resets| && s.resets[k].tokenHash == e.digest(a.raw) {
        FindsToken(e, s, a.raw, k);
      } else {
        NoToken(e, s, a, id);
      }
    }
  }

  lemma StepCreates(e: Env, s: State, a: Action)
    requires |s.accounts| < |Step(e, s, a).accounts|
    ensures Creates(e, s, a, |s.accounts|) && Carried(a, Step(e, s, a).accounts[|s.accounts|])
    ensures var x := Step(e, s, a).accounts[|s.accounts|]; x.active == a.active && !x.mfa
  {
    hide FindReset, Burn;
  }

  /** Action `j` of the run created the account or set its password, and nothing set it again after. */
  predicate LastCarrier(e: Env, actions: seq<Action>, j: nat, id: nat) {
    && j < |actions|
    && var s := Exec(e, NO_ACCOUNTS, actions[..j]);
       && (Creates(e, s, actions[j], id) || Sets(e, s, actions[j], id))
       && NotSetAfter(e, actions, j, id)
  }

  /** The account holds what its last carrier carried. */
  predicate StoredBy(e: Env, actions: seq<Action>, j: nat, id: nat, x: Account) {
    j < |actions| && LastCarrier(e, actions, j, id) && Carried(actions[j], x)
  }

  predicate NotSetAfter(e: Env, actions: seq<Action>, j: nat, id: nat) {
    forall k: nat | j < k < |actions| :: !SetsAt(e, actions, k, id)
  }

  predicate SetsAt(e: Env, actions: seq<Action>, k: nat, id: nat)
    requires k < |actions|
  {
    Sets(e, Exec(e, NO_ACCOUNTS, actions[..k]), actions[k], id)
  }

  lemma SetsAtLonger(e: Env, actions: seq<Action>, a: Action, k: nat, id: nat)
    requires k < |actions|
    ensures SetsAt(e, actions + [a], k, id) == SetsAt(e, actions, k, id)
  {
    PrefixKept(actions, a, k);
  }

  lemma CarrierStays(e: Env, actions: seq<Action>, a: Action, j: nat, id: nat)
    requires LastCarrier(e, actions, j, id) && !Sets(e, Exec(e, NO_ACCOUNTS, actions), a, id)
    ensures LastCarrier(e, actions + [a], j, id)
  {
    hide Exec, Sets, Creates;
    var longer := actions + [a];
    PrefixKept(actions, a, j);
    forall k: nat | j < k < |longer| ensures !SetsAt(e, longer, k, id) {
      if k < |actions| {
        SetsAtLonger(e, actions, a, k, id);
      } else {
        PrefixKept(actions, a, |actions|);
        assert actions[..|actions|] == actions;
      }
    }
  }

  lemma CarrierNew(e: Env, actions: seq<Action>, a: Action, id: nat)
    requires var s := Exec(e, NO_ACCOUNTS, actions); Creates(e, s, a, id) || Sets(e, s, a, id)
    ensures LastCarrier(e, actions + [a], |actions|, id)
  {
    hide Exec, Sets, Creates;
    PrefixKept(actions, a, |actions|);
    assert actions[..|actions|] == actions;
  }

  /**
   Over every run an account's stored hash, its epoch and its forced-change flag are those of the last accepted
   change of its password - by its owner, by a reset token or by an administrator - or, if there was none, of
   its creation.
   */
  lemma {:induction false} StoredPassword(e: Env, actions: seq<Action>, id: nat)
    requires id < |Exec(e, NO_ACCOUNTS, actions).accounts|
    ensures exists j: nat :: StoredBy(e, actions, j, id, Exec(e, NO_ACCOUNTS, actions).accounts[id])
    decreases |actions|
  {
    var n := |actions| - 1;
    var before, a := actions[..n], actions[n];
    var s := Exec(e, NO_ACCOUNTS, before);
    assert before + [a] == actions;
    ExecSnoc(e, before, a);
    RunUnique(e, before);
    hide Exec, Step, Unique, LastCarrier, Sets, Creates, Carried;
    var x := Step(e, s, a).accounts;
    if id < |s.accounts| {
      StepPassword(e, s, a, id);
      if Sets(e, s, a, id) {
        CarrierNew(e, before, a, id);
        assert StoredBy(e, actions, n, id, x[id]);
      } else {
        StoredPassword(e, before, id);
        var j: nat :| StoredBy(e, before, j, id, s.accounts[id]);
        CarrierStays(e, before, a, j, id);
        SamePassword(before[j], s.accounts[id], x[id]);
        assert StoredBy(e, actions, j, id, x[id]);
      }
    } else {
      StepKeepsIdentity(e, s, a);
      StepCreates(e, s, a);
      CarrierNew(e, before, a, id);
      assert StoredBy(e, actions, n, id, x[id]);
    }
  }

  lemma SamePassword(a: Action, x: Account, z: Account)
    requires z.passwordHash == x.passwordHash && z.passwordChangedAt == x.passwordChangedAt
    requires z.mustChangePassword == x.mustChangePassword && Carried(a, x)
    ensures Carried(a, z)
  {
  }
}
