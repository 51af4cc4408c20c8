/**
 What the sign-in calls answer after any run, in terms of the actions of the run alone.
 */
module SignIns {
  import opened Wrappers
  import opened Sessions
  import opened Passwords

  // ----- the other fields of an account --------------------------------------------------------------------

  /** Whether the account that action `c` created is active: what the last switch says, or else its creation. */
  function ActiveSince(actions: seq<Action>, c: nat, id: nat): bool
    requires c < |actions| && actions[c].CreateAccount?
    decreases |actions|
  {
    var n := |actions| - 1;
    if n == c then actions[c].active
    else if actions[n].SetActive? && actions[n].id == id then actions[n].active
    else ActiveSince(actions[..n], c, id)
  }

  /** Whether it has a second factor. */
  function MfaSince(actions: seq<Action>, c: nat, id: nat): bool
    requires c < |actions|
    decreases |actions|
  {
    var n := |actions| - 1;
    if n == c then false
    else if actions[n].SetMfa? && actions[n].id == id then actions[n].enabled
    else MfaSince(actions[..n], c, id)
  }

  predicate IsAccount(e: Env, actions: seq<Action>, c: nat, id: nat, x: Account) {
    && c < |actions| && Creates(e, Exec(e, NO_ACCOUNTS, actions[..c]), actions[c], id)
    && x.userType == actions[c].userType && x.email == e.lower(actions[c].email)
    && x.active == ActiveSince(actions, c, id) && x.mfa == MfaSince(actions, c, id)
  }

  lemma StepFlags(e: Env, s: State, a: Action, id: nat)
    requires id < |s.accounts|
    ensures id < |Step(e, s, a).accounts|
    ensures var x, z := s.accounts[id], Step(e, s, a).accounts[id];
            && z.userType == x.userType && z.email == x.email
            && z.active == (if a.SetActive? && a.id == id then a.active else x.active)
            && z.mfa == (if a.SetMfa? && a.id == id then a.enabled else x.mfa)
  {
    hide FindEmail, FindReset, Burn;
  }

  /** An account's kind and address are those it was created with; its switches stand as they were last set. */
  lemma {:induction false} AccountIs(e: Env, actions: seq<Action>, id: nat)
    requires id < |Exec(e, NO_ACCOUNTS, actions).accounts|
    ensures exists c: nat :: IsAccount(e, actions, c, id, Exec(e, NO_ACCOUNTS, actions).accounts[id])
    decreases |actions|
  {
    var n := |actions| - 1;
    var before, a := actions[..n], actions[n];
    var s := Exec(e, NO_ACCOUNTS, before);
    assert before + [a] == actions;
    ExecSnoc(e, before, a);
    hide Exec, Step, Creates;
    if id < |s.accounts| {
      AccountIs(e, before, id);
      var c: nat :| IsAccount(e, before, c, id, s.accounts[id]);
      StepFlags(e, s, a, id);
      assert before[..c] == actions[..c] && before[c] == actions[c];
      assert IsAccount(e, actions, c, id, Step(e, s, a).accounts[id]);
    } else {
      StepKeepsIdentity(e, s, a);
      StepCreates(e, s, a);
      assert IsAccount(e, actions, n, id, Step(e, s, a).accounts[id]);
    }
  }

  // ----- sign-in ---------------------------------------------------------------------------------------------

  function HashOf(a: Action): string {
    match a
    case CreateAccount(_, _, hash, _, _) => hash
    case AdminReset(_, _, hash, _) => hash
    case ChangePassword(_, _, _, _, hash, _) => hash
    case ResetPassword(_, _, _, hash, _) => hash
    case _ => ""
  }

  /** The action that made the account, and the one that carried its password. */
  lemma AccountHistory(e: Env, actions: seq<Action>, id: nat) returns (c: nat, j: nat)
    requires id < |Exec(e, NO_ACCOUNTS, actions).accounts|
    ensures IsAccount(e, actions, c, id, Exec(e, NO_ACCOUNTS, actions).accounts[id])
    ensures c < |actions| && actions[c].CreateAccount? && j < |actions| && LastCarrier(e, actions, j, id)
    ensures var x := Exec(e, NO_ACCOUNTS, actions).accounts[id];
            x.passwordHash == HashOf(actions[j]) && Epoch(x) == if actions[j].CreateAccount? then 0 else actions[j].now
  {
    AccountIs(e, actions, id);
    StoredPassword(e, actions, id);
    hide Exec, LastCarrier, ActiveSince, MfaSince;
    c :| IsAccount(e, actions, c, id, Exec(e, NO_ACCOUNTS, actions).accounts[id]);
    j :| StoredBy(e, actions, j, id, Exec(e, NO_ACCOUNTS, actions).accounts[id]);
  }

  /** The address finds its account. */
  lemma FindsAccount(s: State, id: nat, userType: UserType, email: string)
    requires Unique(s) && id < |s.accounts| && s.accounts[id].userType == userType && s.accounts[id].email == email
    ensures FindEmail(s.accounts, userType, email, 0) == Some(id)
  {
    assert SoleAddress(s, id);
  }

  /** What a login to account `id` answers. */
  ghost predicate LoginAnswered(e: Env, actions: seq<Action>, c: nat, j: nat, id: nat, password: string, second: bool,
                                s: State, z: State, r: Option<Error>)
    requires c < |actions| && actions[c].CreateAccount? && j < |actions|
  {
    if ActiveSince(actions, c, id) && e.compare(password, HashOf(actions[j]))
       && (actions[c].userType.Staff? && MfaSince(actions, c, id) ==> second)
    then r.None?
         && z == s.(access := s.access + [
                   Access(actions[c].userType, id, if actions[j].CreateAccount? then 0 else actions[j].now)])
    else r == Some(Unauthorized) && z == s
  }

  /**
   After any run a login is accepted if and only if the account was last left active, the password compares
   with the hash its last accepted change carried, and the second factor is given where it was last switched on;
   it then adds one token of that change's epoch, and otherwise nothing.
   */
  lemma LoginFollowsHistory(e: Env, actions: seq<Action>, id: nat, userType: UserType, email: string,
                            password: string, second: bool)
    requires var s := Exec(e, NO_ACCOUNTS, actions);
             id < |s.accounts| && s.accounts[id].userType == userType && s.accounts[id].email == e.lower(email)
    ensures var s := Exec(e, NO_ACCOUNTS, actions);
            var (z, r) := LoginStep(e, s, userType, email, password, second);
            exists c: nat, j: nat ::
              && c < |actions| && actions[c].CreateAccount?
              && Creates(e, Exec(e, NO_ACCOUNTS, actions[..c]), actions[c], id)
              && j < |actions|
              && LastCarrier(e, actions, j, id)
              && LoginAnswered(e, actions, c, j, id, password, second, s, z, r)
  {
    hide Exec, Unique, FindEmail, LastCarrier, ActiveSince, MfaSince, HashOf, Creates;
    var s := Exec(e, NO_ACCOUNTS, actions);
    RunUnique(e, actions);
    FindsAccount(s, id, userType, e.lower(email));
    var c, j := AccountHistory(e, actions, id);
    var (z, r) := LoginStep(e, s, userType, email, password, second);
    assert LoginAnswered(e, actions, c, j, id, password, second, s, z, r);
  }

  /** An address without an account is answered like a wrong password. */
  lemma NobodyLogsIn(e: Env, s: State, userType: UserType, email: string, password: string, second: bool)
    requires forall k | 0 <= k < |s.accounts| ::
               s.accounts[k].userType != userType || s.accounts[k].email != e.lower(email)
    ensures LoginStep(e, s, userType, email, password, second) == (s, Some(Unauthorized))
  {
    hide FindEmail;
  }

  /**
   After any run a password change is accepted if and only if the account is there, the new password is long
   enough, and the current one compares with the hash its last accepted change carried; the new hash then
   decides the next one.
   */
  lemma ChangeFollowsHistory(e: Env, actions: seq<Action>, id: nat, current: string, next: string, hash: string,
                             now: int)
    requires id < |Exec(e, NO_ACCOUNTS, actions).accounts|
    ensures var s := Exec(e, NO_ACCOUNTS, actions);
            exists j: nat ::
              && LastCarrier(e, actions, j, id)
              && var (z, r) := ChangePasswordStep(e, s, s.accounts[id].userType, id, current, next, hash, now);
                 if |next| >= 8 && e.compare(current, HashOf(actions[j])) then
                   && r.None? && id < |z.accounts| && z.accounts[id].passwordHash == hash
                   && z.accounts[id].passwordChangedAt == Some(now) && !z.accounts[id].mustChangePassword
                   && z == s.(accounts := s.accounts[id := z.accounts[id]])
                 else r == Some(BadRequest) && z == s
  {
    hide Exec, LastCarrier, ActiveSince, MfaSince, HashOf, Creates, ChangePasswordStep;
    var c, j := AccountHistory(e, actions, id);
    ChangeAnswered(e, Exec(e, NO_ACCOUNTS, actions), id, current, next, hash, now);
  }

  /** Nobody changes a password that is not there, or through the other kind's door. */
  lemma StrangerChangesNothing(e: Env, s: State, t: UserType, id: nat, current: string, next: string, hash: string,
                               now: int)
    requires id < |s.accounts| ==> s.accounts[id].userType != t
    ensures ChangePasswordStep(e, s, t, id, current, next, hash, now) == (s, Some(Unauthorized))
  {
  }

  /** The guard of one kind of user lets a token pass exactly if it is of that kind and of an active account of that
      kind, whose password was not changed at a later time than the token's epoch. */
  lemma GuardAnswered(accounts: seq<Account>, token: Access, guard: UserType)
    ensures Validate(accounts, token, guard) <==>
            exists x :: 0 <= token.sub < |accounts| && accounts[token.sub] == x && x.active
                        && token.kind == guard == x.userType
                        && (x.passwordChangedAt == None || x.passwordChangedAt.value <= token.pwdIat)
  {
  }

  lemma ChangeAnswered(e: Env, s: State, id: nat, current: string, next: string, hash: string, now: int)
    requires id < |s.accounts|
    ensures var x := s.accounts[id];
            var (z, r) := ChangePasswordStep(e, s, x.userType, id, current, next, hash, now);
            if |next| >= 8 && e.compare(current, x.passwordHash) then
              && r.None? && id < |z.accounts| && z.accounts[id].passwordHash == hash
              && z.accounts[id].passwordChangedAt == Some(now) && !z.accounts[id].mustChangePassword
              && z == s.(accounts := s.accounts[id := z.accounts[id]])
            else r == Some(BadRequest) && z == s
  {
  }

  // ----- the reset link --------------------------------------------------------------------------------------

  /**
   The whole path of a forgotten password, after any run: the link mailed to an active account sets its password
   exactly within one hour and for a password of eight characters or more, and then logs it in with that.
   */
  lemma ResetLinkWorks(e: Env, actions: seq<Action>, id: nat, email: string, raw: string, asked: int, next: string,
                       hash: string, now: int)
    requires var s := Exec(e, NO_ACCOUNTS, actions);
             && id < |s.accounts| && s.accounts[id].active && s.accounts[id].email == e.lower(e.trim(email))
             && raw != "" && forall k | 0 <= k < |s.resets| :: s.resets[k].tokenHash != e.digest(raw)
    ensures var s := Exec(e, NO_ACCOUNTS, actions);
            var t := s.accounts[id].userType;
            var (y, q) := RequestResetStep(e, s, t, email, raw, asked);
            var (z, r) := ResetPasswordStep(e, y, t, raw, next, hash, now);
            && q.None? && y.accounts == s.accounts && |y.resets| == |s.resets| + 1
            && if |next| >= 8 && now <= asked + 3_600_000
               then r.None? && |z.accounts| == |s.accounts| && z.accounts[id].passwordHash == hash
                    && z.accounts[id].passwordChangedAt == Some(now) && !z.accounts[id].mustChangePassword
                    && forall k | 0 <= k < |s.accounts| && k != id :: z.accounts[k] == s.accounts[k]
               else r == Some(BadRequest) && z == y
  {
    RunUnique(e, actions);
    var s := Exec(e, NO_ACCOUNTS, actions);
    var t := s.accounts[id].userType;
    FindsAccount(s, id, t, e.lower(e.trim(email)));
    hide Exec, Burn;
    var y := RequestResetStep(e, s, t, email, raw, asked).0;
    LinkStored(e, s, id, t, email, raw, asked);
    LinkFound(e, y, raw, |s.resets|);
    hide FindEmail, FindReset, RequestResetStep, Unique;
  }

  /** A reset is accepted if and only if its link is of some account, unused and in its hour, and the new password is
      long enough. */
  lemma ResetFollowsLink(e: Env, actions: seq<Action>, t: UserType, raw: string, next: string, hash: string, now: int)
    ensures var s := Exec(e, NO_ACCOUNTS, actions);
            var (z, r) := ResetPasswordStep(e, s, t, raw, next, hash, now);
            if raw != "" && |next| >= 8 && exists id: nat :: id < |s.accounts| && OpensReset(e, s, t, raw, id, now)
            then r == None else r == Some(BadRequest) && z == s
  {
    RunUnique(e, actions);
    RunKinds(e, actions);
    var s := Exec(e, NO_ACCOUNTS, actions);
    hide Exec, Unique, Burn, FindReset, OpensReset;
    if k :| 0 <= k < |s.resets| && s.resets[k].tokenHash == e.digest(raw) {
      FindsToken(e, s, raw, k);
      assert OpensReset(e, s, t, raw, s.resets[k].userId, now) <==> Usable(s.resets[k], t, now);
    } else {
      NoLink(e, s, t, raw, now);
    }
  }

  lemma NoLink(e: Env, s: State, t: UserType, raw: string, now: int)
    requires forall k | 0 <= k < |s.resets| :: s.resets[k].tokenHash != e.digest(raw)
    ensures FindReset(s.resets, e.digest(raw), 0) == None && forall id: nat :: !OpensReset(e, s, t, raw, id, now)
  {
  }

  /** A request for an address that has no active account changes nothing and says nothing. */
  lemma NobodyIsMailed(e: Env, s: State, t: UserType, email: string, raw: string, now: int)
    requires forall k | 0 <= k < |s.accounts| ::
               s.accounts[k].userType != t || s.accounts[k].email != e.lower(e.trim(email)) || !s.accounts[k].active
    ensures RequestResetStep(e, s, t, email, raw, now) == (s, None)
  {
    hide FindEmail;
  }

  /** A token digest that is taken is refused. */
  lemma TakenTokenRefused(e: Env, s: State, id: nat, t: UserType, email: string, raw: string, now: int)
    requires Unique(s) && id < |s.accounts| && s.accounts[id].userType == t && s.accounts[id].active
    requires s.accounts[id].email == e.lower(e.trim(email))
    requires exists k :: 0 <= k < |s.resets| && s.resets[k].tokenHash == e.digest(raw)
    ensures RequestResetStep(e, s, t, email, raw, now) == (s, Some(Conflict))
  {
    FindsAccount(s, id, t, e.lower(e.trim(email)));
    hide FindEmail, Unique;
  }

  lemma LinkStored(e: Env, s: State, id: nat, t: UserType, email: string, raw: string, asked: int)
    requires FindEmail(s.accounts, t, e.lower(e.trim(email)), 0) == Some(id)
    requires id < |s.accounts| && s.accounts[id].active
    requires forall k | 0 <= k < |s.resets| :: s.resets[k].tokenHash != e.digest(raw)
    ensures RequestResetStep(e, s, t, email, raw, asked) ==
            (s.(resets := s.resets + [Reset(e.digest(raw), t, id, asked + RESET_TTL_MS, None)]), None)
  {
    hide FindEmail;
  }

  lemma LinkFound(e: Env, s: State, raw: string, k: nat)
    requires k < |s.resets| && s.resets[k].tokenHash == e.digest(raw)
    requires forall i | 0 <= i < |s.resets| && i != k :: s.resets[i].tokenHash != e.digest(raw)
    ensures FindReset(s.resets, e.digest(raw), 0) == Some(k)
  {
  }

  // ----- step-up ------------------------------------------------------------------------------------------------

  /**
   After any run a re-authentication is accepted if and only if it is an active staff member's, with the password
   of the last accepted change and the second factor where it is on; the token it mints then serves its scope,
   and its provider or every provider, for exactly five minutes.
   */
  lemma StepUpFollowsHistory(e: Env, actions: seq<Action>, id: nat, password: string, scope: string,
                             providerId: Option<string>, second: bool, now: int)
    requires id < |Exec(e, NO_ACCOUNTS, actions).accounts|
    ensures var s := Exec(e, NO_ACCOUNTS, actions);
            exists c: nat, j: nat ::
              && c < |actions| && actions[c].CreateAccount?
              && Creates(e, Exec(e, NO_ACCOUNTS, actions[..c]), actions[c], id)
              && j < |actions|
              && LastCarrier(e, actions, j, id)
              && var (z, r) := StepUpStep(e, s, id, password, scope, providerId, second, now);
                 if actions[c].userType.Staff? && ActiveSince(actions, c, id)
                    && e.compare(password, HashOf(actions[j])) && (MfaSince(actions, c, id) ==> second)
                 then r.None? && |z.stepUps| == |s.stepUps| + 1 && z == s.(stepUps := z.stepUps)
                      && Serves(z, z.stepUps[|s.stepUps|], id, scope, providerId, now)
                 else r == Some(Unauthorized) && z == s
  {
    hide Exec, LastCarrier, ActiveSince, MfaSince, HashOf, StepUpStep, Serves, Creates;
    var c, j := AccountHistory(e, actions, id);
    StepUpAnswered(e, Exec(e, NO_ACCOUNTS, actions), id, password, scope, providerId, second, now);
  }

  lemma StepUpAnswered(e: Env, s: State, id: nat, password: string, scope: string, providerId: Option<string>,
                       second: bool, now: int)
    requires id < |s.accounts|
    ensures var x := s.accounts[id];
            var (z, r) := StepUpStep(e, s, id, password, scope, providerId, second, now);
            if x.userType.Staff? && x.active && e.compare(password, x.passwordHash) && (x.mfa ==> second)
            then r.None? && |z.stepUps| == |s.stepUps| + 1 && z == s.(stepUps := z.stepUps)
                 && Serves(z, z.stepUps[|s.stepUps|], id, scope, providerId, now)
            else r == Some(Unauthorized) && z == s
  {
  }

  /** The token stands for `id`, in this scope and for this provider, until five minutes after `now`. */
  ghost predicate Serves(s: State, token: StepUp, id: nat, scope: string, providerId: Option<string>, now: int) {
    forall t: int, asked: string, p: Option<string> ::
      VerifyStepUp(s, token, asked, p, t) ==
      if t / 1000 < now / 1000 + 300 && asked == scope
         && (providerId.Some? && providerId.value != "" && p.Some? && p.value != "" ==> p == providerId)
      then Some(id) else None
  }

  /** A running session is renewed, for five more minutes each time, exactly until eight hours after it began. */
  lemma RenewalServes(s: State, token: StepUp, now: int)
    requires token in s.stepUps
    ensures var (z, r) := RenewStep(s, token, now);
            if now / 1000 < token.exp && now / 1000 < token.origIat + 28_800
            then r.None? && |z.stepUps| == |s.stepUps| + 1 && z == s.(stepUps := z.stepUps)
                 && z.stepUps[|s.stepUps|].origIat == token.origIat
                 && Serves(z, z.stepUps[|s.stepUps|], token.sub, token.scope, token.providerId, now)
            else r == Some(Unauthorized) && z == s
  {
  }
}
