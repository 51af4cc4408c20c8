/**
 Password epochs, reset tokens and sliding step-up sessions. Requests are atomic and carry their own clock
 reading in milliseconds. A signed token is modelled by its claims; only minted claims verify.
 */
module Sessions {
  import opened Wrappers

  const STEP_UP_IDLE_TTL := 5 * 60
  const STEP_UP_HARD_CEILING := 8 * 60 * 60
  const RESET_TTL_MS := 60 * 60 * 1000

  /** String helpers, the token digest and the password comparison. */
  datatype Env = Env(
    lower: string -> string,
    trim: string -> string,
    digest: string -> string,
    compare: (string, string) -> bool)

  datatype UserType = Staff | Provider

  datatype Account = Account(
    userType: UserType, email: string, active: bool, passwordHash: string, mfa: bool,
    passwordChangedAt: Option<int>, mustChangePassword: bool)

  datatype Reset = Reset(tokenHash: string, userType: UserType, userId: nat, expiresAt: int, usedAt: Option<int>)

  /** The claims of an access token: its kind, its account, and the password epoch it was minted in. */
  datatype Access = Access(kind: UserType, sub: nat, pwdIat: int)

  /** The claims of a step-up token; times in seconds. */
  datatype StepUp = StepUp(sub: nat, scope: string, providerId: Option<string>, origIat: int, exp: int)

  datatype State = State(accounts: seq<Account>, resets: seq<Reset>, access: seq<Access>, stepUps: seq<StepUp>)

  datatype Error = Unauthorized | BadRequest | Conflict

  const NO_ACCOUNTS := State([], [], [], [])

  // ----- lookups -----------------------------------------------------------------------------------------

  function FindEmail(accounts: seq<Account>, userType: UserType, email: string, i: nat): (r: Option<nat>)
    requires i <= |accounts|
    ensures r.Some? ==>
              i <= r.value < |accounts| && accounts[r.value].userType == userType && accounts[r.value].email == email
    ensures r.None? ==> forall k | i <= k < |accounts| :: accounts[k].userType != userType || accounts[k].email != email
    decreases |accounts| - i
  {
    if i == |accounts| then None
    else if accounts[i].userType == userType && accounts[i].email == email then Some(i)
    else FindEmail(accounts, userType, email, i + 1)
  }

  function FindReset(resets: seq<Reset>, tokenHash: string, i: nat): (r: Option<nat>)
    requires i <= |resets|
    ensures r.Some? ==> i <= r.value < |resets| && resets[r.value].tokenHash == tokenHash
    ensures r.None? ==> forall k | i <= k < |resets| :: resets[k].tokenHash != tokenHash
    decreases |resets| - i
  {
    if i == |resets| then None
    else if resets[i].tokenHash == tokenHash then Some(i)
    else FindReset(resets, tokenHash, i + 1)
  }

  // ----- access tokens -----------------------------------------------------------------------------------

  /** The password epoch a token minted now would carry. */
  function Epoch(a: Account): int {
    if a.passwordChangedAt.Some? then a.passwordChangedAt.value else 0
  }

  /** The guard of each kind of user: a token of that kind, of an active account, of no earlier epoch. */
  predicate Validate(accounts: seq<Account>, token: Access, guard: UserType) {
    && token.kind == guard && token.sub < |accounts| && accounts[token.sub].userType == guard
    && accounts[token.sub].active
    && (accounts[token.sub].passwordChangedAt.Some? ==> token.pwdIat >= accounts[token.sub].passwordChangedAt.value)
  }

  /** `secondFactor` is whether a code was sent and verified; only staff accounts with MFA need one. */
  function LoginStep(e: Env, s: State, userType: UserType, email: string, password: string, secondFactor: bool)
    : (State, Option<Error>)
  {
    match FindEmail(s.accounts, userType, e.lower(email), 0)
    case None => (s, Some(Unauthorized))
    case Some(i) =>
      var a := s.accounts[i];
      if !a.active || !e.compare(password, a.passwordHash) || (userType.Staff? && a.mfa && !secondFactor)
          then (s, Some(Unauthorized))
      else (s.(access := s.access + [Access(userType, i, Epoch(a))]), None)
  }

  function WithPassword(s: State, id: nat, hash: string, now: int, mustChange: bool): State
    requires id < |s.accounts|
  {
    s.(accounts := s.accounts[id := s.accounts[id].(
         passwordHash := hash, passwordChangedAt := Some(now), mustChangePassword := mustChange)])
  }

  function ChangePasswordStep(e: Env, s: State, userType: UserType, id: nat, current: string, next: string,
                              hash: string, now: int)
    : (State, Option<Error>)
  {
    if id >= |s.accounts| || s.accounts[id].userType != userType then (s, Some(Unauthorized))
    else if !e.compare(current, s.accounts[id].passwordHash) || |next| < 8 then (s, Some(BadRequest))
    else (WithPassword(s, id, hash, now, false), None)
  }

  // ----- password reset ------------------------------------------------------------------------------------

  /** Nothing tells the caller whether the account exists; `raw` is the random token that is mailed. */
  function RequestResetStep(e: Env, s: State, userType: UserType, email: string, raw: string, now: int)
    : (State, Option<Error>)
  {
    match FindEmail(s.accounts, userType, e.lower(e.trim(email)), 0)
    case None => (s, None)
    case Some(i) =>
      if !s.accounts[i].active then (s, None)
      else if FindReset(s.resets, e.digest(raw), 0).Some? then (s, Some(Conflict))
      else (s.(resets := s.resets + [Reset(e.digest(raw), userType, i, now + RESET_TTL_MS, None)]), None)
  }

  predicate Usable(r: Reset, userType: UserType, now: int) {
    r.userType == userType && r.usedAt.None? && r.expiresAt >= now
  }

  /** Every unused token of the account is burnt, the one just used among them. */
  function Burn(resets: seq<Reset>, userType: UserType, userId: nat, now: int): (r: seq<Reset>)
    ensures |r| == |resets|
    ensures forall k | 0 <= k < |r| :: r[k] == BurnOne(resets[k], userType, userId, now)
  {
    if resets == [] then []
    else Burn(resets[..|resets| - 1], userType, userId, now) + [BurnOne(resets[|resets| - 1], userType, userId, now)]
  }

  function BurnOne(r: Reset, userType: UserType, userId: nat, now: int): Reset {
    if r.userType == userType && r.userId == userId && r.usedAt.None? then r.(usedAt := Some(now)) else r
  }

  function ResetPasswordStep(e: Env, s: State, userType: UserType, raw: string, next: string, hash: string, now: int)
    : (State, Option<Error>)
  {
    if raw == "" || |next| < 8 then (s, Some(BadRequest))
    else
      match FindReset(s.resets, e.digest(raw), 0)
      case None => (s, Some(BadRequest))
      case Some(k) =>
        var id := s.resets[k].userId;
        if !Usable(s.resets[k], userType, now) || id >= |s.accounts| then (s, Some(BadRequest))
        else (WithPassword(s, id, hash, now, false).(resets := Burn(s.resets, userType, id, now)), None)
  }

  // ----- step-up sessions ------------------------------------------------------------------------------------

  function Seconds(now: int): int {
    now / 1000
  }

  function StepUpStep(e: Env, s: State, id: nat, password: string, scope: string, providerId: Option<string>,
                      secondFactor: bool, now: int)
    : (State, Option<Error>)
  {
    if id >= |s.accounts| || !s.accounts[id].userType.Staff? || !s.accounts[id].active then (s, Some(Unauthorized))
    else if !e.compare(password, s.accounts[id].passwordHash) || (s.accounts[id].mfa && !secondFactor)
        then (s, Some(Unauthorized))
    else
      var t := Seconds(now);
      (s.(stepUps := s.stepUps + [StepUp(id, scope, providerId, t, t + STEP_UP_IDLE_TTL)]), None)
  }

  /** A token verifies while it has not expired, if it was minted. */
  predicate Verifies(s: State, token: StepUp, now: int) {
    token in s.stepUps && Seconds(now) < token.exp
  }

  function RenewStep(s: State, token: StepUp, now: int): (State, Option<Error>) {
    var t := Seconds(now);
    if !Verifies(s, token, now) || t - token.origIat >= STEP_UP_HARD_CEILING then (s, Some(Unauthorized))
    else (s.(stepUps := s.stepUps + [token.(exp := t + STEP_UP_IDLE_TTL)]), None)
  }

  /** A token without a provider serves every provider, and a call without one accepts every token. */
  function VerifyStepUp(s: State, token: StepUp, scope: string, providerId: Option<string>, now: int): Option<nat> {
    if !Verifies(s, token, now) || token.scope != scope then None
    else if token.providerId.Some? && token.providerId.value != "" && providerId.Some? && providerId.value != ""
         && token.providerId != providerId then None
    else Some(token.sub)
  }

  // ----- the service ---------------------------------------------------------------------------------------------

  class AuthService {
    const e: Env
    var accounts: seq<Account>
    var resets: seq<Reset>
    var access: seq<Access>
    var stepUps: seq<StepUp>

    constructor (e: Env)
      ensures this.e == e && Contents() == NO_ACCOUNTS
    {
      this.e := e;
      accounts, resets, access, stepUps := [], [], [], [];
    }

    function Contents(): State
      reads this
    {
      State(accounts, resets, access, stepUps)
    }

    method ByEmail(userType: UserType, email: string) returns (r: Option<nat>)
      ensures r == FindEmail(accounts, userType, email, 0)
    {
      var i := 0;
      while i < |accounts|
        invariant i <= |accounts|
        invariant FindEmail(accounts, userType, email, 0) == FindEmail(accounts, userType, email, i)
      {
        if accounts[i].userType == userType && accounts[i].email == email { return Some(i); }
        i := i + 1;
      }
      return None;
    }

    method ByTokenHash(tokenHash: string) returns (r: Option<nat>)
      ensures r == FindReset(resets, tokenHash, 0)
    {
      var i := 0;
      while i < |resets|
        invariant i <= |resets|
        invariant FindReset(resets, tokenHash, 0) == FindReset(resets, tokenHash, i)
      {
        if resets[i].tokenHash == tokenHash { return Some(i); }
        i := i + 1;
      }
      return None;
    }

    method Login(userType: UserType, email: string, password: string, secondFactor: bool) returns (r: Option<Error>)
      modifies this
      ensures (Contents(), r) == LoginStep(e, old(Contents()), userType, email, password, secondFactor)
    {
      var found := ByEmail(userType, e.lower(email));
      if found.None? { return Some(Unauthorized); }
      var user := accounts[found.value];
      if !user.active || !e.compare(password, user.passwordHash) { return Some(Unauthorized); }
      if userType.Staff? && user.mfa && !secondFactor { return Some(Unauthorized); }
      access := access + [Access(userType, found.value, Epoch(user))];
      return None;
    }

    method ChangePassword(userType: UserType, id: nat, current: string, next: string, hash: string, now: int)
      returns (r: Option<Error>)
      modifies this
      ensures (Contents(), r) == ChangePasswordStep(e, old(Contents()), userType, id, current, next, hash, now)
    {
      if id >= |accounts| || accounts[id].userType != userType { return Some(Unauthorized); }
      if !e.compare(current, accounts[id].passwordHash) { return Some(BadRequest); }
      if |next| < 8 { return Some(BadRequest); }
      accounts := accounts[id := accounts[id].(
        passwordHash := hash, passwordChangedAt := Some(now), mustChangePassword := false)];
      return None;
    }

    method RequestPasswordReset(userType: UserType, email: string, raw: string, now: int) returns (r: Option<Error>)
      modifies this
      ensures (Contents(), r) == RequestResetStep(e, old(Contents()), userType, email, raw, now)
    {
      var found := ByEmail(userType, e.lower(e.trim(email)));
      if found.Some? && accounts[found.value].active {
        var clash := ByTokenHash(e.digest(raw));
        if clash.Some? { return Some(Conflict); }
        resets := resets + [Reset(e.digest(raw), userType, found.value, now + RESET_TTL_MS, None)];
      }
      return None;
    }

    /** The token itself, then every other outstanding one of the account. */
    method BurnTokens(k: nat, userType: UserType, userId: nat, now: int)
      requires k < |resets| && resets[k].userType == userType && resets[k].userId == userId && resets[k].usedAt.None?
      modifies this`resets
      ensures resets == Burn(old(resets), userType, userId, now)
    {
      resets := resets[k := resets[k].(usedAt := Some(now))];
      var i := 0;
      while i < |resets|
        invariant i <= |resets| == |old(resets)|
        invariant forall j | 0 <= j < i :: resets[j] == BurnOne(old(resets)[j], userType, userId, now)
        invariant forall j | i <= j < |resets| && j != k :: resets[j] == old(resets)[j]
        invariant i <= k ==> resets[k] == BurnOne(old(resets)[k], userType, userId, now)
      {
        if resets[i].userType == userType && resets[i].userId == userId && resets[i].usedAt.None? {
          resets := resets[i := resets[i].(usedAt := Some(now))];
        }
        i := i + 1;
      }
    }

    method ResetPassword(userType: UserType, raw: string, next: string, hash: string, now: int)
      returns (r: Option<Error>)
      modifies this
      ensures (Contents(), r) == ResetPasswordStep(e, old(Contents()), userType, raw, next, hash, now)
    {
      if raw == "" || |next| < 8 { return Some(BadRequest); }
      var found := ByTokenHash(e.digest(raw));
      if found.None? { return Some(BadRequest); }
      var k := found.value;
      var record := resets[k];
      if record.userType != userType || record.usedAt.Some? || record.expiresAt < now || record.userId >= |accounts| {
        return Some(BadRequest);
      }
      accounts := accounts[record.userId := accounts[record.userId].(
        passwordHash := hash, passwordChangedAt := Some(now), mustChangePassword := false)];
      BurnTokens(k, userType, record.userId, now);
      return None;
    }

    method Reauthenticate(id: nat, password: string, scope: string, providerId: Option<string>, secondFactor: bool,
                          now: int)
      returns (r: Option<Error>)
      modifies this
      ensures (Contents(), r) == StepUpStep(e, old(Contents()), id, password, scope, providerId, secondFactor, now)
    {
      if id >= |accounts| || !accounts[id].userType.Staff? || !accounts[id].active { return Some(Unauthorized); }
      if !e.compare(password, accounts[id].passwordHash) { return Some(Unauthorized); }
      if accounts[id].mfa && !secondFactor { return Some(Unauthorized); }
      var nowSec := Seconds(now);
      stepUps := stepUps + [StepUp(id, scope, providerId, nowSec, nowSec + STEP_UP_IDLE_TTL)];
      return None;
    }

    method RenewStepUp(token: StepUp, now: int) returns (r: Option<Error>)
      modifies this
      ensures (Contents(), r) == RenewStep(old(Contents()), token, now)
    {
      var nowSec := Seconds(now);
      if token !in stepUps || nowSec >= token.exp { return Some(Unauthorized); }
      if nowSec - token.origIat >= STEP_UP_HARD_CEILING { return Some(Unauthorized); }
      stepUps := stepUps + [StepUp(token.sub, token.scope, token.providerId, token.origIat, nowSec + STEP_UP_IDLE_TTL)];
      return None;
    }
  }

  // ----- runs ---------------------------------------------------------------------------------------------------

  datatype Action =
    | CreateAccount(userType: UserType, email: string, hash: string, active: bool, now: int)
    | SetActive(id: nat, active: bool, now: int)
    | AdminReset(id: nat, next: string, hash: string, now: int)  // an administrator issues a temporary password
    | SetMfa(id: nat, enabled: bool, now: int)     // the account's second factor is switched on or off
    | Login(userType: UserType, email: string, password: string, secondFactor: bool, now: int)
    | ChangePassword(userType: UserType, id: nat, current: string, next: string, hash: string, now: int)
    | RequestReset(userType: UserType, email: string, raw: string, now: int)
    | ResetPassword(userType: UserType, raw: string, next: string, hash: string, now: int)
    | Reauthenticate(id: nat, password: string, scope: string, providerId: Option<string>, secondFactor: bool, now: int)
    | Renew(token: StepUp, now: int)

  function Step(e: Env, s: State, a: Action): State {
    match a
    case CreateAccount(t, email, hash, active, _) =>
      if FindEmail(s.accounts, t, e.lower(email), 0).Some? then s
      else s.(accounts := s.accounts + [Account(t, e.lower(email), active, hash, false, None, t.Provider?)])
    case SetActive(id, active, _) =>
      if id < |s.accounts| then s.(accounts := s.accounts[id := s.accounts[id].(active := active)]) else s
    case AdminReset(id, next, hash, now) =>
      if id < |s.accounts| && |next| >= 8 then WithPassword(s, id, hash, now, true) else s
    case SetMfa(id, enabled, _) =>
      if id < |s.accounts| then s.(accounts := s.accounts[id := s.accounts[id].(mfa := enabled)]) else s
    case Login(t, email, password, second, _) => LoginStep(e, s, t, email, password, second).0
    case ChangePassword(t, id, current, next, hash, now) => ChangePasswordStep(e, s, t, id, current, next, hash, now).0
    case RequestReset(t, email, raw, now) => RequestResetStep(e, s, t, email, raw, now).0
    case ResetPassword(t, raw, next, hash, now) => ResetPasswordStep(e, s, t, raw, next, hash, now).0
    case Reauthenticate(id, password, scope, p, second, now) => StepUpStep(e, s, id, password, scope, p, second, now).0
    case Renew(token, now) => RenewStep(s, token, now).0
  }

  function Exec(e: Env, s: State, actions: seq<Action>): State {
    if actions == [] then s else Step(e, Exec(e, s, actions[..|actions| - 1]), actions[|actions| - 1])
  }

  lemma ExecSnoc(e: Env, actions: seq<Action>, a: Action)
    ensures Exec(e, NO_ACCOUNTS, actions + [a]) == Step(e, Exec(e, NO_ACCOUNTS, actions), a)
  {
    assert (actions + [a])[..|actions|] == actions;
  }

  lemma PrefixKept(actions: seq<Action>, a: Action, i: nat)
    requires i <= |actions|
    ensures (actions + [a])[..i] == actions[..i]
  {
  }

  // ----- step-up chains -------------------------------------------------------------------------------------------

  /** Action `i` is a staff member's own re-authentication that started the session of `token`. */
  predicate StartedAt(e: Env, actions: seq<Action>, i: nat, token: StepUp) {
    && i < |actions| && actions[i].Reauthenticate?
    && actions[i].id == token.sub && actions[i].scope == token.scope && actions[i].providerId == token.providerId
    && token.origIat == Seconds(actions[i].now)
    && var s := Exec(e, NO_ACCOUNTS, actions[..i]);
       && token.sub < |s.accounts| && s.accounts[token.sub].userType.Staff? && s.accounts[token.sub].active
       && e.compare(actions[i].password, s.accounts[token.sub].passwordHash)
       && (s.accounts[token.sub].mfa ==> actions[i].secondFactor)
  }

  ghost predicate Anchored(e: Env, actions: seq<Action>, token: StepUp) {
    && token.exp < token.origIat + STEP_UP_HARD_CEILING + STEP_UP_IDLE_TTL
    && exists i: nat :: StartedAt(e, actions, i, token)
  }

  lemma AnchoredLonger(e: Env, actions: seq<Action>, a: Action, token: StepUp)
    requires Anchored(e, actions, token)
    ensures Anchored(e, actions + [a], token)
  {
    hide Exec;
    var i: nat :| StartedAt(e, actions, i, token);
    PrefixKept(actions, a, i);
    assert StartedAt(e, actions + [a], i, token);
  }

  lemma NewStepUp(e: Env, actions: seq<Action>, a: Action, token: StepUp)
    requires forall t | t in Exec(e, NO_ACCOUNTS, actions).stepUps :: Anchored(e, actions, t)
    requires token in Step(e, Exec(e, NO_ACCOUNTS, actions), a).stepUps
    ensures Anchored(e, actions + [a], token)
  {
    var s := Exec(e, NO_ACCOUNTS, actions);
    hide Exec, Anchored;
    if token in s.stepUps {
      AnchoredLonger(e, actions, a, token);
    } else if a.Renew? {
      AnchoredLonger(e, actions, a, a.token);
      RenewedAnchored(e, actions + [a], a.token, token, Seconds(a.now));
    } else {
      StartsSession(e, actions, a, token);
    }
  }

  lemma StartsSession(e: Env, actions: seq<Action>, a: Action, token: StepUp)
    requires !a.Renew? && token !in Exec(e, NO_ACCOUNTS, actions).stepUps
    requires token in Step(e, Exec(e, NO_ACCOUNTS, actions), a).stepUps
    ensures Anchored(e, actions + [a], token)
  {
    hide Exec;
    PrefixKept(actions, a, |actions|);
    assert actions[..|actions|] == actions;
    assert StartedAt(e, actions + [a], |actions|, token);
  }

  lemma RenewedAnchored(e: Env, actions: seq<Action>, before: StepUp, token: StepUp, t: int)
    requires Anchored(e, actions, before) && t - before.origIat < STEP_UP_HARD_CEILING
    requires token == before.(exp := t + STEP_UP_IDLE_TTL)
    ensures Anchored(e, actions, token)
  {
    hide Exec;
    var i: nat :| StartedAt(e, actions, i, before);
    assert StartedAt(e, actions, i, token);
  }

  /**
   However often it is renewed, a step-up token keeps the subject, scope, provider and anchor of the one
   re-authentication that started its session, and expires before that plus eight hours and five minutes.
   */
  lemma {:induction false} StepUpChains(e: Env, actions: seq<Action>, token: StepUp)
    requires token in Exec(e, NO_ACCOUNTS, actions).stepUps
    ensures Anchored(e, actions, token)
    decreases |actions|
  {
    if actions != [] {
      var n := |actions| - 1;
      hide Step, Anchored;
      forall t | t in Exec(e, NO_ACCOUNTS, actions[..n]).stepUps ensures Anchored(e, actions[..n], t) {
        StepUpChains(e, actions[..n], t);
      }
      assert actions[..n] + [actions[n]] == actions;
      NewStepUp(e, actions[..n], actions[n], token);
    }
  }

  /** So an accepted check traces back to a re-authentication, for this scope, less than 8 h 05 min ago. */
  lemma VerifiedStepUp(e: Env, actions: seq<Action>, token: StepUp, scope: string, providerId: Option<string>, now: int)
    requires VerifyStepUp(Exec(e, NO_ACCOUNTS, actions), token, scope, providerId, now).Some?
    ensures exists i: nat :: StartedAt(e, actions, i, token) && token.scope == scope
              && VerifyStepUp(Exec(e, NO_ACCOUNTS, actions), token, scope, providerId, now) == Some(actions[i].id)
              && Seconds(now) < Seconds(actions[i].now) + STEP_UP_HARD_CEILING + STEP_UP_IDLE_TTL
  {
    StepUpChains(e, actions, token);
    hide Exec;
    var i: nat :| StartedAt(e, actions, i, token);
  }

  // ----- password epochs -------------------------------------------------------------------------------------------

  /** Action `a`, in state `s`, sets a new password for account `id`. */
  predicate Changes(e: Env, s: State, a: Action, id: nat) {
    match a
    case AdminReset(i, next, _, _) => i == id && id < |s.accounts| && |next| >= 8
    case ChangePassword(t, i, current, next, hash, now) =>
      i == id && ChangePasswordStep(e, s, t, i, current, next, hash, now).1.None?
    case ResetPassword(t, raw, next, hash, now) =>
      ResetPasswordStep(e, s, t, raw, next, hash, now).1.None? && ResetTarget(e, s, raw) == Some(id)
    case _ => false
  }

  /** The account a raw reset token belongs to. */
  function ResetTarget(e: Env, s: State, raw: string): Option<nat> {
    match FindReset(s.resets, e.digest(raw), 0)
    case None => None
    case Some(k) => Some(s.resets[k].userId)
  }

  /** The last action after action `m` of the run that set the account's password. */
  function LastChange(e: Env, actions: seq<Action>, m: nat, id: nat): (r: Option<nat>)
    ensures r.Some? ==> m < r.value < |actions|
    decreases |actions|
  {
    if |actions| <= m + 1 then None
    else
      var n := |actions| - 1;
      if Changes(e, Exec(e, NO_ACCOUNTS, actions[..n]), actions[n], id) then Some(n)
      else LastChange(e, actions[..n], m, id)
  }

  /** A clock that starts after the epoch and strictly advances. */
  predicate StrictClock(actions: seq<Action>) {
    && (forall i | 0 <= i < |actions| :: 0 < actions[i].now)
    && (forall i, j | 0 <= i < j < |actions| :: actions[i].now < actions[j].now)
  }

  /** What one action does to one account. */
  lemma StepAccount(e: Env, s: State, a: Action, id: nat)
    requires id < |s.accounts|
    ensures id < |Step(e, s, a).accounts| && Step(e, s, a).accounts[id].userType == s.accounts[id].userType
    ensures Step(e, s, a).accounts[id].passwordChangedAt ==
            if Changes(e, s, a, id) then Some(a.now) else s.accounts[id].passwordChangedAt
  {
    hide FindEmail, Burn;
  }

  /** A new password takes the old one, an unused token of the account within its hour, or an administrator. */
  predicate Entitled(e: Env, s: State, a: Action, id: nat) {
    && id < |s.accounts|
    && match a
       case AdminReset(i, next, _, _) => i == id && |next| >= 8
       case ChangePassword(_, i, current, next, _, _) =>
         i == id && e.compare(current, s.accounts[id].passwordHash) && |next| >= 8
       case ResetPassword(_, raw, next, _, now) =>
         && |next| >= 8
         && exists k :: 0 <= k < |s.resets| && s.resets[k].userId == id && s.resets[k].tokenHash == e.digest(raw)
                        && s.resets[k].usedAt.None? && now <= s.resets[k].expiresAt
       case _ => false
  }

  lemma ChangesEntitled(e: Env, s: State, a: Action, id: nat)
    requires Changes(e, s, a, id)
    ensures Entitled(e, s, a, id)
  {
    hide FindEmail, Burn;
  }

  /** Action `j` of the run sets the account's password. */
  predicate ChangesAt(e: Env, actions: seq<Action>, j: nat, id: nat)
    requires j < |actions|
  {
    Changes(e, Exec(e, NO_ACCOUNTS, actions[..j]), actions[j], id)
  }

  lemma ChangesAtPrefix(e: Env, actions: seq<Action>, n: nat, j: nat, id: nat)
    requires j < n <= |actions|
    ensures ChangesAt(e, actions[..n], j, id) == ChangesAt(e, actions, j, id)
  {
    assert actions[..n][..j] == actions[..j];
  }

  /** `r` is an entitled change, and nothing after it - or, if it is none, after `m` - is a change. */
  predicate IsLastChange(e: Env, actions: seq<Action>, m: nat, id: nat, r: Option<nat>) {
    && (r.Some? ==> r.value < |actions| && ChangesAt(e, actions, r.value, id)
                    && Entitled(e, Exec(e, NO_ACCOUNTS, actions[..r.value]), actions[r.value], id))
    && forall j: nat | (if r.Some? then r.value else m) < j < |actions| :: !ChangesAt(e, actions, j, id)
  }

  lemma StaysLastChange(e: Env, actions: seq<Action>, n: nat, m: nat, id: nat, r: Option<nat>)
    requires |actions| == n + 1 && IsLastChange(e, actions[..n], m, id, r) && !ChangesAt(e, actions, n, id)
    ensures IsLastChange(e, actions, m, id, r)
  {
    hide Exec, ChangesAt, Entitled;
    forall j: nat | j < n ensures ChangesAt(e, actions[..n], j, id) == ChangesAt(e, actions, j, id) {
      ChangesAtPrefix(e, actions, n, j, id);
    }
    if r.Some? { assert actions[..n][..r.value] == actions[..r.value]; }
  }

  lemma LastChangeUnfolds(e: Env, actions: seq<Action>, m: nat, id: nat)
    ensures LastChange(e, actions, m, id) ==
            if |actions| <= m + 1 then None
            else if ChangesAt(e, actions, |actions| - 1, id) then Some(|actions| - 1)
            else LastChange(e, actions[..|actions| - 1], m, id)
  {
    hide Exec, Changes;
  }

  /** What `LastChange` finds. */
  lemma {:induction false} LastChangeIs(e: Env, actions: seq<Action>, m: nat, id: nat)
    ensures IsLastChange(e, actions, m, id, LastChange(e, actions, m, id))
    decreases |actions|
  {
    hide Exec, LastChange, ChangesAt, Entitled;
    LastChangeUnfolds(e, actions, m, id);
    if |actions| > m + 1 {
      hide IsLastChange;
      var n := |actions| - 1;
      if ChangesAt(e, actions, n, id) {
        ChangesAtEntitled(e, actions, n, id);
        LastIsLast(e, actions, n, m, id);
      } else {
        LastChangeIs(e, actions[..n], m, id);
        StaysLastChange(e, actions, n, m, id, LastChange(e, actions[..n], m, id));
      }
    }
  }

  lemma ChangesAtEntitled(e: Env, actions: seq<Action>, n: nat, id: nat)
    requires n < |actions| && ChangesAt(e, actions, n, id)
    ensures Entitled(e, Exec(e, NO_ACCOUNTS, actions[..n]), actions[n], id)
  {
    hide Exec;
    ChangesEntitled(e, Exec(e, NO_ACCOUNTS, actions[..n]), actions[n], id);
  }

  lemma LastIsLast(e: Env, actions: seq<Action>, n: nat, m: nat, id: nat)
    requires |actions| == n + 1 && ChangesAt(e, actions, n, id)
    requires Entitled(e, Exec(e, NO_ACCOUNTS, actions[..n]), actions[n], id)
    ensures IsLastChange(e, actions, m, id, Some(n))
  {
    hide Exec, ChangesAt, Entitled;
  }

  /** Action `a`, in state `s`, is a login of the account of token `t`, with its password and second factor. */
  predicate LogsIn(e: Env, s: State, a: Action, t: Access) {
    && a.Login? && a.userType == t.kind && t.sub < |s.accounts|
    && var x := s.accounts[t.sub];
       && x.userType == t.kind && x.email == e.lower(a.email) && x.active && e.compare(a.password, x.passwordHash)
       && (x.userType.Staff? && x.mfa ==> a.secondFactor)
       && t.pwdIat == Epoch(x)
  }

  /** What one action does to the minted access tokens. */
  lemma StepAccess(e: Env, s: State, a: Action)
    ensures Step(e, s, a).access == s.access ||
            exists t: Access :: Step(e, s, a).access == s.access + [t] && LogsIn(e, s, a, t)
  {
    hide FindReset, Burn;
    if a.Login? {
      var i := FindEmail(s.accounts, a.userType, e.lower(a.email), 0);
      if i.Some? && Step(e, s, a).access != s.access {
        var t := Access(a.userType, i.value, Epoch(s.accounts[i.value]));
        assert Step(e, s, a).access == s.access + [t] && LogsIn(e, s, a, t);
      }
    }
  }

  /** No account's epoch is later than `now`. */
  predicate EpochsBy(s: State, now: int) {
    forall id | 0 <= id < |s.accounts| && s.accounts[id].passwordChangedAt.Some? ::
      0 < s.accounts[id].passwordChangedAt.value <= now
  }

  lemma StepEpochs(e: Env, s: State, a: Action)
    requires EpochsBy(s, a.now) && 0 < a.now
    ensures EpochsBy(Step(e, s, a), a.now)
  {
    var z := Step(e, s, a);
    forall id | 0 <= id < |z.accounts| && z.accounts[id].passwordChangedAt.Some?
      ensures 0 < z.accounts[id].passwordChangedAt.value <= a.now
    {
      if id < |s.accounts| {
        hide Step;
        StepAccount(e, s, a, id);
      } else {
        AccountsAdded(e, s, a);
      }
    }
  }

  lemma AccountsAdded(e: Env, s: State, a: Action)
    ensures |s.accounts| <= |Step(e, s, a).accounts|
    ensures |s.accounts| < |Step(e, s, a).accounts| ==>
              |Step(e, s, a).accounts| == |s.accounts| + 1
                  && Step(e, s, a).accounts[|s.accounts|].passwordChangedAt.None?
  {
    hide FindEmail, FindReset, Burn;
  }

  lemma {:induction false} RunEpochs(e: Env, actions: seq<Action>, now: int)
    requires StrictClock(actions) && forall i | 0 <= i < |actions| :: actions[i].now <= now
    ensures EpochsBy(Exec(e, NO_ACCOUNTS, actions), now)
    decreases |actions|
  {
    if actions != [] {
      hide Step, EpochsBy;
      var n := |actions| - 1;
      RunEpochs(e, actions[..n], actions[n].now);
      StepEpochs(e, Exec(e, NO_ACCOUNTS, actions[..n]), actions[n]);
      EpochsLater(Exec(e, NO_ACCOUNTS, actions), actions[n].now, now);
    } else {
      NoEpochs(now);
    }
  }

  lemma NoEpochs(now: int)
    ensures EpochsBy(NO_ACCOUNTS, now)
  {
  }

  lemma EpochsLater(s: State, now: int, later: int)
    requires EpochsBy(s, now) && now <= later
    ensures EpochsBy(s, later)
  {
  }

  /** Action `m` of the run minted `t`, and the account's epoch is that of the last change since, or of then. */
  predicate Tracked(e: Env, actions: seq<Action>, s: State, m: nat, t: Access) {
    && m < |actions| && LogsIn(e, Exec(e, NO_ACCOUNTS, actions[..m]), actions[m], t)
    && t.sub < |s.accounts| && s.accounts[t.sub].userType == t.kind
    && s.accounts[t.sub].passwordChangedAt ==
       match LastChange(e, actions, m, t.sub)
       case Some(j) => Some(actions[j].now)
       case None => Exec(e, NO_ACCOUNTS, actions[..m]).accounts[t.sub].passwordChangedAt
  }

  lemma LastChangeSnoc(e: Env, actions: seq<Action>, a: Action, m: nat, id: nat)
    requires m < |actions|
    ensures LastChange(e, actions + [a], m, id) ==
            if Changes(e, Exec(e, NO_ACCOUNTS, actions), a, id) then Some(|actions|) else LastChange(e, actions, m, id)
  {
    assert (actions + [a])[..|actions|] == actions;
  }

  lemma TrackedOn(e: Env, actions: seq<Action>, s: State, a: Action, m: nat, t: Access)
    requires s == Exec(e, NO_ACCOUNTS, actions) && Tracked(e, actions, s, m, t)
    ensures Tracked(e, actions + [a], Step(e, s, a), m, t)
  {
    LastChangeSnoc(e, actions, a, m, t.sub);
    StepAccount(e, s, a, t.sub);
    PrefixKept(actions, a, m);
    hide Exec, Step, Changes, LastChange, LogsIn;
  }

  lemma TrackedNew(e: Env, actions: seq<Action>, s: State, a: Action, t: Access)
    requires s == Exec(e, NO_ACCOUNTS, actions) && LogsIn(e, s, a, t)
    ensures Tracked(e, actions + [a], Step(e, s, a), |actions|, t)
  {
    StepAccount(e, s, a, t.sub);
    PrefixKept(actions, a, |actions|);
    assert actions[..|actions|] == actions;
    hide Exec, Step;
  }

  ghost predicate IsTracked(e: Env, actions: seq<Action>, s: State, t: Access) {
    exists m: nat :: Tracked(e, actions, s, m, t)
  }

  lemma TokenTrackedStep(e: Env, before: seq<Action>, s: State, a: Action, k: nat)
    requires s == Exec(e, NO_ACCOUNTS, before)
    requires k < |s.access| ==> IsTracked(e, before, s, s.access[k])
    ensures var z := Step(e, s, a); k < |z.access| ==> IsTracked(e, before + [a], z, z.access[k])
  {
    hide Exec, Step, Tracked, LogsIn;
    StepAccess(e, s, a);
    if k < |s.access| {
      var m: nat :| Tracked(e, before, s, m, s.access[k]);
      TrackedOn(e, before, s, a, m, s.access[k]);
    } else if k < |Step(e, s, a).access| {
      TrackedNew(e, before, s, a, Step(e, s, a).access[k]);
    }
  }

  lemma {:induction false} EveryTokenTracked(e: Env, actions: seq<Action>, k: nat)
    requires k < |Exec(e, NO_ACCOUNTS, actions).access|
    ensures IsTracked(e, actions, Exec(e, NO_ACCOUNTS, actions), Exec(e, NO_ACCOUNTS, actions).access[k])
    decreases |actions|
  {
    if actions != [] {
      hide Exec, Step, IsTracked;
      var n := |actions| - 1;
      var before, a := actions[..n], actions[n];
      assert before + [a] == actions;
      ExecSnoc(e, before, a);
      if k < |Exec(e, NO_ACCOUNTS, before).access| { EveryTokenTracked(e, before, k); }
      TokenTrackedStep(e, before, Exec(e, NO_ACCOUNTS, before), a, k);
    }
  }

  /** Action `m` of the run is the login that minted `t`, and the guard accepts `t` exactly on active accounts whose
      last password change since then, if any, was stamped no later than the epoch of that login. */
  ghost predicate GuardFollows(e: Env, actions: seq<Action>, s: State, m: nat, t: Access) {
    && m < |actions| && LogsIn(e, Exec(e, NO_ACCOUNTS, actions[..m]), actions[m], t)
    && t.sub < |s.accounts| && t.kind == s.accounts[t.sub].userType
    && (Validate(s.accounts, t, t.kind) <==>
          && s.accounts[t.sub].active
          && match LastChange(e, actions, m, t.sub)
             case None => true
             case Some(j) => actions[j].now <= t.pwdIat)
  }

  lemma TrackedValid(e: Env, actions: seq<Action>, s: State, m: nat, t: Access)
    requires Tracked(e, actions, s, m, t)
    ensures GuardFollows(e, actions, s, m, t)
  {
    hide Exec, LastChange;
  }

  /**
   Every token was minted by a login with its account's password, and whatever the clock does, the guard
   accepts it exactly when the account is active and the last password change since that login - by its
   owner, a completed reset or an administrator - is stamped no later than the epoch the token carries.
   */
  lemma ValidUnlessChangedLater(e: Env, actions: seq<Action>, k: nat)
    requires k < |Exec(e, NO_ACCOUNTS, actions).access|
    ensures var s := Exec(e, NO_ACCOUNTS, actions); exists m: nat :: GuardFollows(e, actions, s, m, s.access[k])
  {
    hide Exec, Tracked, GuardFollows;
    EveryTokenTracked(e, actions, k);
    var s := Exec(e, NO_ACCOUNTS, actions);
    var m: nat :| Tracked(e, actions, s, m, s.access[k]);
    TrackedValid(e, actions, s, m, s.access[k]);
  }

  /** On a strictly advancing clock a change is stamped later than every epoch before it. */
  lemma ChangeIsLater(e: Env, actions: seq<Action>, m: nat, t: Access)
    requires StrictClock(actions) && m < |actions| && LogsIn(e, Exec(e, NO_ACCOUNTS, actions[..m]), actions[m], t)
    requires LastChange(e, actions, m, t.sub).Some?
    ensures t.pwdIat < actions[LastChange(e, actions, m, t.sub).value].now
  {
    RunEpochs(e, actions[..m], actions[m].now);
    hide Exec, LastChange;
  }

  /**
   On a strictly advancing clock, the guard accepts a token exactly when its account is active and nobody has
   set the password since the login that minted it.
   */
  lemma ValidExactlySinceLastChange(e: Env, actions: seq<Action>, k: nat)
    requires StrictClock(actions) && k < |Exec(e, NO_ACCOUNTS, actions).access|
    ensures var s := Exec(e, NO_ACCOUNTS, actions);
            var t := s.access[k];
            exists m: nat :: m < |actions| && LogsIn(e, Exec(e, NO_ACCOUNTS, actions[..m]), actions[m], t)
              && t.sub < |s.accounts| && t.kind == s.accounts[t.sub].userType
              && (Validate(s.accounts, t, t.kind) <==>
                    s.accounts[t.sub].active && LastChange(e, actions, m, t.sub).None?)
  {
    hide Exec, Validate, LastChange, StrictClock, LogsIn;
    ValidUnlessChangedLater(e, actions, k);
    var s := Exec(e, NO_ACCOUNTS, actions);
    var m: nat :| GuardFollows(e, actions, s, m, s.access[k]);
    if LastChange(e, actions, m, s.access[k].sub).Some? { ChangeIsLater(e, actions, m, s.access[k]); }
  }

  // ----- reset tokens ------------------------------------------------------------------------------------------------

  /** Action `r` of the run requested the reset token `x`, for an account that was active. */
  predicate AskedAt(e: Env, actions: seq<Action>, r: nat, x: Reset) {
    && r < |actions| && actions[r].RequestReset?
    && actions[r].userType == x.userType && e.digest(actions[r].raw) == x.tokenHash
    && x.expiresAt == actions[r].now + RESET_TTL_MS
    && var s := Exec(e, NO_ACCOUNTS, actions[..r]);
       && x.userId < |s.accounts| && s.accounts[x.userId].active && s.accounts[x.userId].userType == x.userType
       && s.accounts[x.userId].email == e.lower(e.trim(actions[r].email))
  }

  /** Account `id` completed a reset at action `m`. */
  predicate Completes(e: Env, s: State, a: Action, id: nat) {
    a.ResetPassword? && Changes(e, s, a, id)
  }

  ghost predicate CompletedAfter(e: Env, actions: seq<Action>, r: nat, id: nat) {
    exists j :: r < j < |actions| && Completes(e, Exec(e, NO_ACCOUNTS, actions[..j]), actions[j], id)
  }

  /** A reset token was requested by one action, and is burnt exactly when its account completed a reset since. */
  ghost predicate Accounted(e: Env, actions: seq<Action>, r: nat, x: Reset) {
    AskedAt(e, actions, r, x) && (x.usedAt.Some? <==> CompletedAfter(e, actions, r, x.userId))
  }

  lemma CompletedSnoc(e: Env, actions: seq<Action>, a: Action, r: nat, id: nat)
    requires r < |actions|
    ensures CompletedAfter(e, actions + [a], r, id) <==>
            CompletedAfter(e, actions, r, id) || Completes(e, Exec(e, NO_ACCOUNTS, actions), a, id)
  {
    hide Exec, Completes;
    var longer := actions + [a];
    if CompletedAfter(e, actions, r, id) {
      var j :| r < j < |actions| && Completes(e, Exec(e, NO_ACCOUNTS, actions[..j]), actions[j], id);
      PrefixKept(actions, a, j);
      assert Completes(e, Exec(e, NO_ACCOUNTS, longer[..j]), longer[j], id);
    } else if CompletedAfter(e, longer, r, id) {
      var j :| r < j < |longer| && Completes(e, Exec(e, NO_ACCOUNTS, longer[..j]), longer[j], id);
      PrefixKept(actions, a, j);
      assert actions[..|actions|] == actions;
    } else {
      PrefixKept(actions, a, |actions|);
      assert actions[..|actions|] == actions;
      assert longer[|actions|] == a;
    }
  }

  /** Every reset token is of an account of its own kind. */
  predicate KindsFit(s: State) {
    forall k | 0 <= k < |s.resets| ::
        s.resets[k].userId < |s.accounts| && s.accounts[s.resets[k].userId].userType == s.resets[k].userType
  }

  /** An action burns a token exactly when it completes a reset of its account. */
  lemma StepReset(e: Env, s: State, a: Action, k: nat)
    requires k < |s.resets| && KindsFit(s)
    ensures k < |Step(e, s, a).resets|
    ensures var x := s.resets[k];
            Step(e, s, a).resets[k] ==
            if Completes(e, s, a, x.userId) && x.usedAt.None? then x.(usedAt := Some(a.now)) else x
  {
    hide FindEmail, Burn;
  }

  /** Only a reset request adds a token. */
  lemma StepAsks(e: Env, s: State, a: Action)
    requires |s.resets| < |Step(e, s, a).resets|
    ensures a.RequestReset? && |Step(e, s, a).resets| == |s.resets| + 1 && Step(e, s, a).accounts == s.accounts
    ensures var x := Step(e, s, a).resets[|s.resets|];
            && x.usedAt.None? && x.userType == a.userType && x.tokenHash == e.digest(a.raw)
            && x.expiresAt == a.now + RESET_TTL_MS
            && x.userId < |s.accounts| && s.accounts[x.userId].active && s.accounts[x.userId].userType == x.userType
            && s.accounts[x.userId].email == e.lower(e.trim(a.email))
  {
    hide FindReset, Burn;
  }

  lemma StepKinds(e: Env, s: State, a: Action)
    requires KindsFit(s)
    ensures KindsFit(Step(e, s, a))
  {
    var z := Step(e, s, a);
    hide Step;
    forall k | 0 <= k < |z.resets|
      ensures z.resets[k].userId < |z.accounts| && z.accounts[z.resets[k].userId].userType == z.resets[k].userType
    {
      if k < |s.resets| {
        StepReset(e, s, a, k);
        StepAccount(e, s, a, s.resets[k].userId);
      } else {
        StepAsks(e, s, a);
      }
    }
  }

  lemma {:induction false} RunKinds(e: Env, actions: seq<Action>)
    ensures KindsFit(Exec(e, NO_ACCOUNTS, actions))
    decreases |actions|
  {
    if actions != [] {
      hide Step, KindsFit;
      RunKinds(e, actions[..|actions| - 1]);
      StepKinds(e, Exec(e, NO_ACCOUNTS, actions[..|actions| - 1]), actions[|actions| - 1]);
    }
  }

  lemma AccountedOn(e: Env, actions: seq<Action>, a: Action, r: nat, k: nat)
    requires k < |Exec(e, NO_ACCOUNTS, actions).resets| && KindsFit(Exec(e, NO_ACCOUNTS, actions))
    requires Accounted(e, actions, r, Exec(e, NO_ACCOUNTS, actions).resets[k])
    ensures k < |Step(e, Exec(e, NO_ACCOUNTS, actions), a).resets|
    ensures Accounted(e, actions + [a], r, Step(e, Exec(e, NO_ACCOUNTS, actions), a).resets[k])
  {
    hide Exec, Step, Completes, CompletedAfter;
    var x := Exec(e, NO_ACCOUNTS, actions).resets[k];
    StepReset(e, Exec(e, NO_ACCOUNTS, actions), a, k);
    CompletedSnoc(e, actions, a, r, x.userId);
    PrefixKept(actions, a, r);
  }

  lemma AccountedNew(e: Env, actions: seq<Action>, a: Action)
    requires |Exec(e, NO_ACCOUNTS, actions).resets| < |Step(e, Exec(e, NO_ACCOUNTS, actions), a).resets|
    ensures var s := Exec(e, NO_ACCOUNTS, actions);
            Accounted(e, actions + [a], |actions|, Step(e, s, a).resets[|s.resets|])
  {
    StepAsks(e, Exec(e, NO_ACCOUNTS, actions), a);
    hide Exec, Step;
    PrefixKept(actions, a, |actions|);
    assert actions[..|actions|] == actions;
  }

  ghost predicate IsAccounted(e: Env, actions: seq<Action>, x: Reset) {
    exists r: nat :: Accounted(e, actions, r, x)
  }

  lemma AccountedStep(e: Env, actions: seq<Action>, a: Action, k: nat)
    requires KindsFit(Exec(e, NO_ACCOUNTS, actions)) && k < |Step(e, Exec(e, NO_ACCOUNTS, actions), a).resets|
    requires var s := Exec(e, NO_ACCOUNTS, actions); k < |s.resets| ==> IsAccounted(e, actions, s.resets[k])
    ensures IsAccounted(e, actions + [a], Step(e, Exec(e, NO_ACCOUNTS, actions), a).resets[k])
  {
    var s := Exec(e, NO_ACCOUNTS, actions);
    hide Exec, Step, Accounted, KindsFit;
    if k < |s.resets| {
      var r: nat :| Accounted(e, actions, r, s.resets[k]);
      AccountedOn(e, actions, a, r, k);
    } else {
      StepAsks(e, s, a);
      AccountedNew(e, actions, a);
    }
  }

  /** In every run each reset token was asked for by one request, and is burnt exactly when its account completed a
      reset since. */
  lemma {:induction false} EveryResetAccounted(e: Env, actions: seq<Action>, k: nat)
    requires k < |Exec(e, NO_ACCOUNTS, actions).resets|
    ensures exists r: nat :: Accounted(e, actions, r, Exec(e, NO_ACCOUNTS, actions).resets[k])
    decreases |actions|
  {
    if actions != [] {
      var n := |actions| - 1;
      var before, a := actions[..n], actions[n];
      assert before + [a] == actions;
      ExecSnoc(e, before, a);
      RunKinds(e, before);
      hide Exec, Step, KindsFit, Accounted;
      if k < |Exec(e, NO_ACCOUNTS, before).resets| { EveryResetAccounted(e, before, k); }
      AccountedStep(e, before, a, k);
      assert IsAccounted(e, actions, Exec(e, NO_ACCOUNTS, actions).resets[k]);
    }
  }

  /** What a completed reset proves of its token. */
  lemma CompletedToken(e: Env, s: State, a: Action, id: nat)
    requires Completes(e, s, a, id)
    ensures var k := FindReset(s.resets, e.digest(a.raw), 0);
            && k.Some? && s.resets[k.value].userId == id && s.resets[k.value].usedAt.None?
            && s.resets[k.value].tokenHash == e.digest(a.raw) && a.now <= s.resets[k.value].expiresAt
  {
    hide FindReset, Burn;
  }

  lemma NoneSince(e: Env, actions: seq<Action>, r: nat, id: nat, p: nat)
    requires !CompletedAfter(e, actions, r, id) && p < |actions|
    requires Completes(e, Exec(e, NO_ACCOUNTS, actions[..p]), actions[p], id)
    ensures p <= r
  {
  }

  /**
   A completed reset burns every outstanding token of its account: whenever an account completes a reset, the
   token was requested for its address at most one hour earlier, and after the account's previous reset.
   */
  lemma EachResetItsOwnRequest(e: Env, actions: seq<Action>, m: nat, id: nat)
    requires m < |actions| && Completes(e, Exec(e, NO_ACCOUNTS, actions[..m]), actions[m], id)
    ensures exists r: nat, x: Reset :: r < m && AskedAt(e, actions[..m], r, x) && x.userId == id
              && x.tokenHash == e.digest(actions[m].raw) && actions[m].now <= actions[r].now + RESET_TTL_MS
              && forall p | 0 <= p < m && Completes(e, Exec(e, NO_ACCOUNTS, actions[..p]), actions[p], id) :: p < r
  {
    var before := actions[..m];
    var s := Exec(e, NO_ACCOUNTS, before);
    CompletedToken(e, s, actions[m], id);
    var k := FindReset(s.resets, e.digest(actions[m].raw), 0).value;
    EveryResetAccounted(e, before, k);
    var x := s.resets[k];
    hide Exec, FindReset, Changes;
    var r: nat :| Accounted(e, before, r, x);
    forall p | 0 <= p < m && Completes(e, Exec(e, NO_ACCOUNTS, actions[..p]), actions[p], id) ensures p < r {
      assert before[..p] == actions[..p] && before[p] == actions[p];
      NoneSince(e, before, r, id, p);
    }
  }
}
