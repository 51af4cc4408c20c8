/**
 What a case transition answers and writes, field by field, and the dashboard's totals as sums over the cases.
 */
module CaseAnswers {
  import opened Wrappers
  import opened Cases

  // ----- transitions ---------------------------------------------------------------------------------------

  /** The moves the authority allows. */
  predicate Allowed(from: Status, to: Status) {
    (from, to) in {
      (Open, UnderReview), (Open, Dismissed), (UnderReview, NoticeIssued), (UnderReview, Dismissed),
      (NoticeIssued, Objection), (NoticeIssued, Confirmed), (Objection, Confirmed), (Objection, Dismissed),
      (Confirmed, Settled), (Confirmed, Recovered), (Settled, Recovered), (Settled, Closed), (Recovered, Closed),
      (Dismissed, Closed)}
  }

  /** The notice a case gets: its dates, the law in force, and the figures on its estimate. */
  predicate NoticeIs(n: Notice, c: Case, cfg: Config, now: int) {
    var tax := cfg.machine.number(c.estimatedTaxDue);
    var penalty := cfg.machine.times(tax, cfg.penaltyRate);
    && n.issuedAt == now && n.objectionDueAt == now + cfg.objectionWindowDays * 86_400_000 && n.version == cfg.version
    && n.assessedTax == RoundKobo(tax) && n.penalty == RoundKobo(penalty)
    && n.total == RoundKobo(cfg.machine.plus(tax, penalty))
  }

  /** What an accepted move writes. */
  predicate Written(c: Case, z: Case, r: Request, cfg: Config, token: string, now: int) {
    && z.status == r.to && z.notes == (if r.notes == "" then c.notes else r.notes)
    && z.taxpayer == c.taxpayer && z.year == c.year && z.estimatedTaxDue == c.estimatedTaxDue
    && z.taxBasis == c.taxBasis && z.assignedTo == c.assignedTo
    && (if r.to == NoticeIssued then z.notice.Some? && NoticeIs(z.notice.value, c, cfg, now) else z.notice == c.notice)
    && z.accessToken == (if r.to == NoticeIssued && c.accessToken == None then Some(token) else c.accessToken)
    && z.authorityResponseDueAt ==
       (if r.to == Objection then Some(now + cfg.authorityResponseDays * 86_400_000) else c.authorityResponseDueAt)
    && z.recoveredAmount ==
       (if r.to == Recovered && r.recoveredAmount == None then Some(RoundKobo(cfg.machine.number(c.estimatedTaxDue)))
        else if r.to in {Recovered, Settled} && r.recoveredAmount.Some? then Some(RoundKobo(r.recoveredAmount.value))
        else c.recoveredAmount)
    && z.resolvedAt == (if r.to in {Recovered, Dismissed, Closed} then Some(now) else c.resolvedAt)
  }

  lemma MapIs(from: Status, to: Status)
    ensures to in Transitions(from) <==> Allowed(from, to)
  {
  }

  lemma MovedWrites(c: Case, r: Request, cfg: Config, token: string, now: int)
    ensures Written(c, Moved(c, r, cfg, token, now), r, cfg, token, now)
  {
    hide RoundKobo;
  }

  /** A transition is refused, for one of three reasons, or moves its case alone. */
  lemma TransitionAnswered(cs: seq<Case>, id: nat, r: Request, cfg: Config, token: string, now: int)
    ensures var (ds, e) := TransitionStep(cs, id, r, cfg, token, now);
            if id >= |cs| then e == Some(NotFound) && ds == cs
            else if !Allowed(cs[id].status, r.to) then e == Some(NotAllowed) && ds == cs
            else if r.to == NoticeIssued && cs[id].taxBasis == NotAssessedLlc then e == Some(LimitedCompany) && ds == cs
            else
              && e == None && |ds| == |cs|
              && (forall k | 0 <= k < |cs| && k != id :: ds[k] == cs[k])
              && Written(cs[id], ds[id], r, cfg, token, now)
  {
    if id < |cs| {
      MapIs(cs[id].status, r.to);
      MovedWrites(cs[id], r, cfg, token, now);
      hide Moved, Written, Transitions, Allowed;
    }
  }

  /** The sweep closes, as dismissed, exactly the objections whose response is past due. */
  lemma SweepAnswered(cs: seq<Case>, now: int, k: nat)
    requires k < |cs|
    ensures var c, z := cs[k], Swept(cs, now)[k];
            if c.status == Objection && c.authorityResponseDueAt.Some? && c.authorityResponseDueAt.value < now then
              && z.status == Dismissed && z.resolvedAt == Some(now) && z.notes == DEEMED_UPHELD
              && c == z.(status := c.status, resolvedAt := c.resolvedAt, notes := c.notes)
            else z == c
  {
  }

  // ----- totals ------------------------------------------------------------------------------------------------

  function SumOver(cs: seq<Case>, amount: Case -> int): int {
    if cs == [] then 0 else SumOver(cs[..|cs| - 1], amount) + amount(cs[|cs| - 1])
  }

  /** The case is on the dashboard: its taxpayer is reportable, and it is of the year asked for, if one is. */
  predicate Shown(c: Case, v: Scope) {
    c.taxpayer in v.taxpayers && (v.year == None || v.year == Some(c.year))
  }

  function One(v: Scope, st: set<Status>): Case -> int {
    (c: Case) => if Shown(c, v) && c.status in st then 1 else 0
  }

  function Estimate(v: Scope, st: set<Status>): Case -> int {
    (c: Case) => if Shown(c, v) && c.status in st then c.estimatedTaxDue else 0
  }

  function Recovery(v: Scope, st: set<Status>): Case -> int {
    (c: Case) => if Shown(c, v) && c.status in st && c.recoveredAmount.Some? then c.recoveredAmount.value else 0
  }

  lemma ShareIs(c: Case, v: Scope, st: set<Status>)
    ensures Share(c, v, st) == Sums(One(v, st)(c), Estimate(v, st)(c), Recovery(v, st)(c))
  {
  }

  lemma {:induction false} TotalIsSum(cs: seq<Case>, v: Scope, st: set<Status>)
    ensures Total(cs, v, st) ==
            Sums(SumOver(cs, One(v, st)), SumOver(cs, Estimate(v, st)), SumOver(cs, Recovery(v, st)))
    decreases |cs|
  {
    hide Share, One, Estimate, Recovery;
    if cs != [] {
      ShareIs(cs[|cs| - 1], v, st);
      TotalIsSum(cs[..|cs| - 1], v, st);
    }
  }

  /**
   The dashboard's totals: all cases, the open and the dismissed ones; the estimates of the cases not recovered,
   dismissed or closed; what the recovered and settled ones brought in; and all estimates.
   */
  lemma StatsAre(cs: seq<Case>, v: Scope)
    ensures var s := StatsOf(cs, v);
            var all := {Open, UnderReview, NoticeIssued, Objection, Confirmed, Settled, Recovered, Dismissed, Closed};
            && s.totalCases == SumOver(cs, One(v, all)) && s.openCases == SumOver(cs, One(v, {Open}))
            && s.dismissedCases == SumOver(cs, One(v, {Dismissed}))
            && s.revenueAtRisk == SumOver(cs, Estimate(v, all - {Recovered, Dismissed, Closed}))
            && s.recovered == SumOver(cs, Recovery(v, {Recovered, Settled}))
            && s.estimatedTaxTotal == SumOver(cs, Estimate(v, all))
  {
    var all := {Open, UnderReview, NoticeIssued, Objection, Confirmed, Settled, Recovered, Dismissed, Closed};
    assert ALL_STATES == all && ACTIVE_STATES == all - {Recovered, Dismissed, Closed};
    assert RECOVERED_STATES == {Recovered, Settled};
    TotalIsSum(cs, v, ALL_STATES);
    TotalIsSum(cs, v, {Open});
    TotalIsSum(cs, v, {Dismissed});
    TotalIsSum(cs, v, ACTIVE_STATES);
    TotalIsSum(cs, v, RECOVERED_STATES);
  }
}
