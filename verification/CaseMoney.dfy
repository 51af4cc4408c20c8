/**
 The money of the enforcement cases over whole runs, and what the dashboard shows of it.
 */
module CaseMoney {
  import opened Wrappers
  import opened Cases

  /** Transitions, assignments and sweeps: the set of cases and their estimates stay. */
  predicate MovesOnly(a: Action) {
    a.Transition? || a.Assign? || a.Sweep?
  }

  predicate NonNegative(cs: seq<Case>) {
    forall c | c in cs :: c.estimatedTaxDue >= 0
  }

  lemma RowStepMoney(c: Case, a: Action, id: nat, v: Scope)
    requires MovesOnly(a)
    ensures var z := RowStep(c, a, id);
            && z.estimatedTaxDue == c.estimatedTaxDue && (Visible(z, v) <==> Visible(c, v))
            && (z.status in ACTIVE_STATES ==> c.status in ACTIVE_STATES)
  {
    hide RoundKobo;
  }

  lemma RowStepShares(c: Case, a: Action, id: nat, v: Scope)
    requires MovesOnly(a) && c.estimatedTaxDue >= 0
    ensures var z := RowStep(c, a, id);
            && Share(z, v, ALL_STATES).count == Share(c, v, ALL_STATES).count
            && Share(z, v, ALL_STATES).estimated == Share(c, v, ALL_STATES).estimated
            && Share(z, v, ACTIVE_STATES).estimated <= Share(c, v, ACTIVE_STATES).estimated
  {
    hide RowStep;
    RowStepMoney(c, a, id, v);
    InAllStates(c.status);
    InAllStates(RowStep(c, a, id).status);
  }

  /** The totals of two tables of the same cases, moved by one action. */
  lemma {:induction false} TotalsMove(cs: seq<Case>, ds: seq<Case>, a: Action, v: Scope)
    requires |cs| == |ds| && MovesOnly(a) && NonNegative(cs)
    requires forall k: nat | k < |cs| :: ds[k] == RowStep(cs[k], a, k)
    ensures Total(ds, v, ALL_STATES).count == Total(cs, v, ALL_STATES).count
    ensures Total(ds, v, ALL_STATES).estimated == Total(cs, v, ALL_STATES).estimated
    ensures Total(ds, v, ACTIVE_STATES).estimated <= Total(cs, v, ACTIVE_STATES).estimated
    decreases |cs|
  {
    if cs != [] {
      hide RowStep, Share, Visible;
      var n := |cs| - 1;
      TotalsMove(cs[..n], ds[..n], a, v);
      assert cs[n] in cs;
      RowStepShares(cs[n], a, n, v);
    }
  }

  lemma StepKeepsNonNegative(cs: seq<Case>, a: Action)
    requires MovesOnly(a) && NonNegative(cs)
    ensures |Step(cs, a)| == |cs| && NonNegative(Step(cs, a))
  {
    StepKeepsLength(cs, a);
    forall k: nat | k < |cs| ensures Step(cs, a)[k].estimatedTaxDue >= 0 {
      assert cs[k] in cs;
      hide RowStep, Step;
      StepIsRowStep(cs, a, k);
      RowStepMoney(cs[k], a, k, Scope({}, None));
    }
  }

  lemma StepKeepsLength(cs: seq<Case>, a: Action)
    requires MovesOnly(a)
    ensures |Step(cs, a)| == |cs|
  {
    hide Moved, Transitions;
  }

  /**
   Money over every run of transitions, assignments and sweeps: the number of cases and their total estimate
   never change, and the revenue at risk never rises, whatever the dashboard is filtered by.
   */
  lemma {:induction false} MoneyConserved(cs: seq<Case>, actions: seq<Action>, v: Scope)
    requires NonNegative(cs) && forall a | a in actions :: MovesOnly(a)
    ensures var z := Exec(cs, actions);
            && |z| == |cs| && NonNegative(z)
            && StatsOf(z, v).totalCases == StatsOf(cs, v).totalCases
            && StatsOf(z, v).estimatedTaxTotal == StatsOf(cs, v).estimatedTaxTotal
            && StatsOf(z, v).revenueAtRisk <= StatsOf(cs, v).revenueAtRisk
    decreases |actions|
  {
    if actions != [] {
      var n := |actions| - 1;
      var a := actions[n];
      assert a in actions;
      MoneyConserved(cs, actions[..n], v);
      var ds := Exec(cs, actions[..n]);
      hide Total, Step, RowStep;
      StepKeepsNonNegative(ds, a);
      forall k: nat | k < |ds| ensures Step(ds, a)[k] == RowStep(ds[k], a, k) { StepIsRowStep(ds, a, k); }
      TotalsMove(ds, Step(ds, a), a, v);
    }
  }

  // ----- what the dashboard shows of it --------------------------------------------------------------------

  /** Nine roundings of sums of this size cannot reach half a kobo: for doubles, 2.3 trillion naira. */
  predicate Small(size: int, e: real) {
    Slack(19.0, e, size as real) < 0.5
  }

  lemma CloseRounds(x: real, n: int, size: int, e: real)
    requires Close(x, n, size, e, 9) && Small(size, e)
    ensures RoundKobo(x) == n
  {
    assert (2 * 9 + 1) as real == 19.0;
  }

  /** Each amount shown is the total of the cases, to the kobo, as long as the amounts behind it are small. */
  lemma ShownToTheKobo(d: Dashboard, cs: seq<Case>, v: Scope, e: real)
    requires Shows(d, cs, v, e)
    ensures var s, size := StatsOf(cs, v), StatsOf(Magnitudes(cs), v);
            && (Small(size.revenueAtRisk, e) ==> RoundKobo(d.revenueAtRisk) == s.revenueAtRisk)
            && (Small(size.recovered, e) ==> RoundKobo(d.recovered) == s.recovered)
            && (Small(size.estimatedTaxTotal, e) ==> RoundKobo(d.estimatedTaxTotal) == s.estimatedTaxTotal)
  {
    var s, size := StatsOf(cs, v), StatsOf(Magnitudes(cs), v);
    hide Close, Small, RoundKobo, StatsOf;
    if Small(size.revenueAtRisk, e) { CloseRounds(d.revenueAtRisk, s.revenueAtRisk, size.revenueAtRisk, e); }
    if Small(size.recovered, e) { CloseRounds(d.recovered, s.recovered, size.recovered, e); }
    if Small(size.estimatedTaxTotal, e) {
      CloseRounds(d.estimatedTaxTotal, s.estimatedTaxTotal, size.estimatedTaxTotal, e);
    }
  }

  lemma {:induction false} MagnitudesOfPositive(cs: seq<Case>, v: Scope, st: set<Status>)
    requires NonNegative(cs)
    ensures Total(Magnitudes(cs), v, st).estimated == Total(cs, v, st).estimated
    decreases |cs|
  {
    if cs != [] {
      var n := |cs| - 1;
      assert cs[n] in cs;
      MagnitudesOfPositive(cs[..n], v, st);
      TotalSnoc(Magnitudes(cs[..n]), Magnitude(cs[n]), v, st);
    }
  }

  lemma {:induction false} ActiveWithinAll(cs: seq<Case>, v: Scope)
    requires NonNegative(cs)
    ensures 0 <= Total(cs, v, ACTIVE_STATES).estimated <= Total(cs, v, ALL_STATES).estimated
    decreases |cs|
  {
    if cs != [] {
      var n := |cs| - 1;
      assert cs[n] in cs;
      InAllStates(cs[n].status);
      ActiveWithinAll(cs[..n], v);
    }
  }

  lemma SmallerStill(a: int, b: int, e: real)
    requires 0 <= a <= b && 0.0 <= e && Small(b, e)
    ensures Small(a, e)
  {
    SlackGrows(19.0, 19.0, e, a as real, b as real);
  }

  /**
   What the dashboard shows before and after any run of transitions, assignments and sweeps: the same number of
   cases and, to the kobo, the same total estimate; and a revenue at risk that is no higher.
   */
  lemma DashboardConserved(cs: seq<Case>, actions: seq<Action>, v: Scope, e: real, before: Dashboard, after: Dashboard)
    requires NonNegative(cs) && forall a | a in actions :: MovesOnly(a)
    requires 0.0 <= e && Small(StatsOf(cs, v).estimatedTaxTotal, e)
    requires Shows(before, cs, v, e) && Shows(after, Exec(cs, actions), v, e)
    ensures after.totalCases == before.totalCases
    ensures RoundKobo(after.estimatedTaxTotal) == RoundKobo(before.estimatedTaxTotal)
    ensures RoundKobo(after.revenueAtRisk) <= RoundKobo(before.revenueAtRisk)
  {
    var z := Exec(cs, actions);
    MoneyConserved(cs, actions, v);
    hide Exec;
    ToTheKobo(before, cs, v, e);
    ToTheKobo(after, z, v, e);
  }

  lemma ToTheKobo(d: Dashboard, cs: seq<Case>, v: Scope, e: real)
    requires NonNegative(cs) && 0.0 <= e && Small(StatsOf(cs, v).estimatedTaxTotal, e) && Shows(d, cs, v, e)
    ensures d.totalCases == StatsOf(cs, v).totalCases
    ensures RoundKobo(d.estimatedTaxTotal) == StatsOf(cs, v).estimatedTaxTotal
    ensures RoundKobo(d.revenueAtRisk) == StatsOf(cs, v).revenueAtRisk
  {
    hide Total, Small, RoundKobo;
    ShownToTheKobo(d, cs, v, e);
    MagnitudesOfPositive(cs, v, ALL_STATES);
    MagnitudesOfPositive(cs, v, ACTIVE_STATES);
    ActiveWithinAll(cs, v);
    SmallerStill(StatsOf(cs, v).revenueAtRisk, StatsOf(cs, v).estimatedTaxTotal, e);
  }

  lemma {:induction false} TotalUpdate(cs: seq<Case>, i: nat, c: Case, v: Scope, st: set<Status>)
    requires i < |cs|
    ensures Plus(Total(cs[i := c], v, st), Share(cs[i], v, st)) == Plus(Total(cs, v, st), Share(c, v, st))
    decreases |cs|
  {
    hide Share;
    var n := |cs| - 1;
    if i == n {
      assert cs[i := c][..n] == cs[..n];
    } else {
      assert cs[i := c][..n] == cs[..n][i := c];
      TotalUpdate(cs[..n], i, c, v, st);
    }
  }

  /** Recovering or closing a case: the revenue at risk falls by its estimate exactly when it leaves an active state. */
  lemma AtRiskAfterTransition(cs: seq<Case>, id: nat, r: Request, cfg: Config, token: string, now: int, v: Scope)
    requires id < |cs| && TransitionStep(cs, id, r, cfg, token, now).1.None?
    ensures var ds := TransitionStep(cs, id, r, cfg, token, now).0;
            StatsOf(ds, v).revenueAtRisk ==
            StatsOf(cs, v).revenueAtRisk -
            if Visible(cs[id], v) && cs[id].status in ACTIVE_STATES && r.to !in ACTIVE_STATES
            then cs[id].estimatedTaxDue else 0
  {
    var a := Action.Transition(id, r, cfg, token, now);
    var z := Moved(cs[id], r, cfg, token, now);
    RowStepMoney(cs[id], a, id, v);
    TotalUpdate(cs, id, z, v, ACTIVE_STATES);
    MovedStatus(cs[id], r, cfg, token, now);
    hide Moved, Total, Transitions;
  }

  lemma MovedStatus(c: Case, r: Request, cfg: Config, token: string, now: int)
    ensures Moved(c, r, cfg, token, now).status == r.to
  {
    hide RoundKobo;
  }

  /** The recovered headline is not cumulative: closing a recovered or settled case takes its amount out of it. */
  lemma ClosingDropsRecovered(cs: seq<Case>, id: nat, r: Request, cfg: Config, token: string, now: int, v: Scope)
    requires id < |cs| && cs[id].status in RECOVERED_STATES && r.to.Closed? && Visible(cs[id], v)
    ensures var ds := TransitionStep(cs, id, r, cfg, token, now).0;
            StatsOf(ds, v).recovered ==
            StatsOf(cs, v).recovered - if cs[id].recoveredAmount.Some? then cs[id].recoveredAmount.value else 0
  {
    var z := Moved(cs[id], r, cfg, token, now);
    Closes(cs, id, r, cfg, token, now);
    TotalUpdate(cs, id, z, v, RECOVERED_STATES);
    OutOfGroup(z, v, RECOVERED_STATES);
    hide Total, TransitionStep, Moved;
  }

  lemma Closes(cs: seq<Case>, id: nat, r: Request, cfg: Config, token: string, now: int)
    requires id < |cs| && cs[id].status in RECOVERED_STATES && r.to.Closed?
    ensures TransitionStep(cs, id, r, cfg, token, now).0 == cs[id := Moved(cs[id], r, cfg, token, now)]
    ensures Moved(cs[id], r, cfg, token, now).status !in RECOVERED_STATES
  {
  }

  lemma OutOfGroup(c: Case, v: Scope, st: set<Status>)
    requires c.status !in st
    ensures Share(c, v, st) == Sums(0, 0, 0)
  {
  }

  /** The counts of the single states add up to the number of cases. */
  lemma StatusCountsAddUp(cs: seq<Case>, v: Scope)
    ensures StatsOf(cs, v).totalCases ==
            Total(cs, v, {Open}).count + Total(cs, v, {UnderReview}).count + Total(cs, v, {NoticeIssued}).count +
            Total(cs, v, {Objection}).count + Total(cs, v, {Confirmed}).count + Total(cs, v, {Settled}).count +
            Total(cs, v, {Recovered}).count + Total(cs, v, {Dismissed}).count + Total(cs, v, {Closed}).count
  {
    hide Total;
    TotalUnion(cs, v, ALL_STATES - {Open}, {Open});
    assert ALL_STATES == ALL_STATES - {Open} + {Open};
    var t := {UnderReview, NoticeIssued, Objection, Confirmed, Settled, Recovered, Dismissed, Closed};
    assert ALL_STATES - {Open} == t;
    TotalUnion(cs, v, t - {UnderReview}, {UnderReview});
    assert t == t - {UnderReview} + {UnderReview};
    t := {NoticeIssued, Objection, Confirmed, Settled, Recovered, Dismissed, Closed};
    var was := {UnderReview, NoticeIssued, Objection, Confirmed, Settled, Recovered, Dismissed, Closed};
    assert was - {UnderReview} == t;
    TotalUnion(cs, v, {NoticeIssued}, {Objection});
    TotalUnion(cs, v, {NoticeIssued} + {Objection}, {Confirmed});
    TotalUnion(cs, v, {NoticeIssued} + {Objection} + {Confirmed}, {Settled});
    TotalUnion(cs, v, {NoticeIssued} + {Objection} + {Confirmed} + {Settled}, {Recovered});
    TotalUnion(cs, v, {NoticeIssued} + {Objection} + {Confirmed} + {Settled} + {Recovered}, {Dismissed});
    TotalUnion(cs, v, {NoticeIssued} + {Objection} + {Confirmed} + {Settled} + {Recovered} + {Dismissed}, {Closed});
    assert t == {NoticeIssued} + {Objection} + {Confirmed} + {Settled} + {Recovered} + {Dismissed} + {Closed};
  }
}
