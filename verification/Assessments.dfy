/**
 The assessment raised with a notice: how its amounts round, and where every notice and objection of a run
 comes from.
 */
module Assessments {
  import opened Wrappers
  import opened Cases

  /** `x` lies below the midpoint between `h` and `h + 1` kobo. */
  predicate Below(x: real, h: int) {
    x < h as real + 0.5
  }

  /** No midpoint between two kobo separates `x` from `y`. */
  ghost predicate NoMidpointBetween(x: real, y: real) {
    forall h: int :: Below(x, h) <==> Below(y, h)
  }

  lemma BelowIsFloor(x: real, h: int)
    ensures Below(x, h) <==> (x + 0.5).Floor <= h
  {
  }

  lemma RoundsAlike(x: real, y: real)
    ensures (x + 0.5).Floor == (y + 0.5).Floor <==> NoMidpointBetween(x, y)
  {
    var f, g := (x + 0.5).Floor, (y + 0.5).Floor;
    hide Below;
    forall h: int ensures (Below(x, h) <==> f <= h) && (Below(y, h) <==> g <= h) {
      BelowIsFloor(x, h);
      BelowIsFloor(y, h);
    }
    assert Below(x, f) && Below(y, g);
  }

  lemma FloorShift(n: int, x: real)
    ensures (n as real + x).Floor == n + x.Floor
  {
    var f := x.Floor;
    assert (n as real + x) - (n + f) as real == x - f as real;
  }

  /** Rounded on its own, a sum is the sum of the rounded parts exactly when no midpoint lies in between. */
  lemma RoundedSum(n: int, penalty: real, total: real)
    requires (penalty >= 0.0 && total >= 0.0) || (penalty <= 0.0 && total <= 0.0)
    ensures RoundKobo(total) == n + RoundKobo(penalty) <==>
            if penalty >= 0.0 && total >= 0.0 then NoMidpointBetween(penalty, total - n as real)
            else NoMidpointBetween(-penalty, n as real - total)
  {
    if penalty >= 0.0 && total >= 0.0 {
      RoundsAlike(penalty, total - n as real);
      FloorShift(-n, total + 0.5);
    } else {
      RoundsAlike(-penalty, n as real - total);
      FloorShift(n, -total + 0.5);
      RoundMirror(penalty);
      RoundMirror(total);
    }
  }

  lemma RoundMirror(x: real)
    requires x <= 0.0
    ensures RoundKobo(x) == -(-x + 0.5).Floor
  {
  }

  /** All that is assumed of machine numbers: they keep signs. */
  ghost predicate KeepsSigns(m: Arithmetic) {
    && (forall n: int :: (n >= 0 ==> m.number(n) >= 0.0) && (n < 0 ==> m.number(n) <= 0.0))
    && (forall x: real, r: real | r >= 0.0 ::
          (x >= 0.0 ==> m.times(x, r) >= 0.0) && (x <= 0.0 ==> m.times(x, r) <= 0.0))
    && (forall x: real, y: real ::
          (x >= 0.0 && y >= 0.0 ==> m.plus(x, y) >= 0.0) && (x <= 0.0 && y <= 0.0 ==> m.plus(x, y) <= 0.0))
  }

  /** What decides whether a demand adds up: no midpoint between the machine's penalty and the rest of its sum. */
  ghost predicate SumRoundsRight(c: Case, cfg: Config) {
    var tax := cfg.machine.number(c.estimatedTaxDue);
    var penalty := cfg.machine.times(tax, cfg.penaltyRate);
    var total := cfg.machine.plus(tax, penalty);
    var rounded := RoundKobo(tax) as real;
    if penalty >= 0.0 && total >= 0.0 then NoMidpointBetween(penalty, total - rounded)
    else NoMidpointBetween(-penalty, rounded - total)
  }

  /** A notice's total is its tax plus its penalty, to the kobo, exactly when the sum rounds right. */
  lemma NoticeAddsUp(c: Case, cfg: Config, now: int)
    requires KeepsSigns(cfg.machine)
    ensures var n := NoticeFor(c, cfg, now); n.total == n.assessedTax + n.penalty <==> SumRoundsRight(c, cfg)
  {
    var tax := cfg.machine.number(c.estimatedTaxDue);
    var penalty := cfg.machine.times(tax, cfg.penaltyRate);
    hide RoundKobo;
    RoundedSum(RoundKobo(tax), penalty, cfg.machine.plus(tax, penalty));
  }

  /** How far `x` is from the nearest midpoint between two kobo. */
  function MidpointDistance(x: real): real {
    Abs(x - (x.Floor as real + 0.5))
  }

  /** Two numbers close to one that keeps its distance lie on the same side of every midpoint. */
  lemma Undivided(a: real, x: real, y: real, b: real)
    requires MidpointDistance(a) > b && Abs(x - a) <= b && Abs(y - a) <= b
    ensures NoMidpointBetween(x, y)
  {
    var f := if a < a.Floor as real + 0.5 then a.Floor else a.Floor + 1;
    SameFloor(a, x, b, f);
    SameFloor(a, y, b, f);
    RoundsAlike(x, y);
  }

  lemma SameFloor(a: real, x: real, b: real, f: int)
    requires MidpointDistance(a) > b && Abs(x - a) <= b
    requires f == if a < a.Floor as real + 0.5 then a.Floor else a.Floor + 1
    ensures (x + 0.5).Floor == f
  {
    assert f as real <= x + 0.5 < f as real + 1.0;
  }

  /** The figures before rounding: as the machine has them, and as they should be. */
  datatype Figures = Figures(tax: real, penalty: real, total: real)

  function MachineFigures(m: Arithmetic, n: int, r: Rate): Figures {
    var tax := m.number(n);
    var penalty := m.times(tax, r);
    Figures(tax, penalty, m.plus(tax, penalty))
  }

  function AtRate(x: real, r: Rate): real {
    x * r
  }

  function ExactFigures(n: int, r: Rate): Figures {
    Figures(n as real, AtRate(n as real, r), n as real + AtRate(n as real, r))
  }

  /** Each figure within so many roundings of a tax of this size. */
  predicate FiguresClose(x: Figures, y: Figures, slack: real) {
    slack >= 0.0 && Abs(x.tax - y.tax) <= slack && Abs(x.penalty - y.penalty) <= 3.0 * slack
    && Abs(x.total - y.total) <= 7.0 * slack
  }

  lemma MachineClose(m: Arithmetic, n: int, r: Rate, e: real)
    requires Accurate(m, e)
    ensures FiguresClose(MachineFigures(m, n, r), ExactFigures(n, r), Slack(1.0, e, Abs(n as real)))
  {
    hide Accurate, MachineFigures, Slack, Abs, AtRate, FiguresClose;
    var x, size := MachineFigures(m, n, r), Abs(n as real);
    FigureReadings(m, n, r, e);
    RatesApply(x.tax, n, r);
    NotNegative(n as real);
    Rounded(e, x.tax, size);
    Rounded(e, x.tax + x.penalty, size);
    SlackGrows(1.0, 1.0, e, size, size);
    FiguresAdd(x, n as real, AtRate(n as real, r), AtRate(x.tax, r), size, Slack(1.0, e, size),
               Slack(1.0, e, Abs(x.tax)), Slack(1.0, e, Abs(x.tax + x.penalty)));
  }

  lemma RatesApply(tax: real, n: int, r: Rate)
    ensures Abs(AtRate(tax, r) - AtRate(n as real, r)) <= Abs(tax - n as real)
    ensures Abs(AtRate(n as real, r)) <= Abs(n as real)
  {
    TimesRate(tax - n as real, r);
    TimesRate(n as real, r);
    assert AtRate(tax, r) - AtRate(n as real, r) == AtRate(tax - n as real, r);
  }

  lemma FigureReadings(m: Arithmetic, n: int, r: Rate, e: real)
    requires Accurate(m, e)
    ensures var x := MachineFigures(m, n, r);
            && 0.0 <= e <= 0.01 && Abs(x.tax - n as real) <= Slack(1.0, e, Abs(n as real))
            && Abs(x.penalty - AtRate(x.tax, r)) <= Slack(1.0, e, Abs(x.tax))
            && Abs(x.total - (x.tax + x.penalty)) <= Slack(1.0, e, Abs(x.tax + x.penalty))
  {
  }

  lemma FiguresAdd(x: Figures, n: real, exact: real, product: real, size: real, slack: real, onTax: real, onSum: real)
    requires Abs(n) <= size && Abs(exact) <= size && slack >= 0.0
    requires Abs(x.tax - n) <= slack && Abs(product - exact) <= Abs(x.tax - n)
    requires Abs(x.penalty - product) <= onTax && Abs(x.total - (x.tax + x.penalty)) <= onSum
    requires Abs(x.tax) <= 2.0 * size + 4.0 * slack ==> onTax <= 2.04 * slack
    requires Abs(x.tax) <= size + slack ==> onTax <= 1.04 * slack
    requires Abs(x.tax + x.penalty) <= 2.0 * size + 4.0 * slack ==> onSum <= 2.04 * slack
    ensures FiguresClose(x, Figures(n, exact, n + exact), slack)
  {
    assert Abs(x.tax) <= size + slack;
    assert Abs(x.tax + x.penalty) <= 2.0 * size + 4.0 * slack;
  }

  lemma TimesRate(x: real, r: Rate)
    ensures Abs(AtRate(x, r)) <= Abs(x)
  {
    if x >= 0.0 { Product(x, r, x, 1.0); } else { Product(-x, r, -x, 1.0); }
    Shrunk(x, AtRate(x, r));
  }

  lemma Shrunk(x: real, p: real)
    ensures 0.0 <= p <= x || x <= p <= 0.0 ==> Abs(p) <= Abs(x)
  {
  }

  /** One rounding of something no larger than one or two amounts and four roundings of them. */
  lemma Rounded(e: real, x: real, size: real)
    requires 0.0 <= e <= 0.01 && size >= 0.0
    ensures var slack := Slack(1.0, e, size);
            && (Abs(x) <= size + slack ==> Slack(1.0, e, Abs(x)) <= 1.04 * slack)
            && (Abs(x) <= 2.0 * size + 4.0 * slack ==> Slack(1.0, e, Abs(x)) <= 2.04 * slack)
  {
    var slack := Slack(1.0, e, size);
    SlackGrows(1.0, 1.0, e, size, size);
    SlackOfSum(e, size, slack);
    NotNegative(x);
    hide Slack, Abs;
    if Abs(x) <= size + slack { SlackGrows(1.0, 1.0, e, Abs(x), size + slack); }
    if Abs(x) <= 2.0 * size + 4.0 * slack { SlackGrows(1.0, 1.0, e, Abs(x), 2.0 * size + 4.0 * slack); }
  }

  lemma NotNegative(x: real)
    ensures Abs(x) >= 0.0
  {
  }

  lemma SlackOfSum(e: real, size: real, slack: real)
    requires 0.0 <= e <= 0.01 && slack == Slack(1.0, e, size) && slack >= 0.0
    ensures Slack(1.0, e, size + slack) <= 1.04 * slack
    ensures Slack(1.0, e, 2.0 * size + 4.0 * slack) <= 2.04 * slack
  {
    Product(e, slack, 0.01, slack);
    var more := e * slack;
    assert Slack(1.0, e, size + slack) == slack + more;
    assert Slack(1.0, e, 2.0 * size + 4.0 * slack) == 2.0 * slack + 4.0 * more;
  }

  /** What a caller can check beforehand: the exact penalty keeps seven roundings away from every midpoint. */
  predicate AwayFromMidpoints(n: int, r: Rate, e: real) {
    MidpointDistance(Abs(ExactFigures(n, r).penalty)) > 7.0 * Slack(1.0, e, Abs(n as real))
  }

  /** Then every figure of the notice is the exact one, to the kobo, and they add up. */
  lemma AddsUpAwayFromMidpoints(c: Case, cfg: Config, e: real, now: int)
    requires KeepsSigns(cfg.machine) && Accurate(cfg.machine, e)
    requires AwayFromMidpoints(c.estimatedTaxDue, cfg.penaltyRate, e)
    ensures var n := NoticeFor(c, cfg, now);
            && n.assessedTax == c.estimatedTaxDue
            && n.penalty == RoundKobo(ExactFigures(c.estimatedTaxDue, cfg.penaltyRate).penalty)
            && n.total == n.assessedTax + n.penalty
  {
    var n, r := c.estimatedTaxDue, cfg.penaltyRate;
    Signs(cfg.machine, n, r);
    MachineClose(cfg.machine, n, r, e);
    hide KeepsSigns, Accurate, MidpointDistance, RoundKobo, Abs, ExactFigures, Slack;
    FiguresRound(n, r, Slack(1.0, e, Abs(n as real)), MachineFigures(cfg.machine, n, r));
  }

  predicate SignsOf(n: int, x: Figures) {
    if n >= 0 then x.tax >= 0.0 && x.penalty >= 0.0 && x.total >= 0.0
    else x.tax <= 0.0 && x.penalty <= 0.0 && x.total <= 0.0
  }

  lemma Signs(m: Arithmetic, n: int, r: Rate)
    requires KeepsSigns(m)
    ensures SignsOf(n, MachineFigures(m, n, r))
  {
  }

  lemma FiguresRound(n: int, r: Rate, slack: real, x: Figures)
    requires SignsOf(n, x) && FiguresClose(x, ExactFigures(n, r), slack)
    requires MidpointDistance(Abs(ExactFigures(n, r).penalty)) > 7.0 * slack
    ensures RoundKobo(x.tax) == n && RoundKobo(x.penalty) == RoundKobo(ExactFigures(n, r).penalty)
    ensures RoundKobo(x.total) == n + RoundKobo(x.penalty)
  {
    var exact := ExactFigures(n, r).penalty;
    ExactSign(n, r);
    assert ExactFigures(n, r).total == n as real + exact && ExactFigures(n, r).tax == n as real;
    hide ExactFigures;
    assert MidpointDistance(Abs(exact)) <= 0.5;
    RoundsToNearest(x.tax, n);
    RoundedSum(n, x.penalty, x.total);
    if n >= 0 {
      Undivided(exact, x.penalty, x.total - n as real, 7.0 * slack);
      Undivided(exact, x.penalty, exact, 7.0 * slack);
      RoundsAlike(x.penalty, exact);
    } else {
      Undivided(-exact, -x.penalty, n as real - x.total, 7.0 * slack);
      Undivided(-exact, -x.penalty, -exact, 7.0 * slack);
      RoundsAlike(-x.penalty, -exact);
      RoundMirror(x.penalty);
      RoundMirror(exact);
    }
  }

  lemma ExactSign(n: int, r: Rate)
    ensures if n >= 0 then ExactFigures(n, r).penalty >= 0.0 else ExactFigures(n, r).penalty <= 0.0
  {
  }

  /** The doubles nearest to 0.45 naira and to a tenth, in kobo and as a rate. */
  const FORTY_FIVE_KOBO := 810647932926689300.0 / 18014398509481984.0
  const TENTH: Rate := 3602879701896397.0 / 36028797018963968.0

  /** Their double product and the double sum of tax and product, in kobo. */
  const TENTH_OF_IT := 648518346341351500.0 / 144115188075855872.0
  const BOTH := 445856363109679100.0 / 9007199254740992.0

  /** At the seeded rate of 10 per cent a tax of 45 kobo is demanded as 45 plus 5 makes 49. */
  lemma TenPercentLosesAKobo(m: Arithmetic, now: int)
    requires m.number(45) == FORTY_FIVE_KOBO
    requires m.times(FORTY_FIVE_KOBO, TENTH) == TENTH_OF_IT && m.plus(FORTY_FIVE_KOBO, TENTH_OF_IT) == BOTH
    ensures var n := NoticeFor(NewCase(0, 2025, 45, Graduated), Config(1, 30, 90, TENTH, m), now);
            n.assessedTax == 45 && n.penalty == 5 && n.total == 49
  {
    assert RoundKobo(FORTY_FIVE_KOBO) == 45 && RoundKobo(TENTH_OF_IT) == 5 && RoundKobo(BOTH) == 49;
  }

  /** At 10 per cent only a tax ending in 5 kobo can fail, up to a hundred billion naira. */
  lemma TenPercentAddsUp(c: Case, cfg: Config, e: real, now: int)
    requires KeepsSigns(cfg.machine) && Accurate(cfg.machine, e) && e <= 0.000_000_000_000_001
    requires cfg.penaltyRate == TENTH
    requires -10_000_000_000_000 <= c.estimatedTaxDue <= 10_000_000_000_000 && AbsInt(c.estimatedTaxDue) % 10 != 5
    ensures var n := NoticeFor(c, cfg, now);
            && n.assessedTax == c.estimatedTaxDue
            && n.penalty == RoundKobo(ExactFigures(c.estimatedTaxDue, TENTH).penalty)
            && n.total == n.assessedTax + n.penalty
  {
    TenthAway(AbsInt(c.estimatedTaxDue), e);
    Mirrored(c.estimatedTaxDue);
    AddsUpAwayFromMidpoints(c, cfg, e, now);
  }

  lemma Mirrored(n: int)
    ensures Abs(n as real) == AbsInt(n) as real
    ensures Abs(ExactFigures(n, TENTH).penalty) == AbsInt(n) as real * TENTH
  {
  }

  lemma TenthAway(n: nat, e: real)
    requires 0.0 <= e <= 0.000_000_000_000_001 && n <= 10_000_000_000_000 && n % 10 != 5
    ensures MidpointDistance(n as real * TENTH) > 7.0 * Slack(1.0, e, n as real)
  {
    var x, y := n as real * TENTH, Slack(1.0, e, n as real);
    TenthDistance(n);
    assert y <= 0.01 by { Product(e, n as real, 0.000_000_000_000_001, 10_000_000_000_000.0); }
    hide MidpointDistance, Slack;
    assert MidpointDistance(x) >= 0.09;
  }

  lemma TenthDistance(n: nat)
    requires n <= 10_000_000_000_000 && n % 10 != 5
    ensures MidpointDistance(n as real * TENTH) >= 0.09
  {
    var k, j := n / 10, n % 10;
    var over := n as real * (TENTH - 0.1);
    assert 0.0 <= over <= 0.001;
    assert n as real * TENTH == k as real + j as real / 10.0 + over;
    assert (n as real * TENTH).Floor == k;
    assert j <= 4 || j >= 6;
  }

  /** `x` is nearer to `n` kobo than to any other, halves away from zero. */
  predicate Nearest(x: real, n: int) {
    if n > 0 then n as real - 0.5 <= x < n as real + 0.5
    else if n < 0 then n as real - 0.5 < x <= n as real + 0.5
    else -0.5 < x < 0.5
  }

  lemma RoundsToNearest(x: real, n: int)
    ensures RoundKobo(x) == n <==> Nearest(x, n)
  {
  }

  /** A recovery with no amount given is booked at the estimate, not at the demand: to the kobo exactly when
      the estimate's machine number is nearest to it. */
  lemma RecoveryDefaultsToEstimate(cs: seq<Case>, id: nat, notes: string, cfg: Config, token: string, now: int)
    requires id < |cs| && cs[id].status in {Confirmed, Settled}
    ensures var (ds, e) := TransitionStep(cs, id, Request(Recovered, notes, None), cfg, token, now);
            && e.None? && ds[id].resolvedAt == Some(now)
            && (ds[id].recoveredAmount == Some(cs[id].estimatedTaxDue) <==>
                  Nearest(cfg.machine.number(cs[id].estimatedTaxDue), cs[id].estimatedTaxDue))
            && forall k | 0 <= k < |cs| && k != id :: ds[k] == cs[k]
  {
    RoundsToNearest(cfg.machine.number(cs[id].estimatedTaxDue), cs[id].estimatedTaxDue);
    hide RoundKobo, Nearest;
  }

  /** Where a case's notice comes from: the transition that issued it, and the estimate of that moment. */
  ghost predicate NoticeFrom(actions: seq<Action>, i: nat, id: nat, n: Notice) {
    && i < |actions| && actions[i].Transition? && actions[i].id == id && actions[i].r.to.NoticeIssued?
    && id < |Exec([], actions[..i])|
    && var c := Exec([], actions[..i])[id];
       c.status.UnderReview? && !c.taxBasis.NotAssessedLlc? && n == NoticeFor(c, actions[i].cfg, actions[i].now)
  }

  /** Where an objection's response deadline comes from: the accepted transition that filed it. */
  ghost predicate ObjectionFrom(actions: seq<Action>, i: nat, id: nat, due: int) {
    && i < |actions| && actions[i].Transition? && actions[i].id == id && actions[i].r.to.Objection?
    && id < |Exec([], actions[..i])| && Exec([], actions[..i])[id].status.NoticeIssued?
    && due == actions[i].now + actions[i].cfg.authorityResponseDays * DAY_MS
  }

  ghost predicate Sourced(actions: seq<Action>, id: nat, c: Case) {
    && (c.notice.Some? ==> exists i: nat :: NoticeFrom(actions, i, id, c.notice.value))
    && (c.authorityResponseDueAt.Some? ==> exists i: nat ::
          ObjectionFrom(actions, i, id, c.authorityResponseDueAt.value))
  }

  lemma SourcedLonger(actions: seq<Action>, a: Action, id: nat, c: Case)
    requires Sourced(actions, id, c)
    ensures Sourced(actions + [a], id, c)
  {
    hide Exec, NoticeFor;
    var longer := actions + [a];
    if c.notice.Some? {
      var i: nat :| NoticeFrom(actions, i, id, c.notice.value);
      assert longer[..i] == actions[..i];
      assert NoticeFrom(longer, i, id, c.notice.value);
    }
    if c.authorityResponseDueAt.Some? {
      var i: nat :| ObjectionFrom(actions, i, id, c.authorityResponseDueAt.value);
      assert longer[..i] == actions[..i];
      assert ObjectionFrom(longer, i, id, c.authorityResponseDueAt.value);
    }
  }

  /** The fields a source is asked for change only with their transition. */
  lemma RowStepSources(c: Case, a: Action, id: nat)
    ensures var z := RowStep(c, a, id);
            && (z.notice != c.notice ==>
                  a.Transition? && a.id == id && a.r.to.NoticeIssued? && c.status.UnderReview?
                      && !c.taxBasis.NotAssessedLlc?
                  && z.notice == Some(NoticeFor(c, a.cfg, a.now)))
            && (z.authorityResponseDueAt != c.authorityResponseDueAt ==>
                  a.Transition? && a.id == id && a.r.to.Objection? && c.status.NoticeIssued?
                  && z.authorityResponseDueAt == Some(a.now + a.cfg.authorityResponseDays * DAY_MS))
  {
    hide RoundKobo, NoticeFor;
  }

  lemma SourcedStep(actions: seq<Action>, a: Action, id: nat)
    requires id < |Exec([], actions)| && Sourced(actions, id, Exec([], actions)[id])
    ensures Sourced(actions + [a], id, RowStep(Exec([], actions)[id], a, id))
  {
    var c := Exec([], actions)[id];
    var longer := actions + [a];
    RowStepSources(c, a, id);
    SourcedLonger(actions, a, id, c);
    hide Exec, RowStep, NoticeFor;
    assert longer[..|actions|] == actions;
    var z := RowStep(c, a, id);
    if z.notice != c.notice { assert NoticeFrom(longer, |actions|, id, z.notice.value); }
    if z.authorityResponseDueAt != c.authorityResponseDueAt {
      assert ObjectionFrom(longer, |actions|, id, z.authorityResponseDueAt.value);
    }
  }

  lemma {:induction false} EveryCaseSourced(actions: seq<Action>, id: nat)
    requires id < |Exec([], actions)|
    ensures Sourced(actions, id, Exec([], actions)[id])
    decreases |actions|
  {
    if actions != [] {
      var n := |actions| - 1;
      var cs := Exec([], actions[..n]);
      assert actions[..n] + [actions[n]] == actions;
      hide RowStep, Step, Sourced;
      if id < |cs| {
        EveryCaseSourced(actions[..n], id);
        StepIsRowStep(cs, actions[n], id);
        SourcedStep(actions[..n], actions[n], id);
      } else {
        OnlyDetectAdds(cs, actions[n]);
        NewSourced(actions, id, Exec([], actions)[id]);
      }
    }
  }

  lemma NewSourced(actions: seq<Action>, id: nat, c: Case)
    requires c.notice.None? && c.authorityResponseDueAt.None?
    ensures Sourced(actions, id, c)
  {
  }

  /**
   Every notice in any run was issued by one transition, from a reviewed case that was no limited company
   then, on the estimate of that moment. Its tax is that estimate exactly when the estimate's machine number
   is nearest to it, and its demand is tax plus penalty exactly when the machine's sum rounds right.
   */
  lemma AssessmentHolds(actions: seq<Action>, id: nat)
    requires id < |Exec([], actions)| && Exec([], actions)[id].notice.Some?
    ensures exists i: nat :: AssessedAt(actions, i, id, Exec([], actions)[id].notice.value)
  {
    EveryCaseSourced(actions, id);
    var n := Exec([], actions)[id].notice.value;
    hide Exec, NoticeFor;
    var i: nat :| NoticeFrom(actions, i, id, n);
    NoticeAssessed(actions, i, id, n);
  }

  ghost predicate AssessedAt(actions: seq<Action>, i: nat, id: nat, n: Notice) {
    && NoticeFrom(actions, i, id, n)
    && var c, cfg := Exec([], actions[..i])[id], actions[i].cfg;
       && (n.assessedTax == c.estimatedTaxDue <==> Nearest(cfg.machine.number(c.estimatedTaxDue), c.estimatedTaxDue))
       && (KeepsSigns(cfg.machine) ==> (n.total == n.assessedTax + n.penalty <==> SumRoundsRight(c, cfg)))
  }

  lemma NoticeAssessed(actions: seq<Action>, i: nat, id: nat, n: Notice)
    requires NoticeFrom(actions, i, id, n)
    ensures AssessedAt(actions, i, id, n)
  {
    var c, cfg := Exec([], actions[..i])[id], actions[i].cfg;
    hide Exec, RoundKobo, Nearest, SumRoundsRight, KeepsSigns;
    RoundsToNearest(cfg.machine.number(c.estimatedTaxDue), c.estimatedTaxDue);
    if KeepsSigns(cfg.machine) {
      NoticeAddsUp(c, cfg, actions[i].now);
    }
  }

  /** Every scan that touched case `id` from action `n` on still took its taxpayer for a limited company. */
  predicate StillLlc(actions: seq<Action>, n: nat, id: nat) {
    forall m | n <= m < |actions| :: KeepsLlc(actions[m], id)
  }

  predicate KeepsLlc(a: Action, id: nat) {
    a.Rescan? && a.id == id ==> a.taxBasis.NotAssessedLlc?
  }

  /** The life open to a limited company's case. */
  predicate Unassessed(c: Case) {
    c.taxBasis.NotAssessedLlc? && c.status in {Open, UnderReview, Dismissed, Closed} && c.notice.None?
  }

  lemma RowStepLlc(c: Case, a: Action, id: nat)
    requires Unassessed(c) && KeepsLlc(a, id)
    ensures Unassessed(RowStep(c, a, id))
  {
    hide RoundKobo;
  }

  lemma DetectedLlc(cs: seq<Case>, a: Action)
    requires a.Detect? && a.taxBasis.NotAssessedLlc?
    ensures |Step(cs, a)| == |cs| + 1 && Unassessed(Step(cs, a)[|cs|])
  {
  }

  /** A limited company's case is never assessed: it stays open or under review, or is dismissed and closed. */
  lemma {:induction false} LlcNeverAssessed(actions: seq<Action>, n: nat, id: nat)
    requires n < |actions| && actions[n].Detect? && actions[n].taxBasis.NotAssessedLlc?
    requires id == |Exec([], actions[..n])| && StillLlc(actions, n, id)
    ensures id < |Exec([], actions)| && Unassessed(Exec([], actions)[id])
    decreases |actions|
  {
    hide RowStep, Step, Unassessed;
    var m := |actions| - 1;
    var cs := Exec([], actions[..m]);
    assert Exec([], actions) == Step(cs, actions[m]);
    if n < m {
      assert actions[..m][..n] == actions[..n];
      LlcNeverAssessed(actions[..m], n, id);
      StepIsRowStep(cs, actions[m], id);
      RowStepLlc(cs[id], actions[m], id);
    } else {
      DetectedLlc(cs, actions[m]);
    }
  }

  /**
   The sweep dismisses exactly the cases whose objection has waited longer than the response window that was
   in force when it was filed, and touches no other case.
   */
  lemma OnlyLapsedObjections(actions: seq<Action>, id: nat, now: int)
    requires id < |Exec([], actions)|
    ensures var c := Exec([], actions)[id];
            var z := Swept(Exec([], actions), now)[id];
            && (c.status.Objection? ==> c.authorityResponseDueAt.Some?)
            && (c.status.Objection? ==>
                  exists i: nat :: ObjectionFrom(actions, i, id, c.authorityResponseDueAt.value)
                    && (z.status.Dismissed? <==>
                          actions[i].now + actions[i].cfg.authorityResponseDays * DAY_MS < now))
            && (z != c ==>
                  && c.status.Objection?
                  && z == c.(status := Dismissed, resolvedAt := Some(now), notes := DEEMED_UPHELD))
  {
    EveryCaseSourced(actions, id);
    EveryCaseOk(actions);
    var c := Exec([], actions)[id];
    assert CaseOk(c);
    hide Exec;
    if c.status.Objection? {
      var i: nat :| ObjectionFrom(actions, i, id, c.authorityResponseDueAt.value);
    }
  }
}
