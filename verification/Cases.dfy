/**
 Enforcement cases: the lifecycle map, the assessment raised with a notice, the deadline sweep, and the
 dashboard totals. Money is in whole kobo, times are milliseconds.
 */
module Cases {
  import opened Wrappers

  const DAY_MS := 86_400_000

  datatype Status = Open | UnderReview | NoticeIssued | Objection | Confirmed | Settled | Recovered | Dismissed | Closed

  const ALL_STATES: set<Status> :=
    {Open, UnderReview, NoticeIssued, Objection, Confirmed, Settled, Recovered, Dismissed, Closed}
  const ACTIVE_STATES: set<Status> := {Open, UnderReview, NoticeIssued, Objection, Confirmed, Settled}
  const RECOVERED_STATES: set<Status> := {Recovered, Settled}

  function Transitions(s: Status): set<Status> {
    match s
    case Open => {UnderReview, Dismissed}
    case UnderReview => {NoticeIssued, Dismissed}
    case NoticeIssued => {Objection, Confirmed}
    case Objection => {Confirmed, Dismissed}
    case Confirmed => {Settled, Recovered}
    case Settled => {Recovered, Closed}
    case Recovered => {Closed}
    case Dismissed => {Closed}
    case Closed => {}
  }

  datatype TaxBasis = Graduated | NotAssessedLlc | Unstated

  /** What issuing a notice writes, all at once. */
  datatype Notice = Notice(issuedAt: int, objectionDueAt: int, version: int, assessedTax: int, penalty: int, total: int)

  datatype Case = Case(
    taxpayer: nat, year: int, estimatedTaxDue: int, taxBasis: TaxBasis, status: Status,
    notes: string, assignedTo: Option<string>, recoveredAmount: Option<int>, notice: Option<Notice>,
    accessToken: Option<string>, authorityResponseDueAt: Option<int>, resolvedAt: Option<int>)

  /** A rate as the statutory settings keep it. */
  type Rate = r: real | 0.0 <= r <= 1.0 witness 0.1

  /** Machine numbers, in kobo: what an amount reads as, and what multiplying and adding give. None is exact. */
  datatype Arithmetic = Arithmetic(number: int -> real, times: (real, real) -> real, plus: (real, real) -> real)

  function Abs(x: real): real {
    if x < 0.0 then -x else x
  }

  /**
   Machine numbers with relative error `e` (2 to the -53 for doubles): an amount reads as, and a sum gives, what
   is right up to that, and so does a product with a rate, measured against the amount.
   */
  ghost predicate Accurate(m: Arithmetic, e: real) {
    && 0.0 <= e <= 0.01
    && (forall n: int :: Abs(m.number(n) - n as real) <= e * Abs(n as real))
    && (forall x: real, r: Rate :: Abs(m.times(x, r) - x * r) <= e * Abs(x))
    && (forall x: real, y: real :: Abs(m.plus(x, y) - (x + y)) <= e * Abs(x + y))
  }

  /** The statutory parameters in force, and the arithmetic they are applied with. */
  datatype Config = Config(
    version: int, objectionWindowDays: int, authorityResponseDays: int, penaltyRate: Rate, machine: Arithmetic)

  datatype Error = NotFound | NotAllowed | LimitedCompany

  /** `toFixed(2)` of an amount given in kobo: to the nearest kobo, halves away from zero. */
  function RoundKobo(x: real): int {
    if x < 0.0 then -(-x + 0.5).Floor else (x + 0.5).Floor
  }

  /** Tax, penalty and their sum, each as the machine has it and each rounded on its own. */
  function NoticeFor(c: Case, cfg: Config, now: int): Notice {
    var tax := cfg.machine.number(c.estimatedTaxDue);
    var penalty := cfg.machine.times(tax, cfg.penaltyRate);
    Notice(now, now + cfg.objectionWindowDays * DAY_MS, cfg.version,
           RoundKobo(tax), RoundKobo(penalty), RoundKobo(cfg.machine.plus(tax, penalty)))
  }

  /** What a transition request asks for. */
  datatype Request = Request(to: Status, notes: string, recoveredAmount: Option<real>)

  /** The case after an allowed transition. */
  function Moved(c: Case, r: Request, cfg: Config, token: string, now: int): Case {
    var noted := c.(status := r.to, notes := if r.notes != "" then r.notes else c.notes);
    match r.to
    case NoticeIssued =>
      noted.(notice := Some(NoticeFor(c, cfg, now)),
             accessToken := if c.accessToken.Some? then c.accessToken else Some(token))
    case Objection => noted.(authorityResponseDueAt := Some(now + cfg.authorityResponseDays * DAY_MS))
    case Recovered =>
      var amount := if r.recoveredAmount.Some? then r.recoveredAmount.value else cfg.machine.number(c.estimatedTaxDue);
      noted.(recoveredAmount := Some(RoundKobo(amount)), resolvedAt := Some(now))
    case Settled =>
      if r.recoveredAmount.Some? then noted.(recoveredAmount := Some(RoundKobo(r.recoveredAmount.value))) else noted
    case Dismissed => noted.(resolvedAt := Some(now))
    case Closed => noted.(resolvedAt := Some(now))
    case _ => noted
  }

  function TransitionStep(cs: seq<Case>, id: nat, r: Request, cfg: Config, token: string, now: int)
    : (seq<Case>, Option<Error>)
  {
    if id >= |cs| then (cs, Some(NotFound))
    else if r.to !in Transitions(cs[id].status) then (cs, Some(NotAllowed))
    else if r.to.NoticeIssued? && cs[id].taxBasis.NotAssessedLlc? then (cs, Some(LimitedCompany))
    else (cs[id := Moved(cs[id], r, cfg, token, now)], None)
  }

  predicate Overdue(c: Case, now: int) {
    c.status.Objection? && c.authorityResponseDueAt.Some? && c.authorityResponseDueAt.value < now
  }

  const DEEMED_UPHELD := "Objection deemed upheld: the authority did not respond within its window."

  function Upheld(c: Case, now: int): Case {
    c.(status := Dismissed, resolvedAt := Some(now), notes := DEEMED_UPHELD)
  }

  /** The deadline sweep, case by case. */
  function Swept(cs: seq<Case>, now: int): (r: seq<Case>)
    ensures |r| == |cs|
    ensures forall i | 0 <= i < |cs| :: r[i] == if Overdue(cs[i], now) then Upheld(cs[i], now) else cs[i]
  {
    if cs == [] then []
    else
      var n := |cs| - 1;
      Swept(cs[..n], now) + [if Overdue(cs[n], now) then Upheld(cs[n], now) else cs[n]]
  }

  function OverdueIds(cs: seq<Case>, now: int): seq<nat> {
    if cs == [] then []
    else
      var n := |cs| - 1;
      OverdueIds(cs[..n], now) + if Overdue(cs[n], now) then [n] else []
  }

  lemma {:induction false} OverdueIdsAre(cs: seq<Case>, now: int)
    ensures forall j: nat :: j in OverdueIds(cs, now) <==> j < |cs| && Overdue(cs[j], now)
    ensures forall k, l | 0 <= k < l < |OverdueIds(cs, now)| :: OverdueIds(cs, now)[k] < OverdueIds(cs, now)[l]
    decreases |cs|
  {
    hide Overdue;
    if cs != [] {
      var n := |cs| - 1;
      OverdueIdsAre(cs[..n], now);
      var before := OverdueIds(cs[..n], now);
      assert forall k | 0 <= k < |before| :: before[k] in before;
    }
  }

  // ----- totals, case by case --------------------------------------------------------------------------

  /** The cases a dashboard counts: those of reportable taxpayers, in one year if one is asked for. */
  datatype Scope = Scope(taxpayers: set<nat>, year: Option<int>)

  predicate Visible(c: Case, v: Scope) {
    c.taxpayer in v.taxpayers && (v.year.Some? ==> c.year == v.year.value)
  }

  /** One case's share of the totals over the states `st`. */
  datatype Sums = Sums(count: int, estimated: int, recovered: int)

  function Share(c: Case, v: Scope, st: set<Status>): Sums {
    if Visible(c, v) && c.status in st then
      Sums(1, c.estimatedTaxDue, if c.recoveredAmount.Some? then c.recoveredAmount.value else 0)
    else Sums(0, 0, 0)
  }

  function Plus(a: Sums, b: Sums): Sums {
    Sums(a.count + b.count, a.estimated + b.estimated, a.recovered + b.recovered)
  }

  function Total(cs: seq<Case>, v: Scope, st: set<Status>): Sums {
    if cs == [] then Sums(0, 0, 0) else Plus(Total(cs[..|cs| - 1], v, st), Share(cs[|cs| - 1], v, st))
  }

  datatype Stats = Stats(
    totalCases: int, openCases: int, dismissedCases: int, revenueAtRisk: int, recovered: int, estimatedTaxTotal: int)

  function StatsOf(cs: seq<Case>, v: Scope): Stats {
    Stats(Total(cs, v, ALL_STATES).count, Total(cs, v, {Open}).count, Total(cs, v, {Dismissed}).count,
          Total(cs, v, ACTIVE_STATES).estimated, Total(cs, v, RECOVERED_STATES).recovered,
          Total(cs, v, ALL_STATES).estimated)
  }

  // ----- the grouped form ----------------------------------------------------------------------------------

  lemma ShareUnion(c: Case, v: Scope, a: set<Status>, b: set<Status>)
    requires a !! b
    ensures Share(c, v, a + b) == Plus(Share(c, v, a), Share(c, v, b))
  {
    hide Visible;
  }

  lemma TotalEmpty(v: Scope, a: set<Status>)
    ensures Total([], v, a) == Sums(0, 0, 0)
  {
  }

  lemma TotalLast(cs: seq<Case>, v: Scope, a: set<Status>)
    requires cs != []
    ensures Total(cs, v, a) == Plus(Total(cs[..|cs| - 1], v, a), Share(cs[|cs| - 1], v, a))
  {
  }

  /** Disjoint groups of states add up. */
  lemma {:induction false} TotalUnion(cs: seq<Case>, v: Scope, a: set<Status>, b: set<Status>)
    requires a !! b
    ensures Total(cs, v, a + b) == Plus(Total(cs, v, a), Total(cs, v, b))
    decreases |cs|
  {
    hide Share, Total;
    if cs == [] {
      TotalEmpty(v, a);
      TotalEmpty(v, b);
      TotalEmpty(v, a + b);
    } else {
      TotalUnion(cs[..|cs| - 1], v, a, b);
      ShareUnion(cs[|cs| - 1], v, a, b);
      TotalLast(cs, v, a);
      TotalLast(cs, v, b);
      TotalLast(cs, v, a + b);
    }
  }

  lemma {:induction false} TotalNone(cs: seq<Case>, v: Scope, a: set<Status>)
    requires forall c | c in cs && Visible(c, v) :: c.status !in a
    ensures Total(cs, v, a) == Sums(0, 0, 0)
    decreases |cs|
  {
    if cs != [] {
      assert cs[|cs| - 1] in cs;
      TotalNone(cs[..|cs| - 1], v, a);
    }
  }

  lemma TotalSnoc(cs: seq<Case>, c: Case, v: Scope, a: set<Status>)
    ensures Total(cs + [c], v, a) == Plus(Total(cs, v, a), Share(c, v, a))
  {
    assert (cs + [c])[..|cs|] == cs;
  }

  lemma OneMore(cs: seq<Case>, v: Scope, done: set<Status>, wanted: set<Status>, s: Status)
    requires s !in done
    ensures Total(cs, v, (done + {s}) * wanted) ==
            if s in wanted then Plus(Total(cs, v, done * wanted), Total(cs, v, {s})) else Total(cs, v, done * wanted)
  {
    hide Total;
    if s in wanted {
      assert (done + {s}) * wanted == done * wanted + {s};
      TotalUnion(cs, v, done * wanted, {s});
    } else {
      assert (done + {s}) * wanted == done * wanted;
    }
  }

  lemma OthersEmpty(cs: seq<Case>, v: Scope, keys: set<Status>, wanted: set<Status>)
    requires forall c | c in cs && Visible(c, v) :: c.status in keys
    ensures Total(cs, v, keys * wanted) == Total(cs, v, wanted)
  {
    hide Total;
    TotalUnion(cs, v, keys * wanted, wanted - keys);
    TotalNone(cs, v, wanted - keys);
    assert keys * wanted + (wanted - keys) == wanted;
  }

  /** One row per state that occurs among the visible cases. */
  ghost predicate GroupedBy(rows: map<Status, Sums>, cs: seq<Case>, v: Scope) {
    && (forall s | s in rows :: rows[s] == Total(cs, v, {s}))
    && (forall c | c in cs && Visible(c, v) :: c.status in rows)
  }

  lemma GroupNothing(v: Scope)
    ensures GroupedBy(map[], [], v)
  {
  }

  lemma GroupNext(rows: map<Status, Sums>, cs: seq<Case>, c: Case, v: Scope)
    requires GroupedBy(rows, cs, v)
    ensures var before := if c.status in rows then rows[c.status] else Sums(0, 0, 0);
            var after := if Visible(c, v) then rows[c.status := Plus(before, Share(c, v, {c.status}))] else rows;
            GroupedBy(after, cs + [c], v)
  {
    hide Total, Visible;
    forall s: Status ensures Total(cs + [c], v, {s}) == Plus(Total(cs, v, {s}), Share(c, v, {s})) {
      TotalSnoc(cs, c, v, {s});
    }
    if c.status !in rows { TotalNone(cs, v, {c.status}); }
  }

  // ----- sums in machine numbers ---------------------------------------------------------------------------

  /** A sum as the machine has it: counts are small enough to be exact, amounts are not. */
  datatype Shown = Shown(count: int, estimated: real, recovered: real)

  function AbsInt(n: int): nat {
    if n < 0 then -n else n
  }

  /** The same case with its amounts made positive. */
  function Magnitude(c: Case): Case {
    c.(estimatedTaxDue := AbsInt(c.estimatedTaxDue),
       recoveredAmount := if c.recoveredAmount.Some? then Some(AbsInt(c.recoveredAmount.value)) else None)
  }

  function Magnitudes(cs: seq<Case>): seq<Case> {
    if cs == [] then [] else Magnitudes(cs[..|cs| - 1]) + [Magnitude(cs[|cs| - 1])]
  }

  /** `c` roundings of an amount of size `s`. */
  function Slack(c: real, e: real, s: real): real {
    c * (e * s)
  }

  /** `x` is `n` up to `k` roundings of a sum that `size` bounds. */
  predicate Close(x: real, n: int, size: int, e: real, k: nat) {
    size >= 0 && AbsInt(n) <= size && Abs(x - n as real) <= Slack((2 * k + 1) as real, e, size as real)
  }

  /** `sum` is the total of the cases in the states `st`, up to `k` roundings. */
  ghost predicate Near(sum: Shown, cs: seq<Case>, v: Scope, st: set<Status>, e: real, k: nat) {
    var t, size := Total(cs, v, st), Total(Magnitudes(cs), v, st);
    && sum.count == t.count
    && Close(sum.estimated, t.estimated, size.estimated, e, k)
    && Close(sum.recovered, t.recovered, size.recovered, e, k)
  }

  lemma SlackGrows(c: real, d: real, e: real, s: real, t: real)
    requires 0.0 <= e && 0.0 <= c <= d && 0.0 <= s <= t
    ensures 0.0 <= Slack(c, e, s) <= Slack(d, e, t)
  {
    assert 0.0 <= e * s <= e * t;
    assert c * (e * s) <= c * (e * t) <= d * (e * t);
  }

  lemma SlackNext(c: real, e: real, s: real, t: real)
    requires 1.0 <= c <= 19.0 && 0.0 <= e <= 0.01 && s >= 0.0 && t >= 0.0
    ensures var d, w := Slack(c, e, s), Slack(1.0, e, t);
            d + w + Slack(1.0, e, s + t + d + w) <= Slack(c + 2.0, e, s + t)
  {
    var u, w := e * s, e * t;
    Product(e, s, e, s);
    Product(e, t, e, t);
    var d := c * u;
    SmallProducts(c, e, u, w, d);
    SlackSum(c, e, s, t, u, w, d);
  }

  lemma SlackSum(c: real, e: real, s: real, t: real, u: real, w: real, d: real)
    requires u == e * s && w == e * t && d == c * u && e * d <= u && e * w <= c * w
    ensures Slack(c, e, s) == d && Slack(1.0, e, t) == w
    ensures d + w + Slack(1.0, e, s + t + d + w) <= Slack(c + 2.0, e, s + t)
  {
    var ed, ew, cw := e * d, e * w, c * w;
    assert Slack(1.0, e, s + t + d + w) == u + w + ed + ew;
    assert Slack(c + 2.0, e, s + t) == (c + 2.0) * (u + w) == d + cw + 2.0 * u + 2.0 * w;
  }

  lemma Product(a: real, b: real, c: real, d: real)
    requires 0.0 <= a <= c && 0.0 <= b <= d
    ensures 0.0 <= a * b <= c * d
  {
    assert a * b <= c * b <= c * d;
  }

  lemma SmallProducts(c: real, e: real, u: real, w: real, d: real)
    requires 1.0 <= c <= 19.0 && 0.0 <= e <= 0.01 && u >= 0.0 && w >= 0.0 && d == c * u
    ensures e * d <= u && e * w <= c * w
  {
    Product(c, u, 19.0, u);
    Product(e, d, 0.01, 19.0 * u);
    Product(e, w, c, w);
  }

  lemma Readings(m: Arithmetic, e: real, n: int, x: real, y: real)
    requires Accurate(m, e)
    ensures Abs(m.number(n) - n as real) <= Slack(1.0, e, Abs(n as real))
    ensures Abs(m.plus(x, y) - (x + y)) <= Slack(1.0, e, Abs(x + y))
    ensures 0.0 <= e <= 0.01
  {
  }

  lemma Sizes(n: int, n': int, x: real, y: real)
    ensures AbsInt(n + n') <= AbsInt(n) + AbsInt(n')
    ensures Abs(n' as real) == AbsInt(n') as real
    ensures 0.0 <= Abs(x + y) <= Abs(x - n as real) + AbsInt(n) as real + Abs(y - n' as real) + AbsInt(n') as real
  {
    assert Abs(n as real) == AbsInt(n) as real;
  }

  lemma RoundedSumClose(sum: real, x: real, y: real, n: int, n': int, before: real, more: real)
    requires Abs(x - n as real) + Abs(y - n' as real) <= before && Abs(sum - (x + y)) <= more
    ensures Abs(sum - (n + n') as real) <= before + more
  {
  }

  /** One more rounded sum. */
  lemma CloseNext(m: Arithmetic, x: real, n: int, size: int, e: real, k: nat, n': int, size': int)
    requires Accurate(m, e) && Close(x, n, size, e, k) && k < 9
    requires AbsInt(n') <= size'
    ensures Close(m.plus(x, m.number(n')), n + n', size + size', e, k + 1)
  {
    var y, s, t := m.number(n'), size as real, size' as real;
    var sum, c := m.plus(x, y), (2 * k + 1) as real;
    Readings(m, e, n', x, y);
    Sizes(n, n', x, y);
    assert AbsInt(n') as real >= 0.0;
    hide Accurate, Abs, AbsInt, Slack;
    var d, w := Slack(c, e, s), Slack(1.0, e, t);
    SlackGrows(1.0, 1.0, e, Abs(n' as real), t);
    SlackGrows(1.0, 1.0, e, Abs(x + y), s + t + d + w);
    RoundedSumClose(sum, x, y, n, n', d + w, Slack(1.0, e, s + t + d + w));
    SlackNext(c, e, s, t);
    assert (2 * (k + 1) + 1) as real == c + 2.0 && (size + size') as real == s + t;
  }

  lemma {:induction false} GroupSize(cs: seq<Case>, v: Scope, st: set<Status>)
    ensures var t, size := Total(cs, v, st), Total(Magnitudes(cs), v, st);
            AbsInt(t.estimated) <= size.estimated && AbsInt(t.recovered) <= size.recovered
    decreases |cs|
  {
    if cs != [] {
      var n := |cs| - 1;
      GroupSize(cs[..n], v, st);
      TotalSnoc(Magnitudes(cs[..n]), Magnitude(cs[n]), v, st);
    }
  }

  lemma NothingYet(cs: seq<Case>, v: Scope, e: real)
    ensures Near(Shown(0, 0.0, 0.0), cs, v, {}, e, 0)
  {
    TotalNone(cs, v, {});
    TotalNone(Magnitudes(cs), v, {});
  }

  /** One more grouped row, if its state is wanted. */
  function Added(m: Arithmetic, sum: Shown, row: Sums): Shown {
    Shown(sum.count + row.count, m.plus(sum.estimated, m.number(row.estimated)),
          m.plus(sum.recovered, m.number(row.recovered)))
  }

  lemma NearNext(m: Arithmetic, sum: Shown, cs: seq<Case>, v: Scope, done: set<Status>, wanted: set<Status>, s: Status,
                 e: real, k: nat)
    requires Accurate(m, e) && k < 9 && s !in done && Near(sum, cs, v, done * wanted, e, k)
    ensures Near(if s in wanted then Added(m, sum, Total(cs, v, {s})) else sum, cs, v, (done + {s}) * wanted, e, k + 1)
  {
    hide Total, Close, Accurate;
    var row, size := Total(cs, v, {s}), Total(Magnitudes(cs), v, {s});
    OneMore(cs, v, done, wanted, s);
    OneMore(Magnitudes(cs), v, done, wanted, s);
    GroupSize(cs, v, {s});
    var t, z := Total(cs, v, done * wanted), Total(Magnitudes(cs), v, done * wanted);
    if s in wanted {
      CloseNext(m, sum.estimated, t.estimated, z.estimated, e, k, row.estimated, size.estimated);
      CloseNext(m, sum.recovered, t.recovered, z.recovered, e, k, row.recovered, size.recovered);
    } else {
      CloseLonger(m, sum.estimated, t.estimated, z.estimated, e, k, k + 1);
      CloseLonger(m, sum.recovered, t.recovered, z.recovered, e, k, k + 1);
    }
  }

  lemma CloseLonger(m: Arithmetic, x: real, n: int, size: int, e: real, k: nat, l: nat)
    requires Accurate(m, e) && Close(x, n, size, e, k) && k <= l
    ensures Close(x, n, size, e, l)
  {
    SlackGrows((2 * k + 1) as real, (2 * l + 1) as real, e, size as real, size as real);
  }

  lemma GroupedRows(rows: map<Status, Sums>, cs: seq<Case>, v: Scope)
    requires GroupedBy(rows, cs, v)
    ensures forall s | s in rows :: rows[s] == Total(cs, v, {s})
    ensures forall c | c in cs && Visible(c, v) :: c.status in rows.Keys
  {
  }

  /** The states that do not occur add nothing. */
  lemma NearAll(m: Arithmetic, sum: Shown, cs: seq<Case>, v: Scope, keys: set<Status>, wanted: set<Status>, e: real)
    requires Accurate(m, e) && Near(sum, cs, v, keys * wanted, e, |keys|)
    requires forall c | c in cs && Visible(c, v) :: c.status in keys
    ensures Near(sum, cs, v, wanted, e, 9)
  {
    hide Total, Close, Accurate, Visible;
    NineStates(keys);
    OthersEmpty(cs, v, keys, wanted);
    MagnitudeStates(cs, v, keys);
    OthersEmpty(Magnitudes(cs), v, keys, wanted);
    var t, z := Total(cs, v, wanted), Total(Magnitudes(cs), v, wanted);
    CloseLonger(m, sum.estimated, t.estimated, z.estimated, e, |keys|, 9);
    CloseLonger(m, sum.recovered, t.recovered, z.recovered, e, |keys|, 9);
  }

  lemma {:induction false} MagnitudeStates(cs: seq<Case>, v: Scope, keys: set<Status>)
    requires forall c | c in cs && Visible(c, v) :: c.status in keys
    ensures forall c | c in Magnitudes(cs) && Visible(c, v) :: c.status in keys
    decreases |cs|
  {
    if cs != [] {
      assert cs[|cs| - 1] in cs;
      MagnitudeStates(cs[..|cs| - 1], v, keys);
    }
  }

  lemma NineStates(st: set<Status>)
    ensures |st| <= 9
  {
    assert st <= ALL_STATES by {
      forall s | s in st ensures s in ALL_STATES { InAllStates(s); }
    }
    Smaller(st, ALL_STATES);
    assert |ALL_STATES| == 9;
  }

  lemma Smaller<T>(x: set<T>, y: set<T>)
    requires x <= y
    ensures |x| <= |y|
  {
    assert y == x + (y - x);
  }

  /** Taking `s` off what is still to do. */
  lemma OneLess(keys: set<Status>, todo: set<Status>, s: Status)
    requires s in todo && todo <= keys
    ensures keys - (todo - {s}) == (keys - todo) + {s} && |keys - (todo - {s})| == |keys - todo| + 1 <= 9
  {
    assert keys - (todo - {s}) == (keys - todo) + {s};
    NineStates(keys - (todo - {s}));
  }

  lemma InAllStates(s: Status)
    ensures s in ALL_STATES
  {
  }

  /** The dashboard's headline numbers. */
  datatype Dashboard = Dashboard(
    totalCases: int, openCases: int, dismissedCases: int, revenueAtRisk: real, recovered: real, estimatedTaxTotal: real)

  /** `d` shows the totals of the cases up to nine roundings. */
  ghost predicate Shows(d: Dashboard, cs: seq<Case>, v: Scope, e: real) {
    var s, size := StatsOf(cs, v), StatsOf(Magnitudes(cs), v);
    && d.totalCases == s.totalCases && d.openCases == s.openCases && d.dismissedCases == s.dismissedCases
    && Close(d.revenueAtRisk, s.revenueAtRisk, size.revenueAtRisk, e, 9)
    && Close(d.recovered, s.recovered, size.recovered, e, 9)
    && Close(d.estimatedTaxTotal, s.estimatedTaxTotal, size.estimatedTaxTotal, e, 9)
  }

  class CasesService {
    var cases: seq<Case>

    constructor (cs: seq<Case>)
      ensures cases == cs
    {
      cases := cs;
    }

    method Transition(id: nat, r: Request, cfg: Config, token: string, now: int) returns (e: Option<Error>)
      modifies this
      ensures (cases, e) == TransitionStep(old(cases), id, r, cfg, token, now)
    {
      hide RoundKobo, Transitions;
      if id >= |cases| { return Some(NotFound); }
      var current := cases[id];
      if r.to !in Transitions(current.status) { return Some(NotAllowed); }
      var data := current.(status := r.to);
      if r.notes != "" { data := data.(notes := r.notes); }
      if r.to.NoticeIssued? {
        if current.accessToken.None? { data := data.(accessToken := Some(token)); }
        if current.taxBasis.NotAssessedLlc? { return Some(LimitedCompany); }
        var tax := cfg.machine.number(current.estimatedTaxDue);
        var penalty := cfg.machine.times(tax, cfg.penaltyRate);
        data := data.(notice := Some(Notice(now, now + cfg.objectionWindowDays * DAY_MS, cfg.version,
                                            RoundKobo(tax), RoundKobo(penalty),
                                            RoundKobo(cfg.machine.plus(tax, penalty)))));
      }
      if r.to.Objection? {
        data := data.(authorityResponseDueAt := Some(now + cfg.authorityResponseDays * DAY_MS));
      }
      if r.to.Recovered? {
        var amount := if r.recoveredAmount.Some? then r.recoveredAmount.value
                      else cfg.machine.number(current.estimatedTaxDue);
        data := data.(recoveredAmount := Some(RoundKobo(amount)), resolvedAt := Some(now));
      }
      if r.to.Settled? && r.recoveredAmount.Some? {
        data := data.(recoveredAmount := Some(RoundKobo(r.recoveredAmount.value)));
      }
      if r.to.Dismissed? || r.to.Closed? { data := data.(resolvedAt := Some(now)); }
      cases := cases[id := data];
      e := None;
    }

    method Assign(id: nat, who: Option<string>) returns (e: Option<Error>)
      modifies this
      ensures id >= |old(cases)| ==> cases == old(cases) && e == Some(NotFound)
      ensures id < |old(cases)| ==> cases == old(cases)[id := old(cases)[id].(assignedTo := who)] && e == None
    {
      if id >= |cases| { return Some(NotFound); }
      cases := cases[id := cases[id].(assignedTo := who)];
      e := None;
    }

    method FindOverdue(now: int) returns (overdue: seq<nat>)
      ensures overdue == OverdueIds(cases, now)
    {
      overdue := [];
      var i := 0;
      while i < |cases|
        invariant i <= |cases| && overdue == OverdueIds(cases[..i], now)
      {
        assert cases[..i + 1][..i] == cases[..i];
        if Overdue(cases[i], now) { overdue := overdue + [i]; }
        i := i + 1;
      }
      assert cases[..i] == cases;
    }

    /** First the overdue ids, then one update each. */
    method ProcessDeadlines(now: int) returns (deemedUpheld: nat)
      modifies this
      ensures cases == Swept(old(cases), now)
      ensures deemedUpheld == |OverdueIds(old(cases), now)|
    {
      hide Overdue, OverdueIds;
      var overdue := FindOverdue(now);
      OverdueIdsAre(cases, now);
      var k := 0;
      while k < |overdue|
        invariant k <= |overdue| && |cases| == |old(cases)|
        invariant forall j: nat | j < |cases| ::
            cases[j] == if j in overdue[..k] then Upheld(old(cases)[j], now) else old(cases)[j]
      {
        var id := overdue[k];
        assert id in overdue;
        assert overdue[..k + 1] == overdue[..k] + [id];
        cases := cases[id := cases[id].(status := Dismissed, resolvedAt := Some(now), notes := DEEMED_UPHELD)];
        k := k + 1;
      }
      assert overdue[..k] == overdue;
      deemedUpheld := |overdue|;
    }

    /** `GROUP BY status` over the visible cases. */
    method GroupByStatus(v: Scope) returns (rows: map<Status, Sums>)
      ensures GroupedBy(rows, cases, v)
    {
      hide Total, GroupedBy;
      rows := map[];
      var i := 0;
      GroupNothing(v);
      while i < |cases|
        invariant i <= |cases|
        invariant GroupedBy(rows, cases[..i], v)
      {
        var c := cases[i];
        assert cases[..i + 1] == cases[..i] + [c];
        GroupNext(rows, cases[..i], c, v);
        if Visible(c, v) {
          var before := if c.status in rows then rows[c.status] else Sums(0, 0, 0);
          rows := rows[c.status := Plus(before, Share(c, v, {c.status}))];
        }
        i := i + 1;
      }
      assert cases[..i] == cases;
    }

    /** The rows of the wanted states added up, in whatever order they come. */
    method Reduce(rows: map<Status, Sums>, wanted: set<Status>, m: Arithmetic, ghost v: Scope, ghost e: real)
      returns (sum: Shown)
      requires GroupedBy(rows, cases, v) && Accurate(m, e)
      ensures Near(sum, cases, v, wanted, e, 9)
    {
      hide Total, Near, Accurate, GroupedBy, Visible, Added;
      GroupedRows(rows, cases, v);
      sum := Shown(0, 0.0, 0.0);
      var todo := rows.Keys;
      NothingYet(cases, v, e);
      assert (rows.Keys - todo) * wanted == {} && rows.Keys - todo == {};
      while todo != {}
        invariant todo <= rows.Keys
        invariant Near(sum, cases, v, (rows.Keys - todo) * wanted, e, |rows.Keys - todo|)
        decreases |todo|
      {
        var s :| s in todo;
        OneLess(rows.Keys, todo, s);
        NearNext(m, sum, cases, v, rows.Keys - todo, wanted, s, e, |rows.Keys - todo|);
        if s in wanted { sum := Added(m, sum, rows[s]); }
        todo := todo - {s};
      }
      assert rows.Keys - todo == rows.Keys;
      NearAll(m, sum, cases, v, rows.Keys, wanted, e);
    }

    /** The dashboard derives everything from the grouped rows, and shows what summing case by case gives. */
    method GetStats(m: Arithmetic, v: Scope, ghost e: real) returns (r: Dashboard)
      requires Accurate(m, e)
      ensures Shows(r, cases, v, e)
    {
      hide Total, Accurate, Close;
      var rows := GroupByStatus(v);
      var all := Reduce(rows, ALL_STATES, m, v, e);
      var open := Reduce(rows, {Open}, m, v, e);
      var dismissed := Reduce(rows, {Dismissed}, m, v, e);
      var active := Reduce(rows, ACTIVE_STATES, m, v, e);
      var recovered := Reduce(rows, RECOVERED_STATES, m, v, e);
      r := Dashboard(all.count, open.count, dismissed.count, active.estimated, recovered.recovered, all.estimated);
    }
  }

  // ----- runs --------------------------------------------------------------------------------------------

  datatype Action =
    | Transition(id: nat, r: Request, cfg: Config, token: string, now: int)
    | Assign(id: nat, who: Option<string>)
    | Sweep(now: int)
    | Detect(taxpayer: nat, year: int, estimatedTaxDue: int, taxBasis: TaxBasis)  // the scan opens a case
    | Rescan(id: nat, estimatedTaxDue: int, taxBasis: TaxBasis)                   // a later scan refreshes it

  function NewCase(taxpayer: nat, year: int, estimatedTaxDue: int, taxBasis: TaxBasis): Case {
    Case(taxpayer, year, estimatedTaxDue, taxBasis, Open, "", None, None, None, None, None, None)
  }

  function Step(cs: seq<Case>, a: Action): seq<Case> {
    match a
    case Transition(id, r, cfg, token, now) => TransitionStep(cs, id, r, cfg, token, now).0
    case Assign(id, who) => if id < |cs| then cs[id := cs[id].(assignedTo := who)] else cs
    case Sweep(now) => Swept(cs, now)
    case Detect(t, y, est, basis) => cs + [NewCase(t, y, est, basis)]
    case Rescan(id, est, basis) =>
      if id < |cs| then cs[id := cs[id].(estimatedTaxDue := est, taxBasis := basis)] else cs
  }

  function Exec(cs: seq<Case>, actions: seq<Action>): seq<Case> {
    if actions == [] then cs else Step(Exec(cs, actions[..|actions| - 1]), actions[|actions| - 1])
  }

  // ----- one case through a run ---------------------------------------------------------------------------

  /** What one action does to one case. */
  function RowStep(c: Case, a: Action, id: nat): Case {
    match a
    case Transition(i, r, cfg, token, now) =>
      if i == id && r.to in Transitions(c.status) && !(r.to.NoticeIssued? && c.taxBasis.NotAssessedLlc?) then
        Moved(c, r, cfg, token, now)
      else c
    case Assign(i, who) => if i == id then c.(assignedTo := who) else c
    case Sweep(now) => if Overdue(c, now) then Upheld(c, now) else c
    case Detect(_, _, _, _) => c
    case Rescan(i, est, basis) => if i == id then c.(estimatedTaxDue := est, taxBasis := basis) else c
  }

  lemma StepIsRowStep(cs: seq<Case>, a: Action, id: nat)
    requires id < |cs|
    ensures id < |Step(cs, a)| && Step(cs, a)[id] == RowStep(cs[id], a, id)
  {
    hide Moved, Transitions, Overdue;
  }

  /** How far a state lies along the map; every transition goes up. */
  function Rank(s: Status): nat {
    match s
    case Open => 0
    case UnderReview => 1
    case NoticeIssued => 2
    case Objection => 3
    case Confirmed => 4
    case Settled => 5
    case Recovered => 6
    case Dismissed => 6
    case Closed => 7
  }

  lemma MapIsAcyclic(s: Status, t: Status)
    requires t in Transitions(s)
    ensures Rank(s) < Rank(t)
  {
  }

  /** How many actions of a run from `n` on changed the state of case `id`. */
  function Moves(cs: seq<Case>, actions: seq<Action>, id: nat, n: nat): nat
    requires n <= |actions|
    decreases |actions|
  {
    if n == |actions| then 0
    else
      var m := |actions| - 1;
      Moves(cs, actions[..m], id, n) +
      if id < |Exec(cs, actions[..m])| && id < |Exec(cs, actions)|
          && Exec(cs, actions)[id].status != Exec(cs, actions[..m])[id].status
      then 1 else 0
  }

  /** Requests and sweeps alike move a case along the map. */
  lemma RowStepOnMap(c: Case, a: Action, id: nat)
    ensures RowStep(c, a, id).status == c.status || RowStep(c, a, id).status in Transitions(c.status)
  {
    hide RoundKobo;
  }

  /** Action `m` of the run leaves the case's state or moves it along the map. */
  predicate OnMap(actions: seq<Action>, m: nat, id: nat)
    requires m < |actions|
  {
    var cs, ds := Exec([], actions[..m]), Exec([], actions[..m + 1]);
    id < |cs| ==>
      && id < |ds|
      && (ds[id].status == cs[id].status || ds[id].status in Transitions(cs[id].status))
  }

  lemma StepOnMap(actions: seq<Action>, m: nat, id: nat)
    requires m < |actions|
    ensures OnMap(actions, m, id)
  {
    var cs := Exec([], actions[..m]);
    assert actions[..m + 1][..m] == actions[..m];
    assert Exec([], actions[..m + 1]) == Step(cs, actions[m]);
    hide Exec, Step, RowStep, Transitions;
    if id < |cs| {
      StepIsRowStep(cs, actions[m], id);
      RowStepOnMap(cs[id], actions[m], id);
    }
  }

  lemma RowStepFields(c: Case, a: Action, id: nat)
    ensures RowStep(c, a, id).taxpayer == c.taxpayer && RowStep(c, a, id).year == c.year
    ensures c.notice.Some? && c.status !in {Open, UnderReview} ==> RowStep(c, a, id).notice == c.notice
    ensures c.accessToken.Some? ==> RowStep(c, a, id).accessToken == c.accessToken
    ensures c.status !in {Open, UnderReview, NoticeIssued} ==>
              RowStep(c, a, id).authorityResponseDueAt == c.authorityResponseDueAt
  {
    hide RoundKobo;
  }

  /** What every case of a run looks like. */
  predicate CaseOk(c: Case) {
    && (c.status in {Open, UnderReview} ==> c.notice.None?)
    && (c.status in {NoticeIssued, Objection, Confirmed, Settled, Recovered} ==> c.notice.Some?)
    && (c.notice.Some? <==> c.accessToken.Some?)
    && (c.resolvedAt.Some? <==> c.status in {Recovered, Dismissed, Closed})
    && (c.status in {Open, UnderReview, NoticeIssued} ==> c.authorityResponseDueAt.None?)
    && (c.status.Objection? ==> c.authorityResponseDueAt.Some?)
    && (c.status.Recovered? ==> c.recoveredAmount.Some?)
  }

  lemma RowStepOk(c: Case, a: Action, id: nat)
    requires CaseOk(c)
    ensures CaseOk(RowStep(c, a, id))
  {
    hide RoundKobo;
  }

  lemma {:induction false} EveryCaseOk(actions: seq<Action>)
    ensures forall id | 0 <= id < |Exec([], actions)| :: CaseOk(Exec([], actions)[id])
    decreases |actions|
  {
    if actions != [] {
      var n := |actions| - 1;
      EveryCaseOk(actions[..n]);
      var cs := Exec([], actions[..n]);
      var a := actions[n];
      forall id | 0 <= id < |Step(cs, a)| ensures CaseOk(Step(cs, a)[id]) {
        if id < |cs| {
          hide Step, RowStep, CaseOk;
          StepIsRowStep(cs, a, id);
          RowStepOk(cs[id], a, id);
        } else {
          OnlyDetectAdds(cs, a);
        }
      }
    }
  }

  lemma OnlyDetectAdds(cs: seq<Case>, a: Action)
    ensures |cs| <= |Step(cs, a)|
    ensures |cs| < |Step(cs, a)| ==>
              a.Detect? && Step(cs, a) == cs + [NewCase(a.taxpayer, a.year, a.estimatedTaxDue, a.taxBasis)]
  {
    hide Moved, Transitions;
  }

  /** `z` is a later state of the case `c`, with `moves` changes of state in between. */
  predicate Lived(c: Case, z: Case, moves: nat) {
    && moves + Rank(c.status) <= Rank(z.status) <= 7
    && z.taxpayer == c.taxpayer && z.year == c.year
    && (c.notice.Some? ==> z.notice == c.notice)
    && (c.accessToken.Some? ==> z.accessToken == c.accessToken)
    && (c.authorityResponseDueAt.Some? ==> z.authorityResponseDueAt == c.authorityResponseDueAt)
  }

  /** What `CaseOk` says of the fields that are written once: they belong to later states. */
  predicate WrittenLate(c: Case) {
    && (c.notice.Some? ==> c.status !in {Open, UnderReview})
    && (c.authorityResponseDueAt.Some? ==> c.status !in {Open, UnderReview, NoticeIssued})
  }

  lemma LivedOn(c: Case, y: Case, moves: nat, a: Action, id: nat)
    requires Lived(c, y, moves) && WrittenLate(y)
    ensures var z := RowStep(y, a, id); Lived(c, z, moves + if z.status != y.status then 1 else 0)
  {
    hide RowStep;
    RowStepFields(y, a, id);
    RowStepOnMap(y, a, id);
    var z := RowStep(y, a, id);
    if z.status != y.status { MapIsAcyclic(y.status, z.status); }
    RankAtMost(z.status);
  }

  lemma {:induction false} LivesOn(actions: seq<Action>, n: nat, id: nat)
    requires n <= |actions| && id < |Exec([], actions[..n])|
    ensures id < |Exec([], actions)|
    ensures Lived(Exec([], actions[..n])[id], Exec([], actions)[id], Moves([], actions, id, n))
    ensures Moves([], actions, id, n) <= 7 && CaseOk(Exec([], actions)[id])
    decreases |actions|
  {
    EveryCaseOk(actions);
    hide CaseOk;
    if n == |actions| {
      assert actions[..n] == actions;
      RankAtMost(Exec([], actions)[id].status);
    } else {
      hide RowStep, Step, Moves, Lived;
      var m := |actions| - 1;
      assert actions[..m][..n] == actions[..n];
      LivesOn(actions[..m], n, id);
      var cs := Exec([], actions[..m]);
      assert Exec([], actions) == Step(cs, actions[m]);
      hide Exec;
      FieldsLate(actions[..m], id);
      StepIsRowStep(cs, actions[m], id);
      MovesNext(actions, id, n);
      LivedOn(Exec([], actions[..n])[id], cs[id], Moves([], actions[..m], id, n), actions[m], id);
      LivedAtMostSeven(Exec([], actions[..n])[id], Exec([], actions)[id], Moves([], actions, id, n));
    }
  }

  /**
   The life of a case over any run: it only moves along the acyclic map, at most seven times; its
   access token, its notice and its response deadline, once written, stay. The notice is there from
   NOTICE_ISSUED on and not before, the resolution date exactly in the three final states, and the deadline
   during an objection and never before one.
   */
  lemma CaseLife(actions: seq<Action>, n: nat, id: nat)
    requires n <= |actions| && id < |Exec([], actions[..n])|
    ensures id < |Exec([], actions)|
    ensures Lived(Exec([], actions[..n])[id], Exec([], actions)[id], Moves([], actions, id, n))
    ensures Moves([], actions, id, n) <= 7 && CaseOk(Exec([], actions)[id])
    ensures forall m | n <= m < |actions| :: OnMap(actions, m, id)
  {
    hide OnMap, Exec, Lived, CaseOk, Moves;
    LivesOn(actions, n, id);
    forall m | n <= m < |actions| ensures OnMap(actions, m, id) { StepOnMap(actions, m, id); }
  }

  lemma LivedAtMostSeven(c: Case, z: Case, moves: nat)
    requires Lived(c, z, moves)
    ensures moves <= 7
  {
  }

  lemma RankAtMost(s: Status)
    ensures Rank(s) <= 7
  {
  }

  lemma FieldsLate(actions: seq<Action>, id: nat)
    requires id < |Exec([], actions)|
    ensures WrittenLate(Exec([], actions)[id])
  {
    EveryCaseOk(actions);
    assert CaseOk(Exec([], actions)[id]);
  }

  lemma MovesNext(actions: seq<Action>, id: nat, n: nat)
    requires n < |actions| && id < |Exec([], actions[..|actions| - 1])| && id < |Exec([], actions)|
    ensures Moves([], actions, id, n) ==
            Moves([], actions[..|actions| - 1], id, n) +
            if Exec([], actions)[id].status != Exec([], actions[..|actions| - 1])[id].status then 1 else 0
  {
    hide Exec;
  }
}
