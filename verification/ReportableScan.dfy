/**
 The grouped threshold query behind every reporting surface (`computeReportableIds`): inflows are summed
 per (taxpayer, quarter), and a taxpayer is reportable when some quarter reaches its threshold.
 */
module ReportableScan {
  import opened Wrappers

  type Id = string
  datatype Kind = Individual | Corporate | Government
  datatype Thresholds = Thresholds(individual: int, corporate: int)

  /** A data record; a null inflow is none, and `accountOpened` marks an account-opening record. */
  datatype Record = Record(taxpayer: Option<Id>, period: string, year: int, inflow: Option<int>, accountOpened: bool)

  datatype Db = Db(taxpayers: map<Id, Kind>, records: seq<Record>)

  // ----- quarter keys ------------------------------------------------------------------------

  predicate IsDigit(c: char) { '0' <= c <= '9' }

  predicate YearDash(l: string) {
    |l| == 7 && IsDigit(l[0]) && IsDigit(l[1]) && IsDigit(l[2]) && IsDigit(l[3]) && l[4] == '-'
  }

  predicate IsQuarterLabel(l: string) {
    YearDash(l) && l[5] == 'Q' && '1' <= l[6] <= '4'
  }

  predicate IsMonthLabel(l: string) {
    YearDash(l) && IsDigit(l[5]) && IsDigit(l[6])
  }

  function DigitValue(c: char): (n: int)
    requires IsDigit(c)
    ensures 0 <= n <= 9
  {
    c as int - '0' as int
  }

  function DigitChar(n: int): char
    requires 0 <= n <= 9
  {
    ('0' as int + n) as char
  }

  function Decimal(n: int): string
    requires 0 <= n <= 99
  {
    if n < 10 then [DigitChar(n)] else [DigitChar(n / 10), DigitChar(n % 10)]
  }

  /** SQL division truncates toward zero, so month 00 lands in the first quarter. */
  function QuarterOfMonth(month: int): int
    requires 0 <= month <= 99
  {
    (if month == 0 then 0 else (month - 1) / 3) + 1
  }

  function QuarterKey(l: string): string {
    if IsQuarterLabel(l) then l
    else if IsMonthLabel(l) then
      l[..4] + "-Q" + Decimal(QuarterOfMonth(10 * DigitValue(l[5]) + DigitValue(l[6])))
    else l
  }

  /** A month folds into a quarter label of its own year exactly when it is one of its three months -
      or, for the first quarter, month 00. */
  lemma MonthsOfQuarter(month: string, quarter: string)
    requires IsMonthLabel(month) && IsQuarterLabel(quarter) && month[..4] == quarter[..4]
    ensures var m, q := 10 * DigitValue(month[5]) + DigitValue(month[6]), DigitValue(quarter[6]);
            QuarterKey(month) == quarter <==> 3 * q - 2 <= m <= 3 * q || (m == 0 && q == 1)
  {
    var m, q := 10 * DigitValue(month[5]) + DigitValue(month[6]), DigitValue(quarter[6]);
    var n := QuarterOfMonth(m);
    assert n == q <==> 3 * q - 2 <= m <= 3 * q || (m == 0 && q == 1);
    assert quarter == quarter[..4] + "-Q" + [quarter[6]];
    assert quarter[6] == DigitChar(q);
    var key := QuarterKey(month);
    if n >= 10 {
      assert |key| == 8;
    } else {
      assert key == month[..4] + "-Q" + [DigitChar(n)];
      assert key[6] == DigitChar(n);
    }
  }

  // ----- the query -----------------------------------------------------------------------------

  /** The rows the WHERE clause keeps for a taxpayer and a group key. */
  predicate InGroup(r: Record, t: Id, key: string, year: Option<int>) {
    r.taxpayer == Some(t) && !r.accountOpened && InYear(r, year) && QuarterKey(r.period) == key
  }

  /** A call for year 0 is one for no year, so `year` is then none. */
  predicate InYear(r: Record, year: Option<int>) {
    year.None? || r.year == year.value
  }

  function Add(a: Option<int>, b: Option<int>): Option<int> {
    if a.None? then b else if b.None? then a else Some(a.value + b.value)
  }

  /** SUM over a group: nulls are skipped, and a group of nulls sums to null. */
  function Total(rs: seq<Record>, t: Id, key: string, year: Option<int>): Option<int> {
    if rs == [] then None
    else Add(if InGroup(rs[0], t, key, year) then rs[0].inflow else None, Total(rs[1..], t, key, year))
  }

  /** `null >= x` is not true, and a government body has no threshold to reach. */
  predicate Reaches(cfg: Thresholds, k: Kind, sum: Option<int>) {
    sum.Some? && match k
                 case Individual => sum.value >= cfg.individual
                 case Corporate => sum.value >= cfg.corporate
                 case Government => false
  }

  predicate Meets(db: Db, cfg: Thresholds, t: Id, key: string, year: Option<int>) {
    t in db.taxpayers && Reaches(cfg, db.taxpayers[t], Total(db.records, t, key, year))
  }

  /** The groups are those of the records; the result is the set of taxpayers with a group that meets the bar. */
  function Reportable(db: Db, cfg: Thresholds, year: Option<int>): set<Id> {
    set i | 0 <= i < |db.records| && db.records[i].taxpayer.Some?
            && Meets(db, cfg, db.records[i].taxpayer.value, QuarterKey(db.records[i].period), year)
      :: db.records[i].taxpayer.value
  }

  lemma {:induction false} TotalHasRecord(rs: seq<Record>, t: Id, key: string, year: Option<int>)
    requires Total(rs, t, key, year).Some?
    ensures exists i :: 0 <= i < |rs| && InGroup(rs[i], t, key, year)
    decreases |rs|
  {
    if InGroup(rs[0], t, key, year) {
    } else {
      TotalHasRecord(rs[1..], t, key, year);
      var i :| 0 <= i < |rs[1..]| && InGroup(rs[1..][i], t, key, year);
      assert InGroup(rs[i + 1], t, key, year);
    }
  }

  /** Membership, free of how the groups are enumerated. */
  lemma ReportableIff(db: Db, cfg: Thresholds, year: Option<int>, t: Id)
    ensures t in Reportable(db, cfg, year) <==> exists key :: Meets(db, cfg, t, key, year)
  {
    hide QuarterKey, Total;
    if key :| Meets(db, cfg, t, key, year) {
      TotalHasRecord(db.records, t, key, year);
      var i :| 0 <= i < |db.records| && InGroup(db.records[i], t, key, year);
      assert t in Reportable(db, cfg, year);
    }
  }

  // ----- the same, written out -----------------------------------------------------------------

  /** The inflows on record that count for a taxpayer in a quarter: of the year asked for, if one is, and not of
      account openings. */
  function Inflows(rs: seq<Record>, t: Id, quarter: string, year: Option<int>): seq<int> {
    if rs == [] then []
    else
      var r := rs[0];
      var counts := r.taxpayer == Some(t) && QuarterKey(r.period) == quarter && r.inflow.Some? && !r.accountOpened
                    && (year.Some? ==> r.year == year.value);
      (if counts then [r.inflow.value] else []) + Inflows(rs[1..], t, quarter, year)
  }

  function Sum(xs: seq<int>): int {
    if xs == [] then 0 else xs[0] + Sum(xs[1..])
  }

  lemma {:induction false} TotalIsSum(rs: seq<Record>, t: Id, quarter: string, year: Option<int>)
    ensures var xs := Inflows(rs, t, quarter, year);
            Total(rs, t, quarter, year) == if xs == [] then None else Some(Sum(xs))
    decreases |rs|
  {
    hide QuarterKey;
    if rs != [] {
      TotalIsSum(rs[1..], t, quarter, year);
      var r, xs, more := rs[0], Inflows(rs, t, quarter, year), Inflows(rs[1..], t, quarter, year);
      if InGroup(r, t, quarter, year) && r.inflow.Some? {
        assert xs == [r.inflow.value] + more;
        assert xs[1..] == more;
      } else {
        assert xs == more;
      }
    }
  }

  /** In this quarter the taxpayer's inflows, if there are any, reach the threshold of its kind. */
  predicate QuarterReaches(db: Db, cfg: Thresholds, t: Id, quarter: string, year: Option<int>) {
    var xs := Inflows(db.records, t, quarter, year);
    && t in db.taxpayers && xs != []
    && ((db.taxpayers[t] == Individual && Sum(xs) >= cfg.individual)
        || (db.taxpayers[t] == Corporate && Sum(xs) >= cfg.corporate))
  }

  /**
   Who is reportable: an individual with a quarter whose inflows reach the individual threshold, and a corporate
   with one whose inflows reach the corporate threshold. A quarter without a single inflow reaches none, and a
   government body is never reportable.
   */
  lemma WhoIsReportable(db: Db, cfg: Thresholds, year: Option<int>, t: Id)
    ensures t in Reportable(db, cfg, year) <==> exists quarter :: QuarterReaches(db, cfg, t, quarter, year)
    ensures t in Reportable(db, cfg, year) ==> t in db.taxpayers && db.taxpayers[t] != Government
  {
    ReportableIff(db, cfg, year, t);
    hide Inflows, Total, Sum, Reportable;
    forall quarter: string ensures Meets(db, cfg, t, quarter, year) <==> QuarterReaches(db, cfg, t, quarter, year) {
      TotalIsSum(db.records, t, quarter, year);
    }
  }

  /** Labels that are no months share a quarter only with themselves. */
  lemma LabelsApart(a: string, b: string)
    requires !IsMonthLabel(a) && !IsMonthLabel(b)
    ensures QuarterKey(a) == QuarterKey(b) <==> a == b
  {
  }

  /** A month from 00 to 12 shares one with a quarter label, of its own year. */
  lemma MonthIsInAQuarter(month: string)
    requires IsMonthLabel(month) && 10 * DigitValue(month[5]) + DigitValue(month[6]) <= 12
    ensures var quarter := QuarterKey(month);
            IsQuarterLabel(quarter) && quarter[..4] == month[..4] && QuarterKey(quarter) == quarter
  {
    var n := QuarterOfMonth(10 * DigitValue(month[5]) + DigitValue(month[6]));
    assert QuarterKey(month) == month[..4] + "-Q" + [DigitChar(n)];
  }

  lemma AddLaws(a: Option<int>, b: Option<int>, c: Option<int>)
    ensures Add(Add(a, b), c) == Add(a, Add(b, c)) && Add(a, None) == a
  {
  }

  lemma {:induction false} TotalAppend(a: seq<Record>, b: seq<Record>, t: Id, key: string, year: Option<int>)
    ensures Total(a + b, t, key, year) == Add(Total(a, t, key, year), Total(b, t, key, year))
    decreases |a|
  {
    hide InGroup;
    if a == [] {
      assert a + b == b;
    } else {
      assert (a + b)[1..] == a[1..] + b;
      TotalAppend(a[1..], b, t, key, year);
      AddLaws(if InGroup(a[0], t, key, year) then a[0].inflow else None,
              Total(a[1..], t, key, year), Total(b, t, key, year));
    }
  }

  /** Equal group totals give equal results. */
  lemma SameTotalsSameResult(db: Db, rs: seq<Record>, cfg: Thresholds, year: Option<int>)
    requires forall t, key :: Total(db.records, t, key, year) == Total(rs, t, key, year)
    ensures Reportable(db.(records := rs), cfg, year) == Reportable(db, cfg, year)
  {
    hide Total, QuarterKey;
    forall t ensures t in Reportable(db.(records := rs), cfg, year) <==> t in Reportable(db, cfg, year) {
      ReportableIff(db, cfg, year, t);
      ReportableIff(db.(records := rs), cfg, year, t);
      assert forall key :: Meets(db, cfg, t, key, year) <==> Meets(db.(records := rs), cfg, t, key, year);
    }
  }

  // ----- the reporting grain does not matter ---------------------------------------------------

  function SumInflow(parts: seq<Record>): Option<int> {
    if parts == [] then None else Add(parts[0].inflow, SumInflow(parts[1..]))
  }

  /** `parts` carry the money of `whole` under labels of the same quarter. */
  ghost predicate Splits(whole: Record, parts: seq<Record>) {
    && SumInflow(parts) == whole.inflow
    && forall i | 0 <= i < |parts| ::
         && parts[i].taxpayer == whole.taxpayer && parts[i].year == whole.year
         && parts[i].accountOpened == whole.accountOpened
         && QuarterKey(parts[i].period) == QuarterKey(whole.period)
  }

  lemma {:induction false} TotalOfParts(whole: Record, parts: seq<Record>, t: Id, key: string, year: Option<int>)
    requires forall i | 0 <= i < |parts| ::
         && parts[i].taxpayer == whole.taxpayer && parts[i].year == whole.year
         && parts[i].accountOpened == whole.accountOpened
         && QuarterKey(parts[i].period) == QuarterKey(whole.period)
    ensures Total(parts, t, key, year) == if InGroup(whole, t, key, year) then SumInflow(parts) else None
    decreases |parts|
  {
    hide QuarterKey;
    if parts != [] {
      TotalOfParts(whole, parts[1..], t, key, year);
      assert InGroup(parts[0], t, key, year) == InGroup(whole, t, key, year);
    }
  }

  /**
   Splitting a record into labels of its quarter - a quarterly record into that quarter's months, say - or
   merging such records back, never changes who is reportable.
   */
  lemma GrainInvariant(db: Db, before: seq<Record>, whole: Record, parts: seq<Record>, after: seq<Record>,
                       cfg: Thresholds, year: Option<int>)
    requires Splits(whole, parts)
    ensures Reportable(db.(records := before + parts + after), cfg, year) ==
            Reportable(db.(records := before + [whole] + after), cfg, year)
  {
    var merged, split := before + [whole] + after, before + parts + after;
    forall t, key ensures Total(merged, t, key, year) == Total(split, t, key, year) {
      TotalAppend(before + [whole], after, t, key, year);
      TotalAppend(before, [whole], t, key, year);
      TotalAppend(before + parts, after, t, key, year);
      TotalAppend(before, parts, t, key, year);
      TotalOfParts(whole, parts, t, key, year);
      assert Total([whole], t, key, year) == if InGroup(whole, t, key, year) then whole.inflow else None by {
        assert [whole][1..] == [];
      }
    }
    SameTotalsSameResult(db.(records := merged), split, cfg, year);
    assert db.(records := merged).(records := split) == db.(records := split);
  }

  function DropOpened(rs: seq<Record>): seq<Record> {
    if rs == [] then [] else (if rs[0].accountOpened then [] else [rs[0]]) + DropOpened(rs[1..])
  }

  lemma {:induction false} TotalDropOpened(rs: seq<Record>, t: Id, key: string, year: Option<int>)
    ensures Total(DropOpened(rs), t, key, year) == Total(rs, t, key, year)
    decreases |rs|
  {
    hide QuarterKey;
    if rs != [] {
      TotalDropOpened(rs[1..], t, key, year);
      if rs[0].accountOpened {
        assert DropOpened(rs) == DropOpened(rs[1..]);
      } else {
        assert DropOpened(rs)[1..] == DropOpened(rs[1..]);
      }
    }
  }

  /** Account-opening records never matter. */
  lemma OpenedNeverMatter(db: Db, cfg: Thresholds, year: Option<int>)
    ensures Reportable(db.(records := DropOpened(db.records)), cfg, year) == Reportable(db, cfg, year)
  {
    forall t, key ensures Total(db.records, t, key, year) == Total(DropOpened(db.records), t, key, year) {
      TotalDropOpened(db.records, t, key, year);
    }
    SameTotalsSameResult(db, DropOpened(db.records), cfg, year);
  }

  // ----- monotonicity --------------------------------------------------------------------------

  ghost predicate NonNegative(rs: seq<Record>) {
    forall i | 0 <= i < |rs| :: rs[i].inflow.Some? ==> rs[i].inflow.value >= 0
  }

  predicate AtMost(a: Option<int>, b: Option<int>) {
    a.Some? ==> b.Some? && a.value <= b.value
  }

  lemma {:induction false} TotalNonNegative(rs: seq<Record>, t: Id, key: string, year: Option<int>)
    requires NonNegative(rs)
    ensures Total(rs, t, key, year).Some? ==> Total(rs, t, key, year).value >= 0
    decreases |rs|
  {
    if rs != [] { TotalNonNegative(rs[1..], t, key, year); }
  }

  lemma LargerTotalsLargerResult(db: Db, rs: seq<Record>, cfg: Thresholds, y: Option<int>, z: Option<int>)
    requires forall t, key {:trigger Total(rs, t, key, z)} :: AtMost(Total(db.records, t, key, y), Total(rs, t, key, z))
    ensures Reportable(db, cfg, y) <= Reportable(db.(records := rs), cfg, z)
  {
    hide Total, QuarterKey;
    forall t | t in Reportable(db, cfg, y) ensures t in Reportable(db.(records := rs), cfg, z) {
      ReportableIff(db, cfg, y, t);
      ReportableIff(db.(records := rs), cfg, z, t);
      var key :| Meets(db, cfg, t, key, y);
      assert AtMost(Total(db.records, t, key, y), Total(rs, t, key, z));
      assert Meets(db.(records := rs), cfg, t, key, z);
    }
  }

  /** Adding records with no negative inflow removes nobody. */
  lemma AddingRemovesNobody(db: Db, more: seq<Record>, cfg: Thresholds, year: Option<int>)
    requires NonNegative(more)
    ensures Reportable(db, cfg, year) <= Reportable(db.(records := db.records + more), cfg, year)
  {
    var rs := db.records + more;
    forall t, key ensures AtMost(Total(db.records, t, key, year), Total(rs, t, key, year)) {
      TotalAppend(db.records, more, t, key, year);
      TotalNonNegative(more, t, key, year);
    }
    LargerTotalsLargerResult(db, rs, cfg, year, year);
  }

  lemma {:induction false} YearTotal(rs: seq<Record>, t: Id, key: string, year: int)
    requires NonNegative(rs)
    ensures AtMost(Total(rs, t, key, Some(year)), Total(rs, t, key, None))
    decreases |rs|
  {
    if rs != [] {
      YearTotal(rs[1..], t, key, year);
      TotalNonNegative(rs[1..], t, key, None);
    }
  }

  /** With no negative inflow, everyone reportable in a year is reportable over all years. */
  lemma YearWithinAll(db: Db, cfg: Thresholds, year: int)
    requires NonNegative(db.records)
    ensures Reportable(db, cfg, Some(year)) <= Reportable(db, cfg, None)
  {
    forall t, key ensures AtMost(Total(db.records, t, key, Some(year)), Total(db.records, t, key, None)) {
      YearTotal(db.records, t, key, year);
    }
    LargerTotalsLargerResult(db, db.records, cfg, Some(year), None);
    assert db.(records := db.records) == db;
  }
}
