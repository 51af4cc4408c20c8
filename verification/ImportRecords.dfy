/**
 The data records of the bank importer: what a run adds, the money in them, and re-running a tagged batch;
 and the importer's calls with nobody interfering.
 */
module ImportRecords {
  import opened Wrappers
  import opened BankImport

  // ----- the records -----------------------------------------------------------------------------

  function Strip(r: Record): Record {
    r.(link := None)
  }

  function StripAll(rs: seq<Record>): seq<Record> {
    if rs == [] then [] else StripAll(rs[..|rs| - 1]) + [Strip(rs[|rs| - 1])]
  }

  function SumInflow(rs: seq<Record>): int {
    if rs == [] then 0 else SumInflow(rs[..|rs| - 1]) + rs[|rs| - 1].inflow
  }

  function WrittenBy(w: Worker, batch: Option<string>): seq<Record> {
    if w.phase.Written? then [RecordOf(w.row, batch, None)] else []
  }

  /** What the written rows of a pool put in the table, links aside. */
  function WrittenRecords(ws: seq<Worker>, batch: Option<string>): seq<Record> {
    if ws == [] then [] else WrittenRecords(ws[..|ws| - 1], batch) + WrittenBy(ws[|ws| - 1], batch)
  }

  function ExpectedRecords(rows: seq<Filing>, batch: Option<string>): seq<Record> {
    if rows == [] then [] else ExpectedRecords(rows[..|rows| - 1], batch) + [RecordOf(rows[|rows| - 1], batch, None)]
  }

  function TransactionTotal(rows: seq<Filing>): int {
    if rows == [] then 0
    else TransactionTotal(rows[..|rows| - 1]) + if rows[|rows| - 1].opening then 0 else rows[|rows| - 1].amount
  }

  lemma WrittenLast(ws: seq<Worker>, batch: Option<string>)
    requires ws != []
    ensures multiset(WrittenRecords(ws, batch)) ==
            multiset(WrittenRecords(ws[..|ws| - 1], batch)) + multiset(WrittenBy(ws[|ws| - 1], batch))
  {
    hide WrittenBy;
  }

  lemma UpdateBefore<T>(s: seq<T>, i: nat, x: T)
    requires i < |s| - 1
    ensures s[i := x][..|s| - 1] == s[..|s| - 1][i := x] && s[i := x][|s| - 1] == s[|s| - 1]
  {
  }

  lemma {:induction false} WrittenUpdate(ws: seq<Worker>, i: nat, p: Phase, batch: Option<string>)
    requires i < |ws| && !ws[i].phase.Written?
    ensures multiset(WrittenRecords(ws[i := ws[i].(phase := p)], batch)) ==
            multiset(WrittenRecords(ws, batch)) + multiset(WrittenBy(ws[i].(phase := p), batch))
    decreases |ws|
  {
    hide RecordOf, WrittenRecords;
    var n := |ws| - 1;
    var us := ws[i := ws[i].(phase := p)];
    WrittenLast(ws, batch);
    WrittenLast(us, batch);
    if i == n {
      assert us[..n] == ws[..n];
      assert WrittenBy(ws[n], batch) == [];
    } else {
      hide WrittenBy;
      UpdateBefore(ws, i, ws[i].(phase := p));
      WrittenUpdate(ws[..n], i, p, batch);
    }
  }

  /** Record `r` is what one of the pool's rows writes, link aside. */
  ghost predicate FromPool(r: Record, ws: seq<Worker>, batch: Option<string>) {
    exists i :: 0 <= i < |ws| && Strip(r) == RecordOf(ws[i].row, batch, None)
  }

  /** The table holds the starting records and one for every written row, and no phase but Write adds any. */
  ghost predicate RecordsInv(s: State, start: seq<Record>) {
    && multiset(StripAll(s.records)) == multiset(StripAll(start)) + multiset(WrittenRecords(s.workers, s.batch))
    && |start| <= |s.records| && s.records[..|start|] == start
    && forall k | |start| <= k < |s.records| :: FromPool(s.records[k], s.workers, s.batch)
  }

  lemma StripAllAppend(rs: seq<Record>, r: Record)
    ensures StripAll(rs + [r]) == StripAll(rs) + [Strip(r)]
    ensures SumInflow(rs + [r]) == SumInflow(rs) + r.inflow
  {
    assert (rs + [r])[..|rs|] == rs;
  }

  lemma FromPoolUpdate(r: Record, ws: seq<Worker>, i: nat, p: Phase, batch: Option<string>)
    requires i < |ws| && FromPool(r, ws, batch)
    ensures FromPool(r, ws[i := ws[i].(phase := p)], batch)
  {
    hide RecordOf, Strip;
    var us := ws[i := ws[i].(phase := p)];
    var j :| 0 <= j < |ws| && Strip(r) == RecordOf(ws[j].row, batch, None);
    assert us[j].row == ws[j].row;
  }

  /** A worker moves on without writing: the records stay. */
  lemma MoveKeepsRecords(s: State, i: nat, p: Phase, ts: Taxpayers, start: seq<Record>)
    requires RecordsInv(s, start) && i < |s.workers| && !s.workers[i].phase.Written? && !p.Written?
    ensures RecordsInv(SetPhase(s, i, p).(taxpayers := ts), start)
  {
    hide RecordOf, Strip, StripAll, WrittenRecords, FromPool;
    WrittenUpdate(s.workers, i, p, s.batch);
    forall k | |start| <= k < |s.records| ensures FromPool(s.records[k], SetPhase(s, i, p).workers, s.batch) {
      FromPoolUpdate(s.records[k], s.workers, i, p, s.batch);
    }
  }

  lemma WriteKeepsRecords(s: State, i: nat, start: seq<Record>)
    requires RecordsInv(s, start) && i < |s.workers| && s.workers[i].phase.Linked?
    ensures RecordsInv(Step(s, Write(i)), start)
  {
    hide RecordOf, Strip, StripAll, WrittenRecords, FromPool;
    var s' := Step(s, Write(i));
    var w := s.workers[i];
    var r := RecordOf(w.row, s.batch, w.phase.link);
    WrittenUpdate(s.workers, i, Written(w.phase.link, w.phase.cause), s.batch);
    StripAllAppend(s.records, r);
    StripRecordOf(w.row, s.batch, w.phase.link);
    NewFromPool(s, i);
    forall k | |start| <= k < |s'.records| ensures FromPool(s'.records[k], s'.workers, s.batch) {
      if k < |s.records| {
        FromPoolUpdate(s.records[k], s.workers, i, Written(w.phase.link, w.phase.cause), s.batch);
      }
    }
  }

  lemma NewFromPool(s: State, i: nat)
    requires i < |s.workers| && s.workers[i].phase.Linked?
    ensures var w := s.workers[i];
            FromPool(RecordOf(w.row, s.batch, w.phase.link), Step(s, Write(i)).workers, s.batch)
  {
    hide RecordOf, Strip;
    var w := s.workers[i];
    StripRecordOf(w.row, s.batch, w.phase.link);
    assert Step(s, Write(i)).workers[i].row == w.row;
  }

  /** Every action of a worker but its write only moves its phase, and may add a taxpayer. */
  lemma StepMoves(s: State, a: Action)
    requires Enabled(s, a) && !a.Other? && !a.Write?
    ensures var p := Step(s, a).workers[a.i].phase;
            && !s.workers[a.i].phase.Written? && !p.Written?
            && Step(s, a) == SetPhase(s, a.i, p).(taxpayers := Step(s, a).taxpayers)
  {
    hide Match, Refused, Known;
  }

  lemma StepKeepsRecords(s: State, a: Action, start: seq<Record>)
    requires RecordsInv(s, start) && Enabled(s, a)
    ensures RecordsInv(Step(s, a), start) && Step(s, a).batch == s.batch
  {
    hide StripAll, WrittenRecords, FromPool;
    if a.Other? {
      assert Step(s, a) == s.(taxpayers := Step(s, a).taxpayers);
    } else if a.Write? {
      WriteKeepsRecords(s, a.i, start);
    } else {
      hide RecordsInv, Enabled, Step;
      StepMoves(s, a);
      MoveKeepsRecords(s, a.i, Step(s, a).workers[a.i].phase, Step(s, a).taxpayers, start);
    }
  }

  lemma StripRecordOf(row: Filing, batch: Option<string>, link: Option<Id>)
    ensures Strip(RecordOf(row, batch, link)) == RecordOf(row, batch, None)
  {
  }

  lemma {:induction false} ExecKeepsRecords(s: State, actions: seq<Action>, start: seq<Record>)
    requires RecordsInv(s, start) && Exec(s, actions).Some?
    ensures RecordsInv(Exec(s, actions).value, start) && Exec(s, actions).value.batch == s.batch
    ensures |Exec(s, actions).value.workers| == |s.workers|
    ensures forall i | 0 <= i < |s.workers| :: Exec(s, actions).value.workers[i].row == s.workers[i].row
    decreases |actions|
  {
    if actions != [] {
      hide RecordsInv, Enabled;
      StepKeepsRecords(s, actions[0], start);
      SameRows(s, actions[0]);
      ExecKeepsRecords(Step(s, actions[0]), actions[1..], start);
    }
  }

  lemma SameRows(s: State, a: Action)
    requires Enabled(s, a)
    ensures |Step(s, a).workers| == |s.workers|
    ensures forall i | 0 <= i < |s.workers| :: Step(s, a).workers[i].row == s.workers[i].row
  {
    hide Match, Refused, Known;
  }

  lemma {:induction false} NoneWritten(ws: seq<Worker>, batch: Option<string>)
    requires forall i | 0 <= i < |ws| :: !ws[i].phase.Written?
    ensures WrittenRecords(ws, batch) == []
    decreases |ws|
  {
    if ws != [] { NoneWritten(ws[..|ws| - 1], batch); }
  }

  lemma {:induction false} AllWritten(ws: seq<Worker>, rows: seq<Filing>, batch: Option<string>)
    requires |ws| == |rows| && forall i | 0 <= i < |ws| :: ws[i].phase.Written? && ws[i].row == rows[i]
    ensures WrittenRecords(ws, batch) == ExpectedRecords(rows, batch)
    decreases |ws|
  {
    hide RecordOf;
    if ws != [] { AllWritten(ws[..|ws| - 1], rows[..|rows| - 1], batch); }
  }

  ghost predicate Complete(s: State) {
    forall i | 0 <= i < |s.workers| :: s.workers[i].phase.Written?
  }

  /** A run's records: nothing that was there moves, and a complete run adds one record per row. */
  lemma RunRecords(ts: Taxpayers, rows: seq<Filing>, start: seq<Record>, batch: Option<string>, actions: seq<Action>)
    requires Exec(Start(ts, rows, start, batch), actions).Some?
    ensures var s := Exec(Start(ts, rows, start, batch), actions).value;
            && RecordsInv(s, start) && s.batch == batch
            && |s.workers| == |rows| && (forall i | 0 <= i < |rows| :: s.workers[i].row == rows[i])
            && (Complete(s) ==>
                  multiset(StripAll(s.records)) == multiset(StripAll(start)) + multiset(ExpectedRecords(rows, batch)))
  {
    hide RecordOf, Exec, StripAll;
    var s0 := Start(ts, rows, start, batch);
    NoneWritten(s0.workers, batch);
    ExecKeepsRecords(s0, actions, start);
    var s := Exec(s0, actions).value;
    if Complete(s) { AllWritten(s.workers, rows, batch); }
  }

  // ----- money -------------------------------------------------------------------------------------

  /** SumInflow depends on the multiset of stripped records alone. */
  lemma {:induction false} SumByMultiset(a: seq<Record>, b: seq<Record>)
    requires multiset(StripAll(a)) == multiset(StripAll(b))
    ensures SumInflow(a) == SumInflow(b)
  {
    SumStripped(a);
    SumStripped(b);
    SumPermuted(StripAll(a), StripAll(b));
  }

  lemma {:induction false} SumStripped(a: seq<Record>)
    ensures SumInflow(StripAll(a)) == SumInflow(a) && |StripAll(a)| == |a|
    decreases |a|
  {
    if a != [] {
      SumStripped(a[..|a| - 1]);
      assert StripAll(a)[..|a| - 1] == StripAll(a[..|a| - 1]);
    }
  }

  lemma {:induction false} SumConcat(a: seq<Record>, b: seq<Record>)
    ensures SumInflow(a + b) == SumInflow(a) + SumInflow(b)
    decreases |b|
  {
    if b == [] {
      assert a + b == a;
    } else {
      assert (a + b)[..|a + b| - 1] == a + b[..|b| - 1];
      SumConcat(a, b[..|b| - 1]);
    }
  }

  lemma SumSplit(a: seq<Record>, k: nat)
    requires k < |a|
    ensures SumInflow(a) == SumInflow(a[..k] + a[k + 1..]) + a[k].inflow
  {
    hide SumInflow;
    assert a == a[..k] + ([a[k]] + a[k + 1..]);
    SumConcat(a[..k], [a[k]] + a[k + 1..]);
    SumConcat([a[k]], a[k + 1..]);
    SumConcat(a[..k], a[k + 1..]);
    SumOne(a[k]);
  }

  lemma SumOne(r: Record)
    ensures SumInflow([r]) == r.inflow
  {
    assert [r][..0] == [];
  }

  lemma RemoveAt<T>(a: seq<T>, k: nat)
    requires k < |a|
    ensures multiset(a[..k] + a[k + 1..]) == multiset(a) - multiset{a[k]}
  {
    assert a == a[..k] + [a[k]] + a[k + 1..];
  }

  lemma SameLength<T>(a: seq<T>, b: seq<T>)
    requires multiset(a) == multiset(b)
    ensures |a| == |b|
  {
    assert |multiset(a)| == |a| && |multiset(b)| == |b|;
  }

  lemma {:induction false} SumPermuted(a: seq<Record>, b: seq<Record>)
    requires multiset(a) == multiset(b)
    ensures SumInflow(a) == SumInflow(b)
    decreases |a|
  {
    SameLength(a, b);
    if a != [] {
      var n := |a| - 1;
      assert a == a[..n] + [a[n]];
      assert a[n] in multiset(b);
      var k :| 0 <= k < |b| && b[k] == a[n];
      SumSplit(b, k);
      RemoveAt(b, k);
      SumPermuted(a[..n], b[..k] + b[k + 1..]);
    }
  }

  lemma {:induction false} SumExpected(rows: seq<Filing>, batch: Option<string>)
    ensures SumInflow(ExpectedRecords(rows, batch)) == TransactionTotal(rows)
    decreases |rows|
  {
    if rows != [] {
      SumExpected(rows[..|rows| - 1], batch);
      var e := ExpectedRecords(rows, batch);
      assert e[..|e| - 1] == ExpectedRecords(rows[..|rows| - 1], batch);
    }
  }

  lemma {:induction false} StripStripped(a: seq<Record>)
    requires forall k | 0 <= k < |a| :: a[k].link == None
    ensures StripAll(a) == a
    decreases |a|
  {
    if a != [] {
      var n := |a| - 1;
      StripStripped(a[..n]);
      assert Strip(a[n]) == a[n];
      assert a == a[..n] + [a[n]];
    }
  }

  lemma ExpectedUnlinked(rows: seq<Filing>, batch: Option<string>)
    ensures forall k | 0 <= k < |ExpectedRecords(rows, batch)| :: ExpectedRecords(rows, batch)[k].link == None
  {
  }

  lemma StripConcat(a: seq<Record>, b: seq<Record>)
    ensures StripAll(a + b) == StripAll(a) + StripAll(b)
    decreases |b|
  {
    if b == [] {
      assert a + b == a;
    } else {
      assert (a + b)[..|a + b| - 1] == a + b[..|b| - 1];
      StripConcat(a, b[..|b| - 1]);
    }
  }

  /** When every row is written, the inflow added is the sum of the TRANSACTION amounts; openings add none. */
  lemma InflowConserved(ts: Taxpayers, rows: seq<Filing>, start: seq<Record>, batch: Option<string>,
                        actions: seq<Action>)
    requires Exec(Start(ts, rows, start, batch), actions).Some?
    requires Complete(Exec(Start(ts, rows, start, batch), actions).value)
    ensures SumInflow(Exec(Start(ts, rows, start, batch), actions).value.records) ==
            SumInflow(start) + TransactionTotal(rows)
  {
    hide Exec, StripAll, ExpectedRecords, SumInflow, TransactionTotal;
    RunRecords(ts, rows, start, batch, actions);
    var s := Exec(Start(ts, rows, start, batch), actions).value;
    var e := ExpectedRecords(rows, batch);
    ExpectedUnlinked(rows, batch);
    StripStripped(e);
    StripConcat(start, e);
    SumByMultiset(s.records, start + e);
    SumConcat(start, e);
    SumExpected(rows, batch);
  }

  // ----- re-running a tagged batch -----------------------------------------------------------------

  predicate OfBatch(r: Record, subs: set<string>, tag: string) {
    r.submission in subs && r.batch == Some(tag)
  }

  /** The records `deleteMany` leaves: those of other submissions, other batches, or no batch. */
  function Clear(rs: seq<Record>, subs: set<string>, tag: string): seq<Record> {
    if rs == [] then []
    else
      var kept := Clear(rs[..|rs| - 1], subs, tag);
      if OfBatch(rs[|rs| - 1], subs, tag) then kept else kept + [rs[|rs| - 1]]
  }

  lemma ClearConcat(a: seq<Record>, b: seq<Record>, subs: set<string>, tag: string)
    requires forall k | 0 <= k < |b| :: OfBatch(b[k], subs, tag)
    ensures Clear(a + b, subs, tag) == Clear(a, subs, tag)
    decreases |b|
  {
    if b == [] {
      assert a + b == a;
    } else {
      assert (a + b)[..|a + b| - 1] == a + b[..|b| - 1];
      ClearConcat(a, b[..|b| - 1], subs, tag);
    }
  }

  lemma {:induction false} ClearTwice(a: seq<Record>, subs: set<string>, tag: string)
    ensures Clear(Clear(a, subs, tag), subs, tag) == Clear(a, subs, tag)
    decreases |a|
  {
    if a != [] {
      ClearTwice(a[..|a| - 1], subs, tag);
      var kept := Clear(a[..|a| - 1], subs, tag);
      if !OfBatch(a[|a| - 1], subs, tag) {
        assert (kept + [a[|a| - 1]])[..|kept|] == kept;
      }
    }
  }

  ghost predicate InSubmissions(rows: seq<Filing>, subs: set<string>) {
    forall i | 0 <= i < |rows| :: rows[i].submission in subs
  }

  /** However far a tagged run got, clearing its batch leaves exactly what it started from. */
  lemma RunThenClear(ts: Taxpayers, rows: seq<Filing>, before: seq<Record>, subs: set<string>, tag: string,
                     actions: seq<Action>)
    requires InSubmissions(rows, subs)
    requires Exec(Start(ts, rows, Clear(before, subs, tag), Some(tag)), actions).Some?
    ensures var s := Exec(Start(ts, rows, Clear(before, subs, tag), Some(tag)), actions).value;
            Clear(s.records, subs, tag) == Clear(before, subs, tag)
  {
    hide Exec, StripAll, Clear, WrittenRecords, ExpectedRecords;
    var start := Clear(before, subs, tag);
    RunRecords(ts, rows, start, Some(tag), actions);
    var s := Exec(Start(ts, rows, start, Some(tag)), actions).value;
    var added := s.records[|start|..];
    assert s.records == start + added;
    forall k | 0 <= k < |added| ensures OfBatch(added[k], subs, tag) {
      assert added[k] == s.records[|start| + k];
      assert FromPool(s.records[|start| + k], s.workers, s.batch);
      var i :| 0 <= i < |s.workers| && Strip(s.records[|start| + k]) == RecordOf(s.workers[i].row, s.batch, None);
      assert rows[i].submission in subs;
    }
    ClearConcat(start, added, subs, tag);
    ClearTwice(before, subs, tag);
  }

  /**
   Re-running a tagged batch converges: after any earlier run of it, complete or cut short, a complete
   re-run leaves the records a first complete run would have left - taxpayer links aside - and the records
   of other batches and submissions exactly as they were.
   */
  lemma RerunConverges(ts: Taxpayers, us: Taxpayers, rows: seq<Filing>, before: seq<Record>, subs: set<string>,
                       tag: string, first: seq<Action>, second: seq<Action>)
    requires InSubmissions(rows, subs)
    requires Exec(Start(ts, rows, Clear(before, subs, tag), Some(tag)), first).Some?
    requires var s := Exec(Start(ts, rows, Clear(before, subs, tag), Some(tag)), first).value;
             && Exec(Start(us, rows, Clear(s.records, subs, tag), Some(tag)), second).Some?
             && Complete(Exec(Start(us, rows, Clear(s.records, subs, tag), Some(tag)), second).value)
    ensures var s := Exec(Start(ts, rows, Clear(before, subs, tag), Some(tag)), first).value;
            var e := Exec(Start(us, rows, Clear(s.records, subs, tag), Some(tag)), second).value;
            && multiset(StripAll(e.records)) ==
               multiset(StripAll(Clear(before, subs, tag))) + multiset(ExpectedRecords(rows, Some(tag)))
            && Clear(e.records, subs, tag) == Clear(before, subs, tag)
  {
    hide Exec, StripAll, Clear, ExpectedRecords, RecordsInv;
    RunThenClear(ts, rows, before, subs, tag, first);
    var s := Exec(Start(ts, rows, Clear(before, subs, tag), Some(tag)), first).value;
    RunThenClear(us, rows, s.records, subs, tag, second);
    RunRecords(us, rows, Clear(s.records, subs, tag), Some(tag), second);
  }

  // ----- one call without interference --------------------------------------------------------------

  /** The lookup that finds `who` first: BVN before TIN before NIN. */
  ghost predicate FirstMatch(ts: Taxpayers, who: Identity, t: Id) {
    exists k :: 0 <= k < 3 && Match(ts, t, who, k) && forall j, u :: 0 <= j < k ==> !Match(ts, u, who, j)
  }

  class ImportDb {
    var taxpayers: Taxpayers
    var records: seq<Record>

    constructor (ts: Taxpayers, rs: seq<Record>)
      ensures taxpayers == ts && records == rs
    {
      taxpayers, records := ts, rs;
    }

    /** At most one row of a unique index can answer, so the answer does not depend on the scan's order. */
    method FindUnique(who: Identity, k: nat) returns (found: Option<Id>)
      requires k < 3
      ensures found.Some? ==> Match(taxpayers, found.value, who, k)
      ensures found.None? ==> forall t :: !Match(taxpayers, t, who, k)
      ensures UniqueIndexes(taxpayers) ==> forall t: Id | Match(taxpayers, t, who, k) :: found == Some(t)
    {
      var todo := taxpayers.Keys;
      while todo != {}
        invariant todo <= taxpayers.Keys
        invariant forall t | t in taxpayers && t !in todo :: !Match(taxpayers, t, who, k)
        decreases |todo|
      {
        var t :| t in todo;
        if SharesKey(who, taxpayers[t], k) {
          assert forall u: Id | Match(taxpayers, u, who, k) :: Shares(taxpayers[u], taxpayers[t]);
          return Some(t);
        }
        todo := todo - {t};
      }
      return None;
    }

    method FindByIdentifiers(who: Identity) returns (found: Option<Id>)
      ensures found.Some? ==> FirstMatch(taxpayers, who, found.value)
      ensures found.None? ==> forall t | t in taxpayers :: !Shares(who, taxpayers[t])
    {
      var k := 0;
      while k < 3
        invariant k <= 3
        invariant forall j, t :: 0 <= j < k ==> !Match(taxpayers, t, who, j)
      {
        found := FindUnique(who, k);
        if found.Some? { return; }
        k := k + 1;
      }
      forall t | t in taxpayers ensures !Shares(who, taxpayers[t]) {
        assert !Match(taxpayers, t, who, 0) && !Match(taxpayers, t, who, 1) && !Match(taxpayers, t, who, 2);
      }
      return None;
    }

    /** Whether a unique index refuses the new taxpayer. */
    method IsRefused(who: Identity) returns (refused: bool)
      ensures refused <==> Refused(taxpayers, who)
    {
      var todo := taxpayers.Keys;
      while todo != {}
        invariant todo <= taxpayers.Keys
        invariant forall t | t in taxpayers && t !in todo :: !Conflicts(who, taxpayers[t])
        decreases |todo|
      {
        var t :| t in todo;
        if Conflicts(who, taxpayers[t]) { return true; }
        todo := todo - {t};
      }
      return false;
    }

    /**
     A find-or-create nobody interferes with: an existing match wins, BVN before TIN before NIN; otherwise
     the taxpayer is created, unless its company number is taken or the database fails, when it gets none.
     */
    method FindOrCreateTaxpayer(who: Identity, id: Id, databaseFails: bool) returns (link: Option<Id>)
      requires UniqueIndexes(taxpayers) && id !in taxpayers
      modifies this`taxpayers
      ensures UniqueIndexes(taxpayers) && Grows(old(taxpayers), taxpayers)
      ensures (exists t :: FirstMatch(old(taxpayers), who, t)) ==>
                link.Some? && FirstMatch(old(taxpayers), who, link.value) && taxpayers == old(taxpayers)
      ensures !(exists t :: FirstMatch(old(taxpayers), who, t)) ==>
                if NumberTaken(old(taxpayers), who) || databaseFails then link == None && taxpayers == old(taxpayers)
                else link == Some(id) && taxpayers == old(taxpayers)[id := who]
    {
      link := FindByIdentifiers(who);
      if link.Some? { return; }
      var refused := IsRefused(who);
      if refused {
        link := FindByIdentifiers(who);
      } else if !databaseFails {
        taxpayers := taxpayers[id := who];
        link := Some(id);
      }
    }

    /** The clean-up before a tagged run. */
    method DeleteMany(subs: set<string>, tag: string)
      modifies this`records
      ensures records == Clear(old(records), subs, tag)
    {
      var kept := [];
      var i := 0;
      while i < |records|
        invariant i <= |records|
        invariant kept == Clear(records[..i], subs, tag)
      {
        assert records[..i + 1][..i] == records[..i];
        if !OfBatch(records[i], subs, tag) { kept := kept + [records[i]]; }
        i := i + 1;
      }
      assert records[..i] == records;
      records := kept;
    }
  }
}
