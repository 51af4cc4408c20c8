/**
 The reportable-set cache: a 60-second memo and single-flight promises in front of the grouped query.
 Each step below is the code one caller or one query runs between two awaits.
 */
module ReportableCache {
  import opened Wrappers
  import opened ReportableScan

  const TTL_MS := 60_000

  /** The scope of a call: one year, or none for all periods. */
  type Scope = Option<int>
  type RunId = nat
  type Caller = nat

  /** A memo entry; `run` remembers which query filled it. */
  datatype Entry = Entry(at: int, ids: set<Id>, run: RunId)

  /** The two maps of the service. */
  datatype Svc = Svc(cache: map<Scope, Entry>, inFlight: map<Scope, RunId>)

  datatype Outcome = Hit(entry: Entry) | Join(run: RunId) | Launch(run: RunId)

  /** The synchronous head of a call: a memo entry still young enough, else the running query, else a new one. */
  function Begin(svc: Svc, scope: Scope, now: int, newRun: RunId): (Svc, Outcome) {
    if scope in svc.cache && now - svc.cache[scope].at < TTL_MS then (svc, Hit(svc.cache[scope]))
    else if scope in svc.inFlight then (svc, Join(svc.inFlight[scope]))
    else (svc.(inFlight := svc.inFlight[scope := newRun]), Launch(newRun))
  }

  function Fill(svc: Svc, scope: Scope, e: Entry): Svc {
    svc.(cache := svc.cache[scope := e])
  }

  /** The `finally` of the launching caller. */
  function Settle(svc: Svc, scope: Scope): Svc {
    svc.(inFlight := svc.inFlight - {scope})
  }

  class ReportableService {
    var cache: map<Scope, Entry>
    var inFlight: map<Scope, RunId>

    constructor ()
      ensures State() == Svc(map[], map[])
    {
      cache, inFlight := map[], map[];
    }

    function State(): Svc
      reads this
    {
      Svc(cache, inFlight)
    }

    method BeginCall(scope: Scope, now: int, newRun: RunId) returns (o: Outcome)
      modifies this
      ensures (State(), o) == Begin(old(State()), scope, now, newRun)
    {
      if scope in cache {
        var hit := cache[scope];
        if now - hit.at < TTL_MS { return Hit(hit); }
      }
      if scope in inFlight { return Join(inFlight[scope]); }
      inFlight := inFlight[scope := newRun];
      o := Launch(newRun);
    }

    method FinishScan(scope: Scope, ids: set<Id>, run: RunId, now: int)
      modifies this
      ensures State() == Fill(old(State()), scope, Entry(now, ids, run))
    {
      cache := cache[scope := Entry(now, ids, run)];
    }

    method SettleCall(scope: Scope)
      modifies this
      ensures State() == Settle(old(State()), scope)
    {
      inFlight := inFlight - {scope};
    }
  }

  // ----- all callers and queries together --------------------------------------------------------

  /** How far a query has got; the thresholds and the rows are read at two different awaits. */
  datatype Phase =
    | Started
    | Configured(cfg: Thresholds)
    | Read(cfg: Thresholds, snapshot: Db, readAt: int)
    | Done(cfg: Thresholds, snapshot: Db, readAt: int, doneAt: int)
    | Failed

  datatype Run = Run(scope: Scope, owner: Caller, startedAt: int, phase: Phase) {
    predicate Active() {
      phase.Started? || phase.Configured? || phase.Read?
    }
  }

  /** `late` marks a caller that joined a query already done, whose launcher has not yet been resumed. */
  datatype CallState =
    | Waiting(scope: Scope, run: RunId, calledAt: int, late: bool)
    | Returned(scope: Scope, run: RunId, calledAt: int, late: bool, ids: set<Id>)
    | Threw

  datatype System = System(
    svc: Svc, runs: map<RunId, Run>, calls: map<Caller, CallState>, db: Db, cfg: Thresholds, now: int)

  function Initial(db: Db, cfg: Thresholds, now: int): System {
    System(Svc(map[], map[]), map[], map[], db, cfg, now)
  }

  datatype Action =
    | Tick(now: int)
    | ChangeDb(db: Db)
    | ChangeConfig(cfg: Thresholds)
    | Call(c: Caller, scope: Scope, newRun: RunId)
    | ReadConfig(r: RunId)
    | ReadRows(r: RunId)
    | Finish(r: RunId)
    | Fail(r: RunId)
    | Resume(c: Caller)

  predicate Enabled(s: System, a: Action) {
    match a
    case Tick(now) => s.now <= now
    case ChangeDb(_) => true
    case ChangeConfig(_) => true
    case Call(c, _, newRun) => c !in s.calls && newRun !in s.runs
    case ReadConfig(r) => r in s.runs && s.runs[r].phase.Started?
    case ReadRows(r) => r in s.runs && s.runs[r].phase.Configured?
    case Finish(r) => r in s.runs && s.runs[r].phase.Read?
    case Fail(r) => r in s.runs && s.runs[r].Active()
    case Resume(c) =>
      c in s.calls && s.calls[c].Waiting? && s.calls[c].run in s.runs && !s.runs[s.calls[c].run].Active()
  }

  function SetPhase(s: System, r: RunId, p: Phase): map<RunId, Run>
    requires r in s.runs
  {
    s.runs[r := s.runs[r].(phase := p)]
  }

  /** The set a finished query delivers. */
  function Result(r: Run): set<Id>
    requires r.phase.Read? || r.phase.Done?
  {
    Reportable(r.phase.snapshot, r.phase.cfg, r.scope)
  }

  function StepCall(s: System, c: Caller, scope: Scope, newRun: RunId): System {
    var (svc, o) := Begin(s.svc, scope, s.now, newRun);
    match o
    case Hit(e) => s.(svc := svc, calls := s.calls[c := Returned(scope, e.run, s.now, false, e.ids)])
    case Join(r) =>
      var late := r in s.runs && !s.runs[r].Active();
      s.(svc := svc, calls := s.calls[c := Waiting(scope, r, s.now, late)])
    case Launch(r) =>
      s.(svc := svc, runs := s.runs[r := Run(scope, c, s.now, Started)],
         calls := s.calls[c := Waiting(scope, r, s.now, false)])
  }

  function StepResume(s: System, c: Caller): System
    requires Enabled(s, Resume(c))
  {
    var w := s.calls[c];
    var r := s.runs[w.run];
    var svc := if r.owner == c then Settle(s.svc, w.scope) else s.svc;
    var call := if r.phase.Done? then Returned(w.scope, w.run, w.calledAt, w.late, Result(r)) else Threw;
    s.(svc := svc, calls := s.calls[c := call])
  }

  function Step(s: System, a: Action): System
    requires Enabled(s, a)
  {
    match a
    case Tick(now) => s.(now := now)
    case ChangeDb(db) => s.(db := db)
    case ChangeConfig(cfg) => s.(cfg := cfg)
    case Call(c, scope, newRun) => StepCall(s, c, scope, newRun)
    case ReadConfig(r) => s.(runs := SetPhase(s, r, Configured(s.cfg)))
    case ReadRows(r) => s.(runs := SetPhase(s, r, Read(s.runs[r].phase.cfg, s.db, s.now)))
    case Finish(r) =>
      var p := s.runs[r].phase;
      s.(svc := Fill(s.svc, s.runs[r].scope, Entry(s.now, Result(s.runs[r]), r)),
         runs := SetPhase(s, r, Done(p.cfg, p.snapshot, p.readAt, s.now)))
    case Fail(r) => s.(runs := SetPhase(s, r, Failed))
    case Resume(c) => StepResume(s, c)
  }

  function Exec(s: System, actions: seq<Action>): Option<System>
    decreases |actions|
  {
    if actions == [] then Some(s)
    else if Enabled(s, actions[0]) then Exec(Step(s, actions[0]), actions[1..])
    else None
  }

  // ----- the invariant ---------------------------------------------------------------------------

  /** The launcher of run `r` has not been resumed yet. */
  predicate Unsettled(s: System, r: RunId) {
    && r in s.runs && s.runs[r].owner in s.calls
    && s.calls[s.runs[r].owner].Waiting? && s.calls[s.runs[r].owner].run == r
  }

  predicate RunOk(s: System, r: RunId)
    requires r in s.runs
  {
    var run := s.runs[r];
    && (run.Active() ==> Unsettled(s, r))
    && (Unsettled(s, r) ==> run.scope in s.svc.inFlight && s.svc.inFlight[run.scope] == r
                            && s.calls[run.owner].scope == run.scope)
    && run.owner in s.calls
    && match run.phase
       case Read(_, _, readAt) => run.startedAt <= readAt <= s.now
       case Done(_, _, readAt, doneAt) => run.startedAt <= readAt <= doneAt <= s.now
       case _ => run.startedAt <= s.now
  }

  predicate EntryOk(s: System, scope: Scope, e: Entry) {
    && e.run in s.runs && s.runs[e.run].phase.Done? && s.runs[e.run].scope == scope
    && e.at == s.runs[e.run].phase.doneAt && e.ids == Result(s.runs[e.run])
  }

  /** A query done while its launcher waits is still the one the memo holds. */
  predicate PendingEntry(s: System, r: RunId)
    requires r in s.runs
  {
    Unsettled(s, r) && s.runs[r].phase.Done? ==>
      s.runs[r].scope in s.svc.cache && s.svc.cache[s.runs[r].scope].run == r
  }

  predicate CallOk(s: System, c: CallState) {
    match c
    case Waiting(scope, r, calledAt, late) =>
      && r in s.runs && s.runs[r].scope == scope && calledAt <= s.now
      && (s.runs[r].phase.Done? && !late ==> calledAt <= s.runs[r].phase.doneAt)
      && (s.runs[r].phase.Done? && late ==> calledAt - s.runs[r].phase.doneAt >= TTL_MS)
      && (s.runs[r].Active() ==> !late)
    case Returned(scope, r, calledAt, late, ids) =>
      && r in s.runs && s.runs[r].phase.Done? && s.runs[r].scope == scope
      && ids == Result(s.runs[r])
      && (late <==> calledAt - s.runs[r].phase.doneAt >= TTL_MS)
    case Threw => true
  }

  predicate FlightOk(s: System, k: Scope)
    requires k in s.svc.inFlight
  {
    var r := s.svc.inFlight[k];
    Unsettled(s, r) && s.runs[r].scope == k
  }

  predicate Inv(s: System) {
    && (forall r | r in s.runs :: RunOk(s, r) && PendingEntry(s, r))
    && (forall k | k in s.svc.inFlight :: FlightOk(s, k))
    && (forall k | k in s.svc.cache :: EntryOk(s, k, s.svc.cache[k]))
    && (forall c | c in s.calls :: CallOk(s, s.calls[c]))
  }

  lemma HitRunOk(s: System, c: Caller, scope: Scope, newRun: RunId, q: RunId)
    requires Inv(s) && Enabled(s, Call(c, scope, newRun)) && Begin(s.svc, scope, s.now, newRun).1.Hit?
    requires q in s.runs
    ensures var s' := StepCall(s, c, scope, newRun);
            q in s'.runs && Unsettled(s', q) == Unsettled(s, q) && RunOk(s', q) && PendingEntry(s', q)
  {
    hide Reportable, EntryOk, CallOk;
    assert RunOk(s, q) && PendingEntry(s, q);
  }

  lemma HitKeepsInv(s: System, c: Caller, scope: Scope, newRun: RunId)
    requires Inv(s) && Enabled(s, Call(c, scope, newRun)) && Begin(s.svc, scope, s.now, newRun).1.Hit?
    ensures Inv(StepCall(s, c, scope, newRun))
  {
    hide Reportable, RunOk, PendingEntry, Unsettled;
    var s' := StepCall(s, c, scope, newRun);
    assert EntryOk(s, scope, s.svc.cache[scope]);
    assert CallOk(s', s'.calls[c]);
    forall q | q in s'.runs ensures Unsettled(s', q) == Unsettled(s, q) && RunOk(s', q) && PendingEntry(s', q) {
      HitRunOk(s, c, scope, newRun, q);
    }
    forall k | k in s'.svc.inFlight ensures FlightOk(s', k) { FlightKnown(s, k); }
    forall k | k in s'.svc.cache ensures EntryOk(s', k, s'.svc.cache[k]) {
      assert EntryOk(s, k, s.svc.cache[k]);
    }
    forall d | d in s'.calls ensures CallOk(s', s'.calls[d]) {
      if d != c { assert CallOk(s, s.calls[d]); }
    }
  }

  lemma JoinRunOk(s: System, c: Caller, scope: Scope, newRun: RunId, q: RunId)
    requires Inv(s) && Enabled(s, Call(c, scope, newRun)) && Begin(s.svc, scope, s.now, newRun).1.Join?
    requires q in s.runs
    ensures var s' := StepCall(s, c, scope, newRun);
            q in s'.runs && Unsettled(s', q) == Unsettled(s, q) && RunOk(s', q) && PendingEntry(s', q)
  {
    hide Reportable, EntryOk, CallOk;
    assert RunOk(s, q) && PendingEntry(s, q);
  }

  lemma JoinCallOk(s: System, c: Caller, scope: Scope, newRun: RunId)
    requires Inv(s) && Enabled(s, Call(c, scope, newRun)) && Begin(s.svc, scope, s.now, newRun).1.Join?
    ensures var s' := StepCall(s, c, scope, newRun); CallOk(s', s'.calls[c])
  {
    hide Reportable;
    var r := s.svc.inFlight[scope];
    assert FlightOk(s, scope) && RunOk(s, r) && PendingEntry(s, r);
    assert scope in s.svc.cache ==> EntryOk(s, scope, s.svc.cache[scope]);
  }

  lemma JoinKeepsInv(s: System, c: Caller, scope: Scope, newRun: RunId)
    requires Inv(s) && Enabled(s, Call(c, scope, newRun)) && Begin(s.svc, scope, s.now, newRun).1.Join?
    ensures Inv(StepCall(s, c, scope, newRun))
  {
    hide Reportable, RunOk, PendingEntry, Unsettled;
    var s' := StepCall(s, c, scope, newRun);
    forall q | q in s'.runs ensures Unsettled(s', q) == Unsettled(s, q) && RunOk(s', q) && PendingEntry(s', q) {
      JoinRunOk(s, c, scope, newRun, q);
    }
    forall k | k in s'.svc.inFlight ensures FlightOk(s', k) { FlightKnown(s, k); }
    forall k | k in s'.svc.cache ensures EntryOk(s', k, s'.svc.cache[k]) {
      assert EntryOk(s, k, s.svc.cache[k]);
    }
    JoinCallOk(s, c, scope, newRun);
    forall d | d in s'.calls ensures CallOk(s', s'.calls[d]) {
      if d != c { assert CallOk(s, s.calls[d]); }
    }
  }

  lemma LaunchRunOk(s: System, c: Caller, scope: Scope, newRun: RunId, r: RunId)
    requires Inv(s) && Enabled(s, Call(c, scope, newRun)) && Begin(s.svc, scope, s.now, newRun).1.Launch?
    requires r in s.runs || r == newRun
    ensures var s' := StepCall(s, c, scope, newRun);
            && r in s'.runs && RunOk(s', r) && PendingEntry(s', r) && (r in s.runs ==> s'.runs[r] == s.runs[r])
            && (Unsettled(s', r) <==> r == newRun || Unsettled(s, r))
  {
    hide Reportable, EntryOk, CallOk;
    if r in s.runs { assert RunOk(s, r) && PendingEntry(s, r); }
  }

  lemma LaunchCallOk(s: System, c: Caller, scope: Scope, newRun: RunId, d: Caller)
    requires Inv(s) && Enabled(s, Call(c, scope, newRun)) && Begin(s.svc, scope, s.now, newRun).1.Launch?
    requires d in s.calls || d == c
    ensures var s' := StepCall(s, c, scope, newRun); d in s'.calls && CallOk(s', s'.calls[d])
  {
    hide Reportable, EntryOk, RunOk, PendingEntry;
    if d in s.calls { assert CallOk(s, s.calls[d]); }
  }

  lemma LaunchKeepsInv(s: System, c: Caller, scope: Scope, newRun: RunId)
    requires Inv(s) && Enabled(s, Call(c, scope, newRun)) && Begin(s.svc, scope, s.now, newRun).1.Launch?
    ensures Inv(StepCall(s, c, scope, newRun))
  {
    hide Reportable, RunOk, PendingEntry, CallOk, Unsettled;
    var s' := StepCall(s, c, scope, newRun);
    forall r | r in s'.runs
      ensures RunOk(s', r) && PendingEntry(s', r) && (Unsettled(s', r) <==> r == newRun || Unsettled(s, r))
    {
      LaunchRunOk(s, c, scope, newRun, r);
    }
    forall k | k in s'.svc.inFlight ensures FlightOk(s', k) {
      if k != scope { FlightKnown(s, k); }
      LaunchRunOk(s, c, scope, newRun, s'.svc.inFlight[k]);
    }
    forall k | k in s'.svc.cache ensures EntryOk(s', k, s'.svc.cache[k]) {
      assert EntryOk(s, k, s.svc.cache[k]);
    }
    forall d | d in s'.calls ensures CallOk(s', s'.calls[d]) { LaunchCallOk(s, c, scope, newRun, d); }
  }

  lemma PhaseRunOk(s: System, r: RunId, p: Phase, q: RunId)
    requires Inv(s) && r in s.runs && s.runs[r].Active() && q in s.runs
    requires p.Configured? || p.Failed? || (p.Read? && p.readAt == s.now)
    ensures var s' := s.(runs := SetPhase(s, r, p));
            Unsettled(s', q) == Unsettled(s, q) && RunOk(s', q) && PendingEntry(s', q)
  {
    hide Reportable, EntryOk, CallOk;
    assert RunOk(s, r) && RunOk(s, q) && PendingEntry(s, q);
  }

  /** A step of a query: it goes on, or fails. */
  lemma PhaseKeepsInv(s: System, r: RunId, p: Phase)
    requires Inv(s) && r in s.runs && s.runs[r].Active()
    requires p.Configured? || p.Failed? || (p.Read? && p.readAt == s.now)
    ensures Inv(s.(runs := SetPhase(s, r, p)))
  {
    hide Reportable, RunOk, PendingEntry, Unsettled;
    var s' := s.(runs := SetPhase(s, r, p));
    forall q | q in s'.runs ensures Unsettled(s', q) == Unsettled(s, q) && RunOk(s', q) && PendingEntry(s', q) {
      PhaseRunOk(s, r, p, q);
    }
    forall k | k in s'.svc.inFlight ensures FlightOk(s', k) { FlightKnown(s, k); }
    forall k | k in s'.svc.cache ensures EntryOk(s', k, s'.svc.cache[k]) {
      assert EntryOk(s, k, s.svc.cache[k]);
    }
    forall d | d in s'.calls ensures CallOk(s', s'.calls[d]) {
      assert CallOk(s, s.calls[d]);
    }
  }

  lemma FinishRunOk(s: System, r: RunId, q: RunId)
    requires Inv(s) && Enabled(s, Finish(r)) && q in s.runs
    ensures var s' := Step(s, Finish(r));
            Unsettled(s', q) == Unsettled(s, q) && RunOk(s', q) && PendingEntry(s', q)
  {
    hide Reportable, EntryOk, CallOk;
    assert RunOk(s, r) && RunOk(s, q) && PendingEntry(s, q);
  }

  lemma FinishCallOk(s: System, r: RunId, c: Caller)
    requires Inv(s) && Enabled(s, Finish(r)) && c in s.calls
    ensures CallOk(Step(s, Finish(r)), s.calls[c])
  {
    hide Reportable, EntryOk, RunOk, PendingEntry;
    assert CallOk(s, s.calls[c]);
  }

  lemma FinishEntryOk(s: System, r: RunId, k: Scope)
    requires Inv(s) && Enabled(s, Finish(r))
    ensures var s' := Step(s, Finish(r)); k in s'.svc.cache ==> EntryOk(s', k, s'.svc.cache[k])
  {
    hide Reportable, CallOk, RunOk, PendingEntry;
    if k != s.runs[r].scope && k in s.svc.cache { assert EntryOk(s, k, s.svc.cache[k]); }
  }

  lemma FinishKeepsInv(s: System, r: RunId)
    requires Inv(s) && Enabled(s, Finish(r))
    ensures Inv(Step(s, Finish(r)))
  {
    hide Reportable, RunOk, PendingEntry, EntryOk, CallOk, Unsettled;
    var s' := Step(s, Finish(r));
    forall q | q in s'.runs ensures Unsettled(s', q) == Unsettled(s, q) && RunOk(s', q) && PendingEntry(s', q) {
      FinishRunOk(s, r, q);
    }
    forall k | k in s'.svc.inFlight ensures FlightOk(s', k) { FlightKnown(s, k); }
    forall k | k in s'.svc.cache ensures EntryOk(s', k, s'.svc.cache[k]) { FinishEntryOk(s, r, k); }
    forall c | c in s'.calls ensures CallOk(s', s'.calls[c]) { FinishCallOk(s, r, c); }
  }

  lemma FlightKnown(s: System, k: Scope)
    requires Inv(s) && k in s.svc.inFlight
    ensures s.svc.inFlight[k] in s.runs && Unsettled(s, s.svc.inFlight[k]) && s.runs[s.svc.inFlight[k]].scope == k
  {
    assert FlightOk(s, k);
  }

  lemma ResumeRunOk(s: System, c: Caller, q: RunId)
    requires Inv(s) && Enabled(s, Resume(c)) && q in s.runs
    ensures var s' := StepResume(s, c);
            && RunOk(s', q) && PendingEntry(s', q)
            && (Unsettled(s', q) <==> Unsettled(s, q) && s.runs[q].owner != c)
  {
    hide Reportable, EntryOk;
    assert CallOk(s, s.calls[c]) && RunOk(s, s.calls[c].run) && RunOk(s, q) && PendingEntry(s, q);
  }

  lemma ResumeFlight(s: System, c: Caller, k: Scope)
    requires Inv(s) && Enabled(s, Resume(c)) && k in StepResume(s, c).svc.inFlight
    ensures FlightOk(StepResume(s, c), k)
  {
    hide Reportable, EntryOk, PendingEntry;
    assert FlightOk(s, k) && RunOk(s, s.svc.inFlight[k]) && RunOk(s, s.calls[c].run);
  }

  lemma ResumeKeepsInv(s: System, c: Caller)
    requires Inv(s) && Enabled(s, Resume(c))
    ensures Inv(StepResume(s, c))
  {
    hide Reportable, RunOk, PendingEntry, Unsettled;
    var s' := StepResume(s, c);
    var w := s.calls[c];
    assert CallOk(s, w);
    forall q | q in s'.runs ensures RunOk(s', q) && PendingEntry(s', q) { ResumeRunOk(s, c, q); }
    forall k | k in s'.svc.inFlight ensures FlightOk(s', k) { ResumeFlight(s, c, k); }
    forall k | k in s'.svc.cache ensures EntryOk(s', k, s'.svc.cache[k]) {
      assert EntryOk(s, k, s.svc.cache[k]);
    }
    forall d | d in s'.calls ensures CallOk(s', s'.calls[d]) {
      if d != c { assert CallOk(s, s.calls[d]); }
    }
  }

  lemma TickKeepsInv(s: System, now: int)
    requires Inv(s) && s.now <= now
    ensures Inv(s.(now := now))
  {
    hide Reportable;
    var s' := s.(now := now);
    forall q | q in s'.runs ensures Unsettled(s', q) == Unsettled(s, q) && RunOk(s', q) && PendingEntry(s', q) {
      assert RunOk(s, q) && PendingEntry(s, q);
    }
    forall k | k in s'.svc.inFlight ensures FlightOk(s', k) { FlightKnown(s, k); }
    forall k | k in s'.svc.cache ensures EntryOk(s', k, s'.svc.cache[k]) {
      assert EntryOk(s, k, s.svc.cache[k]);
    }
    forall d | d in s'.calls ensures CallOk(s', s'.calls[d]) {
      assert CallOk(s, s.calls[d]);
    }
  }

  lemma OutsideKeepsInv(s: System, db: Db, cfg: Thresholds)
    requires Inv(s)
    ensures Inv(s.(db := db, cfg := cfg))
  {
    hide Reportable;
    var s' := s.(db := db, cfg := cfg);
    forall q | q in s'.runs ensures Unsettled(s', q) == Unsettled(s, q) && RunOk(s', q) && PendingEntry(s', q) {
      assert RunOk(s, q) && PendingEntry(s, q);
    }
    forall k | k in s'.svc.inFlight ensures FlightOk(s', k) { FlightKnown(s, k); }
    forall k | k in s'.svc.cache ensures EntryOk(s', k, s'.svc.cache[k]) {
      assert EntryOk(s, k, s.svc.cache[k]);
    }
    forall d | d in s'.calls ensures CallOk(s', s'.calls[d]) {
      assert CallOk(s, s.calls[d]);
    }
  }

  lemma StepKeepsInv(s: System, a: Action)
    requires Inv(s) && Enabled(s, a)
    ensures Inv(Step(s, a))
  {
    hide Inv, Begin, StepCall, StepResume, Reportable;
    match a
    case Call(c, scope, newRun) =>
      match Begin(s.svc, scope, s.now, newRun).1 {
        case Hit(_) => HitKeepsInv(s, c, scope, newRun);
        case Join(_) => JoinKeepsInv(s, c, scope, newRun);
        case Launch(_) => LaunchKeepsInv(s, c, scope, newRun);
      }
    case Resume(c) => ResumeKeepsInv(s, c);
    case Finish(r) => FinishKeepsInv(s, r);
    case ReadConfig(r) => PhaseKeepsInv(s, r, Configured(s.cfg));
    case ReadRows(r) => PhaseKeepsInv(s, r, Read(s.runs[r].phase.cfg, s.db, s.now));
    case Fail(r) => PhaseKeepsInv(s, r, Failed);
    case Tick(now) => TickKeepsInv(s, now);
    case ChangeDb(db) => OutsideKeepsInv(s, db, s.cfg);
    case ChangeConfig(cfg) => OutsideKeepsInv(s, s.db, cfg);
  }

  lemma {:induction false} ExecKeepsInv(s: System, actions: seq<Action>)
    requires Inv(s) && Exec(s, actions).Some?
    ensures Inv(Exec(s, actions).value)
    decreases |actions|
  {
    if actions != [] {
      hide Inv, Step, Enabled;
      StepKeepsInv(s, actions[0]);
      ExecKeepsInv(Step(s, actions[0]), actions[1..]);
    }
  }

  // ----- what every interleaving guarantees --------------------------------------------------------

  /**
   Single flight: in every interleaving at most one query runs per scope; the entry a launcher is about to
   delete is its own; and an entry left in the map always has a launcher that will still delete it, so a
   failed query leaves nothing stuck.
   */
  lemma SingleFlight(db: Db, cfg: Thresholds, t0: int, actions: seq<Action>)
    requires Exec(Initial(db, cfg, t0), actions).Some?
    ensures var s := Exec(Initial(db, cfg, t0), actions).value;
            && (forall q, r | q in s.runs && r in s.runs && s.runs[q].Active() && s.runs[r].Active() ::
                  s.runs[q].scope == s.runs[r].scope ==> q == r)
            && (forall c | Enabled(s, Resume(c)) && s.runs[s.calls[c].run].owner == c ::
                  s.calls[c].scope in s.svc.inFlight && s.svc.inFlight[s.calls[c].scope] == s.calls[c].run)
            && (forall k | k in s.svc.inFlight :: Unsettled(s, s.svc.inFlight[k]))
  {
    ExecKeepsInv(Initial(db, cfg, t0), actions);
    var s := Exec(Initial(db, cfg, t0), actions).value;
    hide Exec, Reportable;
    forall q, r | q in s.runs && r in s.runs && s.runs[q].Active() && s.runs[r].Active()
        && s.runs[q].scope == s.runs[r].scope
      ensures q == r
    {
      assert RunOk(s, q) && RunOk(s, r);
    }
    forall c | Enabled(s, Resume(c)) && s.runs[s.calls[c].run].owner == c
      ensures s.calls[c].scope in s.svc.inFlight && s.svc.inFlight[s.calls[c].scope] == s.calls[c].run
    {
      assert RunOk(s, s.calls[c].run) && CallOk(s, s.calls[c]);
    }
    forall k | k in s.svc.inFlight ensures Unsettled(s, s.svc.inFlight[k]) { FlightKnown(s, k); }
  }

  /** Once every caller has been resumed, no entry is left and the next call with no fresh memo queries anew. */
  lemma NothingStuck(db: Db, cfg: Thresholds, t0: int, actions: seq<Action>)
    requires Exec(Initial(db, cfg, t0), actions).Some?
    requires var s := Exec(Initial(db, cfg, t0), actions).value; forall c | c in s.calls :: !s.calls[c].Waiting?
    ensures Exec(Initial(db, cfg, t0), actions).value.svc.inFlight == map[]
  {
    SingleFlight(db, cfg, t0, actions);
    hide Exec;
  }

  /**
   Refinement of the plain scan: every returned set is the result of the threshold query on one database
   snapshot, read while that query ran. The query had finished less than 60 s before the call - so the
   snapshot is younger than 60 s plus the query's duration - exactly when the caller did not join a query
   that was already done and whose launcher had not run for 60 s since.
   */
  lemma ReturnedSetIsRecentScan(db: Db, cfg: Thresholds, t0: int, actions: seq<Action>, c: Caller)
    requires Exec(Initial(db, cfg, t0), actions).Some?
    requires var s := Exec(Initial(db, cfg, t0), actions).value; c in s.calls && s.calls[c].Returned?
    ensures var s := Exec(Initial(db, cfg, t0), actions).value;
            var r := s.calls[c];
            && r.run in s.runs && s.runs[r.run].phase.Done? && s.runs[r.run].scope == r.scope
            && var q, p := s.runs[r.run], s.runs[r.run].phase;
               && r.ids == Reportable(p.snapshot, p.cfg, r.scope)
               && q.startedAt <= p.readAt <= p.doneAt <= s.now
               && (!r.late <==> r.calledAt - p.doneAt < 60_000)
               && (!r.late ==> r.calledAt - p.readAt < 60_000 + (p.doneAt - q.startedAt))
  {
    ExecKeepsInv(Initial(db, cfg, t0), actions);
    var s := Exec(Initial(db, cfg, t0), actions).value;
    hide Exec, Reportable;
    assert CallOk(s, s.calls[c]);
    assert RunOk(s, s.calls[c].run);
  }

  // ----- while the process runs ----------------------------------------------------------------------

  /** The launcher of a finished query is the first to be resumed: no time passes before that. */
  predicate Prompt(s: System, a: Action) {
    a.Tick? ==> forall r | r in s.runs && s.runs[r].phase.Done? :: !Unsettled(s, r)
  }

  predicate PromptRun(s: System, actions: seq<Action>)
    decreases |actions|
  {
    actions == [] ||
    (Prompt(s, actions[0]) && (Enabled(s, actions[0]) ==> PromptRun(Step(s, actions[0]), actions[1..])))
  }

  /** A query done but not settled was done just now; who waits for a query joined after its end waits for a
      failed one; and nobody was handed a set by a query joined after its end. */
  predicate Timely(s: System) {
    && (forall r | r in s.runs && s.runs[r].phase.Done? && Unsettled(s, r) :: s.runs[r].phase.doneAt == s.now)
    && (forall c | c in s.calls && s.calls[c].Waiting? && s.calls[c].late ::
          s.calls[c].run in s.runs && s.runs[s.calls[c].run].phase.Failed?)
    && (forall c | c in s.calls && s.calls[c].Returned? :: !s.calls[c].late)
  }

  /** A query found in the map after its end has failed: a finished one would have left a fresh memo. */
  lemma JoinedLateFailed(s: System, scope: Scope, newRun: RunId)
    requires Inv(s) && Timely(s) && Begin(s.svc, scope, s.now, newRun).1.Join?
    ensures var r := s.svc.inFlight[scope]; r in s.runs && (s.runs[r].Active() || s.runs[r].phase.Failed?)
  {
    hide Reportable;
    var r := s.svc.inFlight[scope];
    FlightKnown(s, scope);
    assert RunOk(s, r) && PendingEntry(s, r);
    assert scope in s.svc.cache ==> EntryOk(s, scope, s.svc.cache[scope]);
  }

  /** A new caller is no launcher of an earlier query. */
  lemma CallUnsettles(s: System, c: Caller, scope: Scope, newRun: RunId)
    requires Inv(s) && Enabled(s, Call(c, scope, newRun))
    ensures forall r | r in s.runs :: Unsettled(StepCall(s, c, scope, newRun), r) == Unsettled(s, r)
  {
    hide Reportable;
    forall r | r in s.runs ensures Unsettled(StepCall(s, c, scope, newRun), r) == Unsettled(s, r) {
      assert RunOk(s, r);
    }
  }

  /** What a call leaves: itself - not handed an old set - and at most one query more, just started. */
  lemma CallShape(s: System, c: Caller, scope: Scope, newRun: RunId)
    requires Inv(s) && Timely(s) && Enabled(s, Call(c, scope, newRun))
    ensures var s' := StepCall(s, c, scope, newRun);
            && s'.now == s.now && c in s'.calls && s'.calls == s.calls[c := s'.calls[c]]
            && (forall r | r in s.runs :: r in s'.runs && s'.runs[r] == s.runs[r])
            && (forall r | r in s'.runs && r !in s.runs :: s'.runs[r].phase.Started?)
            && (s'.calls[c].Returned? ==> !s'.calls[c].late)
            && (s'.calls[c].Waiting? && s'.calls[c].late ==>
                  s'.calls[c].run in s'.runs && s'.runs[s'.calls[c].run].phase.Failed?)
  {
    if Begin(s.svc, scope, s.now, newRun).1.Join? { JoinedLateFailed(s, scope, newRun); }
    hide Reportable, Inv, Timely;
  }

  lemma CallKeepsTimely(s: System, c: Caller, scope: Scope, newRun: RunId)
    requires Inv(s) && Timely(s) && Enabled(s, Call(c, scope, newRun))
    ensures Timely(StepCall(s, c, scope, newRun))
  {
    CallUnsettles(s, c, scope, newRun);
    CallShape(s, c, scope, newRun);
    hide Reportable, Inv, Unsettled, StepCall;
  }

  lemma ResumeKeepsTimely(s: System, c: Caller)
    requires Inv(s) && Timely(s) && Enabled(s, Resume(c))
    ensures Timely(StepResume(s, c))
  {
    hide Reportable;
    var s' := StepResume(s, c);
    forall r | r in s'.runs && Unsettled(s', r) ensures Unsettled(s, r) {
      assert RunOk(s, r);
    }
  }

  /** A query goes on, finishes now, or fails. */
  lemma PhaseKeepsTimely(s: System, r: RunId, p: Phase, svc: Svc)
    requires Timely(s) && r in s.runs && s.runs[r].Active() && (p.Done? ==> p.doneAt == s.now)
    ensures Timely(s.(svc := svc, runs := SetPhase(s, r, p)))
  {
    hide Reportable;
    var s' := s.(svc := svc, runs := SetPhase(s, r, p));
    forall q | q in s'.runs ensures Unsettled(s', q) == Unsettled(s, q) {}
  }

  lemma TickKeepsTimely(s: System, now: int)
    requires Timely(s) && Prompt(s, Tick(now))
    ensures Timely(s.(now := now))
  {
    var s' := s.(now := now);
    forall q | q in s'.runs ensures Unsettled(s', q) == Unsettled(s, q) {}
  }

  lemma OutsideKeepsTimely(s: System, db: Db, cfg: Thresholds)
    requires Timely(s)
    ensures Timely(s.(db := db)) && Timely(s.(cfg := cfg))
  {
    var s', s'' := s.(db := db), s.(cfg := cfg);
    forall q | q in s.runs ensures Unsettled(s', q) == Unsettled(s, q) && Unsettled(s'', q) == Unsettled(s, q) {}
  }

  lemma StepKeepsTimely(s: System, a: Action)
    requires Inv(s) && Timely(s) && Enabled(s, a) && Prompt(s, a)
    ensures Timely(Step(s, a))
  {
    hide Reportable, Inv, Timely, Prompt;
    match a
    case Call(c, scope, newRun) => CallKeepsTimely(s, c, scope, newRun);
    case Resume(c) => ResumeKeepsTimely(s, c);
    case ReadConfig(r) => PhaseKeepsTimely(s, r, Configured(s.cfg), s.svc);
    case ReadRows(r) => PhaseKeepsTimely(s, r, Read(s.runs[r].phase.cfg, s.db, s.now), s.svc);
    case Finish(r) => PhaseKeepsTimely(s, r, Step(s, a).runs[r].phase, Step(s, a).svc);
    case Fail(r) => PhaseKeepsTimely(s, r, Failed, s.svc);
    case Tick(now) => TickKeepsTimely(s, now);
    case ChangeDb(db) => OutsideKeepsTimely(s, db, s.cfg);
    case ChangeConfig(cfg) => OutsideKeepsTimely(s, s.db, cfg);
  }

  lemma {:induction false} PromptRunTimely(s: System, actions: seq<Action>)
    requires Inv(s) && Timely(s) && Exec(s, actions).Some? && PromptRun(s, actions)
    ensures Timely(Exec(s, actions).value)
    decreases |actions|
  {
    if actions != [] {
      hide Inv, Step, Enabled, Prompt, Timely;
      StepKeepsInv(s, actions[0]);
      StepKeepsTimely(s, actions[0]);
      PromptRunTimely(Step(s, actions[0]), actions[1..]);
    }
  }

  /**
   As long as launchers are resumed at once, no set is old: in every such interleaving the query behind a
   returned set had finished less than 60 s before the call, on a snapshot younger than that plus its duration.
   */
  lemma PromptRunsReturnRecentSets(db: Db, cfg: Thresholds, t0: int, actions: seq<Action>, c: Caller)
    requires Exec(Initial(db, cfg, t0), actions).Some? && PromptRun(Initial(db, cfg, t0), actions)
    requires var s := Exec(Initial(db, cfg, t0), actions).value; c in s.calls && s.calls[c].Returned?
    ensures var s := Exec(Initial(db, cfg, t0), actions).value;
            var r := s.calls[c];
            && r.run in s.runs && s.runs[r.run].phase.Done?
            && var q, p := s.runs[r.run], s.runs[r.run].phase;
               && r.ids == Reportable(p.snapshot, p.cfg, r.scope)
               && r.calledAt - p.doneAt < 60_000
               && r.calledAt - p.readAt < 60_000 + (p.doneAt - q.startedAt)
  {
    ReturnedSetIsRecentScan(db, cfg, t0, actions, c);
    PromptRunTimely(Initial(db, cfg, t0), actions);
    hide Exec, PromptRun, Reportable;
  }

  /** The other runs: the clock jumps, or the process is suspended, between a query's end and its launcher. */
  const LATE_RUN: seq<Action> := [
    Call(0, None, 0), ReadConfig(0), ReadRows(0), Finish(0), Tick(TTL_MS), Call(1, None, 1), Resume(1)]

  lemma ExecStep(s: System, a: Action, rest: seq<Action>)
    requires Enabled(s, a)
    ensures Exec(s, [a] + rest) == Exec(Step(s, a), rest)
  {
    assert ([a] + rest)[1..] == rest;
  }

  /** The first five steps leave a query that ended a full minute ago, its launcher still waiting. */
  lemma LateStart(db: Db, cfg: Thresholds) returns (s: System)
    ensures Exec(Initial(db, cfg, 0), LATE_RUN) == Exec(s, LATE_RUN[5..])
    ensures s == System(Svc(map[None := Entry(0, Reportable(db, cfg, None), 0)], map[None := 0]),
                        map[0 := Run(None, 0, 0, Done(cfg, db, 0, 0))], map[0 := Waiting(None, 0, 0, false)],
                        db, cfg, TTL_MS)
  {
    hide Reportable, Exec;
    var s0 := Initial(db, cfg, 0);
    var s1 := Step(s0, LATE_RUN[0]);
    var s2 := Step(s1, LATE_RUN[1]);
    var s3 := Step(s2, LATE_RUN[2]);
    var s4 := Step(s3, LATE_RUN[3]);
    s := Step(s4, LATE_RUN[4]);
    ExecStep(s0, LATE_RUN[0], LATE_RUN[1..]);
    ExecStep(s1, LATE_RUN[1], LATE_RUN[2..]);
    ExecStep(s2, LATE_RUN[2], LATE_RUN[3..]);
    ExecStep(s3, LATE_RUN[3], LATE_RUN[4..]);
    ExecStep(s4, LATE_RUN[4], LATE_RUN[5..]);
    LateRunInOrder();
  }

  lemma LateRunInOrder()
    ensures LATE_RUN == [LATE_RUN[0]] + LATE_RUN[1..] && LATE_RUN[1..] == [LATE_RUN[1]] + LATE_RUN[2..]
    ensures LATE_RUN[2..] == [LATE_RUN[2]] + LATE_RUN[3..] && LATE_RUN[3..] == [LATE_RUN[3]] + LATE_RUN[4..]
    ensures LATE_RUN[4..] == [LATE_RUN[4]] + LATE_RUN[5..] && LATE_RUN[5..] == [LATE_RUN[5]] + ([LATE_RUN[6]] + [])
  {
  }

  /** Then a caller may get a set whose query finished a full 60 s before the call. */
  lemma LateCallerGetsOldSet(db: Db, cfg: Thresholds)
    ensures Exec(Initial(db, cfg, 0), LATE_RUN).Some?
    ensures var s := Exec(Initial(db, cfg, 0), LATE_RUN).value;
            1 in s.calls && s.calls[1].Returned? && s.calls[1].late
  {
    hide Reportable, Exec;
    var s5 := LateStart(db, cfg);
    var s6 := Step(s5, LATE_RUN[5]);
    var s7 := Step(s6, LATE_RUN[6]);
    LateRunInOrder();
    ExecStep(s5, LATE_RUN[5], [LATE_RUN[6]] + []);
    ExecStep(s6, LATE_RUN[6], []);
    ExecNothing(s7);
  }

  lemma ExecNothing(s: System)
    ensures Exec(s, []) == Some(s)
  {
  }

  // ----- what a call does at once --------------------------------------------------------------------

  /**
   A call is answered from the memo if that is less than 60 s old, and then queries nothing; else it waits for the
   query of its scope that is under way; else it launches one, and every other scope is left alone.
   */
  lemma CallAnswered(s: System, c: Caller, scope: Scope, newRun: RunId)
    requires Enabled(s, Call(c, scope, newRun))
    ensures var z := Step(s, Call(c, scope, newRun));
            && z.svc.cache == s.svc.cache && z.db == s.db && z.cfg == s.cfg && z.now == s.now
            && (forall d | d in s.calls :: d in z.calls && z.calls[d] == s.calls[d])
            && z.calls.Keys == s.calls.Keys + {c}
            && if scope in s.svc.cache && s.now < s.svc.cache[scope].at + 60_000 then
                 && z.svc.inFlight == s.svc.inFlight && z.runs == s.runs
                 && z.calls[c] == Returned(scope, s.svc.cache[scope].run, s.now, false, s.svc.cache[scope].ids)
               else if scope in s.svc.inFlight then
                 && z.svc.inFlight == s.svc.inFlight && z.runs == s.runs
                 && z.calls[c].Waiting? && z.calls[c].scope == scope && z.calls[c].run == s.svc.inFlight[scope]
                 && z.calls[c].calledAt == s.now
               else
                 && z.svc.inFlight == s.svc.inFlight[scope := newRun]
                 && z.runs == s.runs[newRun := Run(scope, c, s.now, Started)]
                 && z.calls[c] == Waiting(scope, newRun, s.now, false)
  {
  }

  /** A query that ends well stores its set under its scope, with the time; and only that. */
  lemma FinishAnswered(s: System, r: RunId)
    requires Enabled(s, Finish(r))
    ensures var z, run := Step(s, Finish(r)), s.runs[r];
            && z.svc.inFlight == s.svc.inFlight && z.calls == s.calls && z.runs.Keys == s.runs.Keys
            && (forall q | q in s.runs && q != r :: z.runs[q] == s.runs[q])
            && z.runs[r] == run.(phase := Done(run.phase.cfg, run.phase.snapshot, run.phase.readAt, s.now))
            && z.svc.cache == s.svc.cache[run.scope :=
                 Entry(s.now, Reportable(run.phase.snapshot, run.phase.cfg, run.scope), r)]
  {
    hide Reportable;
  }

  /** A resumed caller gets its query's set, or its error; the launcher clears the entry of its scope alone. */
  lemma ResumeAnswered(s: System, c: Caller)
    requires Inv(s) && Enabled(s, Resume(c))
    ensures var z, w := Step(s, Resume(c)), s.calls[c];
            var run := s.runs[w.run];
            && z.svc.cache == s.svc.cache && z.runs == s.runs && z.calls.Keys == s.calls.Keys
            && (forall d | d in s.calls && d != c :: z.calls[d] == s.calls[d])
            && (run.phase.Failed? ==> z.calls[c] == Threw)
            && (run.phase.Done? ==>
                  z.calls[c].Returned? && z.calls[c].run == w.run
                  && z.calls[c].ids == Reportable(run.phase.snapshot, run.phase.cfg, w.scope))
            && z.svc.inFlight == if run.owner == c then s.svc.inFlight - {w.scope} else s.svc.inFlight
  {
    hide Reportable;
    assert CallOk(s, s.calls[c]);
  }
}
