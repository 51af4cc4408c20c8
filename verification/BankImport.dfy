/**
 The bank-filing importer: rows of a batch find or create their taxpayer concurrently, against unique
 indexes, then write one data record each; a tagged batch first clears its own earlier records.
 Every database call is one atomic step.
 */
module BankImport {
  import opened Wrappers

  type Id = nat

  /** The usable blind indexes of a filing row or a taxpayer, and the company number. */
  datatype Identity = Identity(bvn: Option<string>, tin: Option<string>, nin: Option<string>, rc: Option<string>)

  datatype Filing = Filing(who: Identity, submission: string, opening: bool, amount: int)

  /** A data record; what a filing row writes apart from the taxpayer link is in `submission` to `batch`. */
  datatype Record = Record(submission: string, kindOpened: bool, inflow: int, count: int, batch: Option<string>,
                           link: Option<Id>)

  /** The identifiers in the order the script looks them up: BVN, TIN, NIN. */
  function Key(who: Identity, k: nat): Option<string>
    requires k < 3
  {
    if k == 0 then who.bvn else if k == 1 then who.tin else who.nin
  }

  predicate SharesKey(a: Identity, b: Identity, k: nat)
    requires k < 3
  {
    Key(a, k).Some? && Key(a, k) == Key(b, k)
  }

  predicate Shares(a: Identity, b: Identity) {
    SharesKey(a, b, 0) || SharesKey(a, b, 1) || SharesKey(a, b, 2)
  }

  predicate HasKey(who: Identity) {
    who.bvn.Some? || who.tin.Some? || who.nin.Some?
  }

  /** A unique index would refuse the second of two such taxpayers. */
  predicate Conflicts(a: Identity, b: Identity) {
    Shares(a, b) || (a.rc.Some? && a.rc == b.rc)
  }

  type Taxpayers = map<Id, Identity>

  predicate UniqueIndexes(ts: Taxpayers) {
    forall s, t | s in ts && t in ts && s != t :: !Conflicts(ts[s], ts[t])
  }

  /** Why a row ended without a taxpayer. */
  datatype Cause = Found | Created | CompanyNumberTaken | DatabaseError

  /** Where a row's chain of awaits stands. `shared` remembers whether the refused create clashed on an
      identifier, or on the company number alone. */
  datatype Phase =
    | Seek(k: nat)
    | Creating
    | Reseek(k: nat, shared: bool)
    | Linked(link: Option<Id>, cause: Cause)
    | Written(link: Option<Id>, cause: Cause)
    | Skipped

  datatype Worker = Worker(row: Filing, phase: Phase)

  datatype State = State(taxpayers: Taxpayers, workers: seq<Worker>, records: seq<Record>, batch: Option<string>)

  datatype Action =
    | Find(i: nat)
    | Create(i: nat, id: Id)
    | CreateError(i: nat)  // the create fails for another reason than a unique index
    | Write(i: nat)
    | Fail(i: nat)  // a lookup or the record write throws: the row is skipped
    | Other(id: Id, who: Identity)  // some other writer adds a taxpayer

  predicate Match(ts: Taxpayers, t: Id, who: Identity, k: nat)
    requires k < 3
  {
    t in ts && SharesKey(who, ts[t], k)
  }

  predicate Enabled(s: State, a: Action) {
    match a
    case Find(i) =>
      i < |s.workers| && (s.workers[i].phase.Seek? || s.workers[i].phase.Reseek?) && s.workers[i].phase.k < 3
    case Create(i, id) => i < |s.workers| && s.workers[i].phase.Creating? && id !in s.taxpayers
    case CreateError(i) => i < |s.workers| && s.workers[i].phase.Creating?
    case Write(i) => i < |s.workers| && s.workers[i].phase.Linked?
    case Fail(i) =>
      i < |s.workers| && (s.workers[i].phase.Seek? || s.workers[i].phase.Reseek? || s.workers[i].phase.Linked?)
    case Other(id, who) => id !in s.taxpayers && forall t | t in s.taxpayers :: !Conflicts(who, s.taxpayers[t])
  }

  function RecordOf(row: Filing, batch: Option<string>, link: Option<Id>): Record {
    Record(row.submission, row.opening, if row.opening then 0 else row.amount,
           if row.opening then 0 else 1, batch, link)
  }

  /** What the phase becomes when a lookup finds nothing. */
  function NextPhase(p: Phase): Phase
    requires p.Seek? || p.Reseek?
  {
    match p
    case Seek(k) => if k < 2 then Seek(k + 1) else Creating
    case Reseek(k, shared) => if k < 2 then Reseek(k + 1, shared) else Linked(None, CompanyNumberTaken)
  }

  function SetPhase(s: State, i: nat, p: Phase): State
    requires i < |s.workers|
  {
    s.(workers := s.workers[i := s.workers[i].(phase := p)])
  }

  /** A unique index refuses the new taxpayer. */
  ghost predicate Refused(ts: Taxpayers, who: Identity) {
    exists t :: t in ts && Conflicts(who, ts[t])
  }

  /** Some taxpayer shares an identifier. */
  ghost predicate Known(ts: Taxpayers, who: Identity) {
    exists t :: t in ts && Shares(who, ts[t])
  }

  ghost function Step(s: State, a: Action): State
    requires Enabled(s, a)
  {
    match a
    case Find(i) =>
      var w := s.workers[i];
      if exists t :: Match(s.taxpayers, t, w.row.who, w.phase.k) then
        var t :| Match(s.taxpayers, t, w.row.who, w.phase.k);
        SetPhase(s, i, Linked(Some(t), Found))
      else SetPhase(s, i, NextPhase(w.phase))
    case Create(i, id) =>
      var who := s.workers[i].row.who;
      if Refused(s.taxpayers, who) then SetPhase(s, i, Reseek(0, Known(s.taxpayers, who)))
      else SetPhase(s, i, Linked(Some(id), Created)).(taxpayers := s.taxpayers[id := who])
    case CreateError(i) => SetPhase(s, i, Linked(None, DatabaseError))
    case Write(i) =>
      var w := s.workers[i];
      SetPhase(s, i, Written(w.phase.link, w.phase.cause)).(
        records := s.records + [RecordOf(w.row, s.batch, w.phase.link)])
    case Fail(i) => SetPhase(s, i, Skipped)
    case Other(id, who) => s.(taxpayers := s.taxpayers[id := who])
  }

  ghost function Exec(s: State, actions: seq<Action>): Option<State>
    decreases |actions|
  {
    if actions == [] then Some(s)
    else if Enabled(s, actions[0]) then Exec(Step(s, actions[0]), actions[1..])
    else None
  }

  function Start(taxpayers: Taxpayers, rows: seq<Filing>, records: seq<Record>, batch: Option<string>): State {
    State(taxpayers, seq(|rows|, i requires 0 <= i < |rows| => Worker(rows[i], Seek(0))), records, batch)
  }

  // ----- no lost link --------------------------------------------------------------------------

  /** A taxpayer matches one of the lookups still to come. */
  ghost predicate StillThere(ts: Taxpayers, who: Identity, k: nat) {
    exists t, j :: k <= j < 3 && Match(ts, t, who, j)
  }

  ghost predicate NumberTaken(ts: Taxpayers, who: Identity) {
    who.rc.Some? && exists t :: t in ts && ts[t].rc == who.rc
  }

  ghost predicate LinkOk(ts: Taxpayers, who: Identity, link: Option<Id>, cause: Cause) {
    match cause
    case Found => link.Some? && link.value in ts && Shares(who, ts[link.value])
    case Created => link.Some? && link.value in ts && ts[link.value] == who
    case CompanyNumberTaken => link.None? && NumberTaken(ts, who)
    case DatabaseError => link.None?
  }

  ghost predicate WorkerOk(ts: Taxpayers, w: Worker) {
    match w.phase
    case Seek(k) => k < 3
    case Reseek(k, shared) =>
      k < 3 && (shared ==> StillThere(ts, w.row.who, k)) && (!shared ==> NumberTaken(ts, w.row.who))
    case Linked(link, cause) => LinkOk(ts, w.row.who, link, cause)
    case Written(link, cause) => LinkOk(ts, w.row.who, link, cause)
    case _ => true
  }

  ghost predicate Inv(s: State) {
    UniqueIndexes(s.taxpayers) && forall i | 0 <= i < |s.workers| :: WorkerOk(s.taxpayers, s.workers[i])
  }

  /** Taxpayers are only ever added. */
  ghost predicate Grows(a: Taxpayers, b: Taxpayers) {
    forall t | t in a :: t in b && b[t] == a[t]
  }

  lemma WorkerOkGrows(a: Taxpayers, b: Taxpayers, w: Worker)
    requires WorkerOk(a, w) && Grows(a, b)
    ensures WorkerOk(b, w)
  {
    if w.phase.Reseek? && w.phase.shared {
      var t, j :| w.phase.k <= j < 3 && Match(a, t, w.row.who, j);
      assert Match(b, t, w.row.who, j);
    }
  }

  lemma FindKeepsOk(s: State, i: nat)
    requires Inv(s) && Enabled(s, Find(i))
    ensures WorkerOk(s.taxpayers, Step(s, Find(i)).workers[i])
  {
    var w := s.workers[i];
    assert WorkerOk(s.taxpayers, w);
    if !(exists t :: Match(s.taxpayers, t, w.row.who, w.phase.k)) && w.phase.Reseek? && w.phase.shared {
      var t, j :| w.phase.k <= j < 3 && Match(s.taxpayers, t, w.row.who, j);
      assert j != w.phase.k;
    }
  }

  lemma AddKeepsUnique(ts: Taxpayers, id: Id, who: Identity)
    requires UniqueIndexes(ts) && id !in ts && forall t | t in ts :: !Conflicts(who, ts[t])
    ensures UniqueIndexes(ts[id := who]) && Grows(ts, ts[id := who])
  {
    hide Conflicts;
    forall t: Id | t in ts ensures !Conflicts(ts[t], who) { ConflictsBothWays(ts[t], who); }
  }

  lemma ConflictsBothWays(a: Identity, b: Identity)
    ensures Conflicts(a, b) == Conflicts(b, a)
  {
  }

  /** A refused create clashed on an identifier, and then a lookup can find it, or on the company number. */
  lemma RefusedFindable(ts: Taxpayers, who: Identity)
    requires Refused(ts, who)
    ensures if Known(ts, who) then StillThere(ts, who, 0) else NumberTaken(ts, who)
  {
    if Known(ts, who) {
      var t :| t in ts && Shares(who, ts[t]);
      assert Match(ts, t, who, 0) || Match(ts, t, who, 1) || Match(ts, t, who, 2);
    }
  }

  lemma CreateKeepsOk(s: State, i: nat, id: Id)
    requires Inv(s) && Enabled(s, Create(i, id))
    ensures var s' := Step(s, Create(i, id));
            && UniqueIndexes(s'.taxpayers) && Grows(s.taxpayers, s'.taxpayers)
            && WorkerOk(s'.taxpayers, s'.workers[i])
  {
    var who := s.workers[i].row.who;
    if Refused(s.taxpayers, who) {
      RefusedFindable(s.taxpayers, who);
    } else {
      AddKeepsUnique(s.taxpayers, id, who);
    }
    hide Conflicts, Shares, UniqueIndexes, Refused, Known, StillThere, NumberTaken;
  }

  /** The worker that acts stays in order, and the indexes stay unique. */
  lemma ActorKeepsOk(s: State, a: Action)
    requires Inv(s) && Enabled(s, a)
    ensures var s' := Step(s, a);
            && UniqueIndexes(s'.taxpayers) && Grows(s.taxpayers, s'.taxpayers) && |s'.workers| == |s.workers|
            && (!a.Other? ==> WorkerOk(s'.taxpayers, s'.workers[a.i]))
  {
    match a {
      case Find(i) => FindKeepsOk(s, i);
      case Create(i, id) => CreateKeepsOk(s, i, id);
      case Other(id, who) => AddKeepsUnique(s.taxpayers, id, who);
      case _ => hide Refused, Known, UniqueIndexes;
    }
  }

  lemma OthersStay(s: State, a: Action)
    requires Enabled(s, a)
    ensures |Step(s, a).workers| == |s.workers|
    ensures forall i: nat | i < |s.workers| :: Step(s, a).workers[i].row == s.workers[i].row
    ensures forall i: nat | i < |s.workers| && (a.Other? || i != a.i) :: Step(s, a).workers[i] == s.workers[i]
  {
    hide Refused, Known, Match;
  }

  lemma StepKeepsInv(s: State, a: Action)
    requires Inv(s) && Enabled(s, a)
    ensures Inv(Step(s, a)) && Grows(s.taxpayers, Step(s, a).taxpayers)
    ensures |Step(s, a).workers| == |s.workers|
    ensures forall i | 0 <= i < |s.workers| :: Step(s, a).workers[i].row == s.workers[i].row
  {
    ActorKeepsOk(s, a);
    OthersStay(s, a);
    var s' := Step(s, a);
    hide Step, Enabled, WorkerOk, UniqueIndexes, Grows;
    forall i | 0 <= i < |s'.workers| ensures WorkerOk(s'.taxpayers, s'.workers[i]) {
      if a.Other? || i != a.i {
        assert WorkerOk(s.taxpayers, s.workers[i]);
        WorkerOkGrows(s.taxpayers, s'.taxpayers, s.workers[i]);
      }
    }
  }

  lemma {:induction false} ExecKeepsInv(s: State, actions: seq<Action>)
    requires Inv(s) && Exec(s, actions).Some?
    ensures var e := Exec(s, actions).value;
            && Inv(e) && Grows(s.taxpayers, e.taxpayers) && |e.workers| == |s.workers|
            && forall i | 0 <= i < |s.workers| :: e.workers[i].row == s.workers[i].row
    decreases |actions|
  {
    if actions != [] {
      hide Inv, Step, Enabled;
      StepKeepsInv(s, actions[0]);
      ExecKeepsInv(Step(s, actions[0]), actions[1..]);
    }
  }
}
