/**
 When a filing row of the bank importer ends without a taxpayer, exactly, over every interleaving.
 */
module LostLinks {
  import opened Wrappers
  import opened BankImport

  // ----- when a link is lost ---------------------------------------------------------------------

  /** Action `c` is worker `i`'s create, refused for the company number alone: nobody shares an identifier yet. */
  ghost predicate ClashedOnNumber(s: State, actions: seq<Action>, i: nat, c: nat, who: Identity) {
    && IsCreate(actions, i, c)
    && var e := Exec(s, actions[..c]);
       e.Some? && Refused(e.value.taxpayers, who) && !Known(e.value.taxpayers, who)
  }

  predicate IsCreate(actions: seq<Action>, i: nat, c: nat) {
    c < |actions| && actions[c].Create? && actions[c].i == i
  }

  /** Worker `i`'s next lookup would find somebody. */
  ghost predicate WouldFind(s: State, i: nat) {
    && i < |s.workers| && (s.workers[i].phase.Seek? || s.workers[i].phase.Reseek?) && s.workers[i].phase.k < 3
    && exists t :: Match(s.taxpayers, t, s.workers[i].row.who, s.workers[i].phase.k)
  }

  /** No lookup of worker `i` after action `c` finds anybody. */
  ghost predicate MissedAfter(s: State, actions: seq<Action>, i: nat, c: nat) {
    forall m | c < m < |actions| && actions[m] == Find(i) :: MissedAt(s, actions, i, m)
  }

  ghost predicate MissedAt(s: State, actions: seq<Action>, i: nat, m: nat)
    requires m <= |actions|
  {
    var e := Exec(s, actions[..m]); e.Some? && !WouldFind(e.value, i)
  }

  ghost predicate LostToNumber(s: State, actions: seq<Action>, i: nat, who: Identity) {
    exists c: nat :: ClashedOnNumber(s, actions, i, c, who) && MissedAfter(s, actions, i, c)
  }

  /** Only action `c` is a create of worker `i`. */
  ghost predicate OnlyCreate(actions: seq<Action>, i: nat, c: nat) {
    IsCreate(actions, i, c) && forall d: nat | IsCreate(actions, i, d) :: d == c
  }

  /** The clash that started the second lookups, and that they have found nobody. */
  ghost predicate Reseeking(s: State, actions: seq<Action>, i: nat, who: Identity, shared: bool, c: nat) {
    OnlyCreate(actions, i, c) && (!shared <==> ClashedOnNumber(s, actions, i, c, who)) && MissedAfter(s, actions, i, c)
  }

  /** What the run so far says of worker `i`'s phase. */
  ghost predicate PhaseExplained(s: State, actions: seq<Action>, t: State, i: nat)
    requires i < |t.workers|
  {
    var who := t.workers[i].row.who;
    match t.workers[i].phase
    case Seek(_) => CreateError(i) !in actions && forall c: nat :: !IsCreate(actions, i, c)
    case Creating => CreateError(i) !in actions && forall c: nat :: !IsCreate(actions, i, c)
    case Reseek(_, shared) =>
      CreateError(i) !in actions && exists c: nat :: Reseeking(s, actions, i, who, shared, c)
    case Linked(_, cause) => CauseExplained(s, actions, i, who, cause)
    case Written(_, cause) => CauseExplained(s, actions, i, who, cause)
    case Skipped => true
  }

  ghost predicate CauseExplained(s: State, actions: seq<Action>, i: nat, who: Identity, cause: Cause) {
    && (CreateError(i) in actions <==> cause == DatabaseError)
    && (LostToNumber(s, actions, i, who) <==> cause == CompanyNumberTaken)
  }

  lemma PrefixSame(actions: seq<Action>, a: Action, m: nat)
    requires m <= |actions|
    ensures (actions + [a])[..m] == actions[..m]
  {
  }

  lemma CreatesLonger(actions: seq<Action>, a: Action, i: nat)
    ensures forall c: nat :: IsCreate(actions + [a], i, c) <==>
              IsCreate(actions, i, c) || (c == |actions| && a.Create? && a.i == i)
  {
  }

  lemma ClashLonger(s: State, actions: seq<Action>, a: Action, i: nat, c: nat, who: Identity)
    requires c < |actions|
    ensures ClashedOnNumber(s, actions + [a], i, c, who) <==> ClashedOnNumber(s, actions, i, c, who)
  {
    hide Exec, Refused, Known;
    PrefixSame(actions, a, c);
  }

  lemma MissedLonger(s: State, actions: seq<Action>, a: Action, i: nat, c: nat)
    requires c < |actions|
    ensures MissedAfter(s, actions + [a], i, c) <==>
            MissedAfter(s, actions, i, c) && (a == Find(i) ==> MissedAt(s, actions, i, |actions|))
  {
    hide Exec, WouldFind;
    var longer := actions + [a];
    forall m: nat | m <= |actions| ensures longer[..m] == actions[..m] { PrefixSame(actions, a, m); }
    forall m: nat | m < |actions| && actions[m] == Find(i)
      ensures longer[m] == Find(i) && (MissedAt(s, longer, i, m) <==> MissedAt(s, actions, i, m)) {}
    assert a == Find(i) ==> longer[|actions|] == Find(i);
    assert MissedAt(s, longer, i, |actions|) <==> MissedAt(s, actions, i, |actions|);
    forall m: nat | m < |longer| && longer[m] == Find(i)
      ensures (m < |actions| && actions[m] == Find(i)) || (m == |actions| && a == Find(i)) {}
  }

  /** An action that is neither a create nor a lookup of worker `i` loses no link and finds none. */
  lemma LostLonger(s: State, actions: seq<Action>, a: Action, i: nat, who: Identity)
    requires !(a.Create? && a.i == i) && a != Find(i)
    ensures LostToNumber(s, actions + [a], i, who) <==> LostToNumber(s, actions, i, who)
  {
    hide Exec, Refused, Known, MissedAt;
    CreatesLonger(actions, a, i);
    forall c: nat | c < |actions|
      ensures ClashedOnNumber(s, actions + [a], i, c, who) && MissedAfter(s, actions + [a], i, c) <==>
              ClashedOnNumber(s, actions, i, c, who) && MissedAfter(s, actions, i, c)
    {
      ClashLonger(s, actions, a, i, c, who);
      MissedLonger(s, actions, a, i, c);
    }
  }
  lemma UnmovedExplained(s: State, actions: seq<Action>, t: State, a: Action, i: nat)
    requires i < |t.workers| && Enabled(t, a) && PhaseExplained(s, actions, t, i)
    requires a.Other? || a.i != i || a.Write? || a.Fail?
    ensures i < |Step(t, a).workers| && PhaseExplained(s, actions + [a], Step(t, a), i)
  {
    var t' := Step(t, a);
    var who := t.workers[i].row.who;
    CreatesLonger(actions, a, i);
    LostLonger(s, actions, a, i, who);
    OthersStay(t, a);
    hide Exec, ClashedOnNumber, MissedAfter, LostToNumber, Match, Refused, Known, IsCreate, Reseeking;
    if t'.workers[i].phase.Reseek? {
      var c: nat :| Reseeking(s, actions, i, who, t.workers[i].phase.shared, c);
      ReseekLonger(s, actions, a, i, who, t.workers[i].phase.shared, c);
    }
  }

  lemma ReseekLonger(s: State, actions: seq<Action>, a: Action, i: nat, who: Identity, shared: bool, c: nat)
    requires Reseeking(s, actions, i, who, shared, c) && !(a.Create? && a.i == i)
    requires a == Find(i) ==> MissedAt(s, actions, i, |actions|)
    ensures Reseeking(s, actions + [a], i, who, shared, c)
  {
    CreatesLonger(actions, a, i);
    ClashLonger(s, actions, a, i, c, who);
    MissedLonger(s, actions, a, i, c);
    hide Exec, ClashedOnNumber, MissedAfter, MissedAt;
  }

  /** Who never created a taxpayer lost none. */
  lemma NoCreateNoLoss(s: State, actions: seq<Action>, i: nat, who: Identity)
    requires forall c: nat :: !IsCreate(actions, i, c)
    ensures !LostToNumber(s, actions, i, who)
  {
    hide Exec;
  }

  lemma HereState(s: State, actions: seq<Action>, t: State, i: nat)
    requires Exec(s, actions) == Some(t)
    ensures MissedAt(s, actions, i, |actions|) <==> !WouldFind(t, i)
    ensures Exec(s, actions[..|actions|]) == Some(t)
  {
    assert actions[..|actions|] == actions;
  }

  lemma SeekExplained(s: State, actions: seq<Action>, t: State, i: nat)
    requires Exec(s, actions) == Some(t) && Enabled(t, Find(i)) && PhaseExplained(s, actions, t, i)
             && t.workers[i].phase.Seek?
    ensures i < |Step(t, Find(i)).workers| && PhaseExplained(s, actions + [Find(i)], Step(t, Find(i)), i)
  {
    CreatesLonger(actions, Find(i), i);
    hide Exec, IsCreate, Match;
    NoCreateNoLoss(s, actions + [Find(i)], i, t.workers[i].row.who);
    hide LostToNumber;
  }

  lemma ReseekHit(s: State, actions: seq<Action>, t: State, i: nat, who: Identity, shared: bool, c: nat)
    requires Exec(s, actions) == Some(t) && Reseeking(s, actions, i, who, shared, c) && WouldFind(t, i)
    ensures !LostToNumber(s, actions + [Find(i)], i, who)
  {
    HereState(s, actions, t, i);
    CreatesLonger(actions, Find(i), i);
    MissedLonger(s, actions, Find(i), i, c);
    hide Exec, WouldFind, MissedAfter, MissedAt;
  }

  lemma ReseekExplained(s: State, actions: seq<Action>, t: State, i: nat)
    requires Exec(s, actions) == Some(t) && Inv(t) && Enabled(t, Find(i))
    requires PhaseExplained(s, actions, t, i) && t.workers[i].phase.Reseek?
    ensures i < |Step(t, Find(i)).workers| && PhaseExplained(s, actions + [Find(i)], Step(t, Find(i)), i)
  {
    var who, shared := t.workers[i].row.who, t.workers[i].phase.shared;
    var c: nat :| Reseeking(s, actions, i, who, shared, c);
    HereState(s, actions, t, i);
    assert WorkerOk(t.taxpayers, t.workers[i]);
    FindShape(t, i);
    if WouldFind(t, i) {
      hide Exec, Step, Inv, Reseeking, WouldFind, Enabled;
      ReseekHit(s, actions, t, i, who, shared, c);
      hide LostToNumber;
    } else {
      hide Exec, Step, Inv, WouldFind, Enabled, MissedAt;
      ReseekLonger(s, actions, Find(i), i, who, shared, c);
      hide ClashedOnNumber, MissedAfter, OnlyCreate;
    }
  }

  /** What a lookup after a clash leaves. */
  lemma FindShape(t: State, i: nat)
    requires Enabled(t, Find(i)) && t.workers[i].phase.Reseek? && WorkerOk(t.taxpayers, t.workers[i])
    ensures var w, z := t.workers[i], Step(t, Find(i));
            && |z.workers| == |t.workers| && z.workers[i].row == w.row
            && if WouldFind(t, i) then z.workers[i].phase.Linked? && z.workers[i].phase.cause == Found
               else if w.phase.k < 2 then z.workers[i].phase == Reseek(w.phase.k + 1, w.phase.shared)
               else z.workers[i].phase == Linked(None, CompanyNumberTaken) && !w.phase.shared
  {
    hide SharesKey;
  }

  lemma CreateExplained(s: State, actions: seq<Action>, t: State, i: nat, id: Id)
    requires Exec(s, actions) == Some(t) && Enabled(t, Create(i, id)) && PhaseExplained(s, actions, t, i)
    ensures i < |Step(t, Create(i, id)).workers|
            && PhaseExplained(s, actions + [Create(i, id)], Step(t, Create(i, id)), i)
  {
    var who := t.workers[i].row.who;
    var longer := actions + [Create(i, id)];
    var c := |actions|;
    HereState(s, actions, t, i);
    PrefixSame(actions, Create(i, id), c);
    CreatesLonger(actions, Create(i, id), i);
    hide Exec, Refused, Known;
    assert longer[c] == Create(i, id);
    assert ClashedOnNumber(s, longer, i, c, who) <==> Refused(t.taxpayers, who) && !Known(t.taxpayers, who);
    if Refused(t.taxpayers, who) {
      assert Reseeking(s, longer, i, who, Known(t.taxpayers, who), c);
    } else {
      hide ClashedOnNumber, MissedAfter;
      assert !LostToNumber(s, longer, i, who);
    }
  }

  lemma CreateErrorExplained(s: State, actions: seq<Action>, t: State, i: nat)
    requires Enabled(t, CreateError(i)) && PhaseExplained(s, actions, t, i)
    ensures i < |Step(t, CreateError(i)).workers|
    ensures PhaseExplained(s, actions + [CreateError(i)], Step(t, CreateError(i)), i)
  {
    CreatesLonger(actions, CreateError(i), i);
    hide IsCreate;
    NoCreateNoLoss(s, actions + [CreateError(i)], i, t.workers[i].row.who);
    hide LostToNumber, Exec;
  }

  lemma StepExplained(s: State, actions: seq<Action>, t: State, a: Action, i: nat)
    requires Exec(s, actions) == Some(t) && Inv(t) && Enabled(t, a) && i < |t.workers|
             && PhaseExplained(s, actions, t, i)
    ensures i < |Step(t, a).workers| && PhaseExplained(s, actions + [a], Step(t, a), i)
  {
    if a.Other? || a.i != i || a.Write? || a.Fail? {
      UnmovedExplained(s, actions, t, a, i);
    } else if a.Find? {
      if t.workers[i].phase.Seek? { SeekExplained(s, actions, t, i); } else { ReseekExplained(s, actions, t, i); }
    } else if a.Create? {
      CreateExplained(s, actions, t, i, a.id);
    } else {
      CreateErrorExplained(s, actions, t, i);
    }
  }

  /** A prefix of a run is a run, and its next action is enabled. */
  lemma PrefixRuns(s: State, actions: seq<Action>, a: Action)
    requires Exec(s, actions + [a]).Some?
    ensures Exec(s, actions).Some? && Enabled(Exec(s, actions).value, a)
    ensures Exec(s, actions + [a]) == Some(Step(Exec(s, actions).value, a))
    decreases |actions|
  {
    hide Step, Enabled;
    if actions == [] {
      assert [] + [a] == [a];
      ExecNothing(Step(s, a));
    } else {
      assert (actions + [a])[1..] == actions[1..] + [a] && (actions + [a])[0] == actions[0];
      PrefixRuns(Step(s, actions[0]), actions[1..], a);
    }
  }

  lemma {:induction false} RunExplained(s: State, actions: seq<Action>, i: nat)
    requires Inv(s) && Exec(s, actions).Some? && i < |s.workers| && s.workers[i].phase.Seek?
    ensures i < |Exec(s, actions).value.workers| && PhaseExplained(s, actions, Exec(s, actions).value, i)
    decreases |actions|
  {
    if actions != [] {
      hide PhaseExplained, Step, Enabled, Inv;
      var n := |actions| - 1;
      assert actions == actions[..n] + [actions[n]];
      PrefixRuns(s, actions[..n], actions[n]);
      hide Exec;
      RunExplained(s, actions[..n], i);
      ExecKeepsInv(s, actions[..n]);
      StepExplained(s, actions[..n], Exec(s, actions[..n]).value, actions[n], i);
    }
  }

  /**
   No lost link, exactly: in every interleaving of the lookups, creates, conflicts and second lookups of a
   batch, and of other writers adding taxpayers, a row with a usable BVN, TIN or NIN that is done ends on a
   taxpayer sharing one of them. It ends without one if and only if its own create failed in the database, or
   clashed on its company number alone - while nobody shared an identifier - and none of its second lookups
   found anybody either.
   */
  lemma NoLostLink(ts: Taxpayers, rows: seq<Filing>, records: seq<Record>, batch: Option<string>,
                   actions: seq<Action>, i: nat)
    requires UniqueIndexes(ts) && i < |rows| && HasKey(rows[i].who)
    requires Exec(Start(ts, rows, records, batch), actions).Some?
    requires var s := Exec(Start(ts, rows, records, batch), actions).value;
             i < |s.workers| && s.workers[i].phase.Written?
    ensures var s := Exec(Start(ts, rows, records, batch), actions).value;
            var p := s.workers[i].phase;
            && UniqueIndexes(s.taxpayers)
            && (p.link.Some? ==> p.link.value in s.taxpayers && Shares(rows[i].who, s.taxpayers[p.link.value]))
            && (p.link.None? <==>
                  CreateError(i) in actions || LostToNumber(Start(ts, rows, records, batch), actions, i, rows[i].who))
            && (p.link.None? ==> CreateError(i) in actions || NumberTaken(s.taxpayers, rows[i].who))
  {
    var s0 := Start(ts, rows, records, batch);
    RunExplained(s0, actions, i);
    ExecKeepsInv(s0, actions);
    var s := Exec(s0, actions).value;
    hide Exec, LostToNumber;
    assert WorkerOk(s.taxpayers, s.workers[i]);
  }

  /** Two filings of one company under different BVNs. */
  const TWO_FILINGS := [
    Filing(Identity(Some("b1"), None, None, Some("RC1")), "s", false, 1),
    Filing(Identity(Some("b2"), None, None, Some("RC1")), "s", false, 1)]

  lemma ExecStep(s: State, a: Action, rest: seq<Action>)
    requires Enabled(s, a)
    ensures Exec(s, [a] + rest) == Exec(Step(s, a), rest)
  {
    assert ([a] + rest)[1..] == rest;
  }

  /** The second row's BVN is usable, nothing fails, and it still ends without a taxpayer. */
  lemma CompanyNumberLosesALink()
    ensures exists actions ::
              var e := Exec(Start(map[], TWO_FILINGS, [], None), actions);
              e.Some? && |e.value.workers| == 2 && e.value.workers[1].phase == Linked(None, CompanyNumberTaken)
  {
    var s0 := Start(map[], TWO_FILINGS, [], None);
    var head := FirstCreates();
    var tail := SecondLost();
    ExecAppend(s0, head, tail);
  }

  lemma ExecAppend(s: State, a: seq<Action>, b: seq<Action>)
    requires Exec(s, a).Some?
    ensures Exec(s, a + b) == Exec(Exec(s, a).value, b)
    decreases |a|
  {
    hide Step;
    if a == [] {
      assert a + b == b;
    } else {
      assert (a + b)[1..] == a[1..] + b;
      ExecAppend(Step(s, a[0]), a[1..], b);
    }
  }

  function AfterFirst(): State {
    var s0 := Start(map[], TWO_FILINGS, [], None);
    SetPhase(s0, 0, Linked(Some(0), Created)).(taxpayers := map[0 := TWO_FILINGS[0].who])
  }

  lemma FirstCreates() returns (actions: seq<Action>)
    ensures Exec(Start(map[], TWO_FILINGS, [], None), actions) == Some(AfterFirst())
  {
    var s0 := Start(map[], TWO_FILINGS, [], None);
    var s1 := Step(s0, Find(0));
    assert s1 == SetPhase(s0, 0, Seek(1));
    var s2 := Step(s1, Find(0));
    assert s2 == SetPhase(s0, 0, Seek(2));
    var s3 := Step(s2, Find(0));
    assert s3 == SetPhase(s0, 0, Creating);
    var s4 := Step(s3, Create(0, 0));
    assert s4 == AfterFirst();
    actions := [Find(0)] + ([Find(0)] + ([Find(0)] + ([Create(0, 0)] + [])));
    hide Exec, Step;
    ExecStep(s0, Find(0), [Find(0)] + ([Find(0)] + ([Create(0, 0)] + [])));
    ExecStep(s1, Find(0), [Find(0)] + ([Create(0, 0)] + []));
    ExecStep(s2, Find(0), [Create(0, 0)] + []);
    ExecStep(s3, Create(0, 0), []);
    ExecNothing(s4);
  }

  lemma ExecNothing(s: State)
    ensures Exec(s, []) == Some(s)
  {
  }

  /** A lookup of the second row finds nobody. */
  lemma SecondFindsNobody(s: State, k: nat)
    requires s.taxpayers == AfterFirst().taxpayers && |s.workers| == 2 && s.workers[1].row == TWO_FILINGS[1]
    requires (s.workers[1].phase.Seek? || s.workers[1].phase.Reseek?) && s.workers[1].phase.k == k && k < 3
    ensures Step(s, Find(1)) == SetPhase(s, 1, NextPhase(s.workers[1].phase))
  {
  }

  lemma SecondLost() returns (actions: seq<Action>)
    ensures var e := Exec(AfterFirst(), actions);
            e.Some? && |e.value.workers| == 2 && e.value.workers[1].phase == Linked(None, CompanyNumberTaken)
  {
    var s0 := AfterFirst();
    SecondFindsNobody(s0, 0);
    var s1 := Step(s0, Find(1));
    SecondFindsNobody(s1, 1);
    var s2 := Step(s1, Find(1));
    SecondFindsNobody(s2, 2);
    var s3 := Step(s2, Find(1));
    assert Conflicts(s3.workers[1].row.who, s3.taxpayers[0]);
    var s4 := Step(s3, Create(1, 1));
    assert s4 == SetPhase(s3, 1, Reseek(0, false));
    SecondFindsNobody(s4, 0);
    var s5 := Step(s4, Find(1));
    SecondFindsNobody(s5, 1);
    var s6 := Step(s5, Find(1));
    SecondFindsNobody(s6, 2);
    var s7 := Step(s6, Find(1));
    hide Exec, Step;
    var c := [Find(1)] + ([Find(1)] + ([Find(1)] + []));
    actions := [Find(1)] + ([Find(1)] + ([Find(1)] + ([Create(1, 1)] + c)));
    ExecStep(s0, Find(1), [Find(1)] + ([Find(1)] + ([Create(1, 1)] + c)));
    ExecStep(s1, Find(1), [Find(1)] + ([Create(1, 1)] + c));
    ExecStep(s2, Find(1), [Create(1, 1)] + c);
    ExecStep(s3, Create(1, 1), c);
    ExecStep(s4, Find(1), [Find(1)] + ([Find(1)] + []));
    ExecStep(s5, Find(1), [Find(1)] + []);
    ExecStep(s6, Find(1), []);
    ExecNothing(s7);
  }
}
