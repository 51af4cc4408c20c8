/**
 What each filing row leaves in the records, field by field and with its taxpayer, and which taxpayer a lookup
 finds.
 */
module ImportAnswers {
  import opened Wrappers
  import opened BankImport
  import opened ImportRecords
  import opened LostLinks

  // ----- which taxpayer ---------------------------------------------------------------------------------

  predicate SameBvn(who: Identity, t: Identity) { who.bvn.Some? && t.bvn == who.bvn }

  predicate SameTin(who: Identity, t: Identity) { who.tin.Some? && t.tin == who.tin }

  predicate SameNin(who: Identity, t: Identity) { who.nin.Some? && t.nin == who.nin }

  /** The lookup takes a taxpayer with the row's BVN; if there is none, one with its TIN; else one with its NIN. */
  lemma FirstMatchIs(ts: Taxpayers, who: Identity, t: Id)
    ensures FirstMatch(ts, who, t) <==>
            && t in ts
            && if exists u :: u in ts && SameBvn(who, ts[u]) then SameBvn(who, ts[t])
               else if exists u :: u in ts && SameTin(who, ts[u]) then SameTin(who, ts[t])
               else SameNin(who, ts[t])
  {
    assert forall u :: (Match(ts, u, who, 0) <==> u in ts && SameBvn(who, ts[u]))
                       && (Match(ts, u, who, 1) <==> u in ts && SameTin(who, ts[u]))
                       && (Match(ts, u, who, 2) <==> u in ts && SameNin(who, ts[u]));
    if FirstMatch(ts, who, t) {
      var k :| 0 <= k < 3 && Match(ts, t, who, k) && forall j, u :: 0 <= j < k ==> !Match(ts, u, who, j);
    }
  }

  /** A new taxpayer is refused when its BVN, TIN, NIN or company number is in use. */
  lemma RefusedIs(ts: Taxpayers, who: Identity)
    ensures Refused(ts, who) <==>
            exists t :: t in ts && (SameBvn(who, ts[t]) || SameTin(who, ts[t]) || SameNin(who, ts[t])
                                    || (who.rc.Some? && ts[t].rc == who.rc))
  {
    assert forall t | t in ts :: Conflicts(who, ts[t]) <==>
        SameBvn(who, ts[t]) || SameTin(who, ts[t]) || SameNin(who, ts[t]) || (who.rc.Some? && ts[t].rc == who.rc);
  }

  // ----- which record --------------------------------------------------------------------------------------

  /** An account opening carries no money and counts as no transaction; anything else carries its amount, once. */
  predicate RecordsFiling(r: Record, row: Filing, batch: Option<string>, link: Option<Id>) {
    && r.submission == row.submission && r.kindOpened == row.opening && r.batch == batch && r.link == link
    && (row.opening ==> r.inflow == 0 && r.count == 0)
    && (!row.opening ==> r.inflow == row.amount && r.count == 1)
  }

  lemma RecordIs(row: Filing, batch: Option<string>, link: Option<Id>, r: Record)
    ensures RecordsFiling(r, row, batch, link) <==> r == RecordOf(row, batch, link)
  {
  }

  function LinkedBy(w: Worker, batch: Option<string>): seq<Record> {
    if w.phase.Written? then [RecordOf(w.row, batch, w.phase.link)] else []
  }

  /** The records of the rows that are done, each linked to the taxpayer its row ended on. */
  function LinkedRecords(ws: seq<Worker>, batch: Option<string>): seq<Record> {
    if ws == [] then [] else LinkedRecords(ws[..|ws| - 1], batch) + LinkedBy(ws[|ws| - 1], batch)
  }

  lemma LinkedLast(ws: seq<Worker>, batch: Option<string>)
    requires ws != []
    ensures multiset(LinkedRecords(ws, batch)) ==
            multiset(LinkedRecords(ws[..|ws| - 1], batch)) + multiset(LinkedBy(ws[|ws| - 1], batch))
  {
    hide LinkedBy;
  }

  lemma NotLinkedYet(w: Worker, batch: Option<string>)
    requires !w.phase.Written?
    ensures LinkedBy(w, batch) == []
  {
  }

  lemma {:induction false} LinkedUpdate(ws: seq<Worker>, i: nat, p: Phase, batch: Option<string>)
    requires i < |ws| && !ws[i].phase.Written?
    ensures multiset(LinkedRecords(ws[i := ws[i].(phase := p)], batch)) ==
            multiset(LinkedRecords(ws, batch)) + multiset(LinkedBy(ws[i].(phase := p), batch))
    decreases |ws|
  {
    hide RecordOf, LinkedRecords, LinkedBy;
    var n := |ws| - 1;
    var us := ws[i := ws[i].(phase := p)];
    LinkedLast(ws, batch);
    LinkedLast(us, batch);
    if i == n {
      assert us[..n] == ws[..n];
      NotLinkedYet(ws[n], batch);
    } else {
      UpdateBefore(ws, i, ws[i].(phase := p));
      LinkedUpdate(ws[..n], i, p, batch);
    }
  }

  ghost predicate LinksKept(s: State, start: seq<Record>) {
    multiset(s.records) == multiset(start) + multiset(LinkedRecords(s.workers, s.batch))
  }

  lemma StepKeepsLinks(s: State, a: Action, start: seq<Record>)
    requires LinksKept(s, start) && Enabled(s, a)
    ensures LinksKept(Step(s, a), start)
  {
    hide LinkedRecords, RecordOf;
    if a.Other? {
      assert Step(s, a) == s.(taxpayers := Step(s, a).taxpayers);
    } else if a.Write? {
      var w := s.workers[a.i];
      LinkedUpdate(s.workers, a.i, Written(w.phase.link, w.phase.cause), s.batch);
    } else {
      StepMoves(s, a);
      var p := Step(s, a).workers[a.i].phase;
      LinkedUpdate(s.workers, a.i, p, s.batch);
      hide Step;
    }
  }

  lemma {:induction false} ExecKeepsLinks(s: State, actions: seq<Action>, start: seq<Record>)
    requires LinksKept(s, start) && Exec(s, actions).Some?
    ensures LinksKept(Exec(s, actions).value, start)
    decreases |actions|
  {
    if actions != [] {
      hide LinksKept, Enabled, Step;
      StepKeepsLinks(s, actions[0], start);
      ExecKeepsLinks(Step(s, actions[0]), actions[1..], start);
    }
  }

  lemma {:induction false} NoneLinked(ws: seq<Worker>, batch: Option<string>)
    requires forall i | 0 <= i < |ws| :: !ws[i].phase.Written?
    ensures LinkedRecords(ws, batch) == []
    decreases |ws|
  {
    if ws != [] { NoneLinked(ws[..|ws| - 1], batch); }
  }

  lemma {:induction false} LinkedIn(ws: seq<Worker>, batch: Option<string>, i: nat)
    requires i < |ws| && ws[i].phase.Written?
    ensures RecordOf(ws[i].row, batch, ws[i].phase.link) in LinkedRecords(ws, batch)
    decreases |ws|
  {
    hide RecordOf;
    if i < |ws| - 1 { LinkedIn(ws[..|ws| - 1], batch, i); }
  }

  /**
   In every interleaving the records are those there were and one for each row that is done, carrying that row's
   money and kind, and the taxpayer that row ended on: nothing is linked to anybody else.
   */
  lemma RecordsCarryTheirLinks(ts: Taxpayers, rows: seq<Filing>, start: seq<Record>, batch: Option<string>,
                               actions: seq<Action>)
    requires Exec(Start(ts, rows, start, batch), actions).Some?
    ensures var s := Exec(Start(ts, rows, start, batch), actions).value;
            && s.batch == batch && |s.workers| == |rows|
            && multiset(s.records) == multiset(start) + multiset(LinkedRecords(s.workers, batch))
            && forall i | 0 <= i < |rows| && s.workers[i].phase.Written? ::
                 exists r :: r in s.records && RecordsFiling(r, rows[i], batch, s.workers[i].phase.link)
  {
    hide RecordOf, Exec, RecordsInv, RecordsFiling;
    var s0 := Start(ts, rows, start, batch);
    NoneLinked(s0.workers, batch);
    ExecKeepsLinks(s0, actions, start);
    RunRecords(ts, rows, start, batch, actions);
    var s := Exec(s0, actions).value;
    forall i | 0 <= i < |rows| && s.workers[i].phase.Written?
      ensures exists r :: r in s.records && RecordsFiling(r, rows[i], batch, s.workers[i].phase.link)
    {
      LinkedIn(s.workers, batch, i);
      var r := RecordOf(rows[i], batch, s.workers[i].phase.link);
      RecordIs(rows[i], batch, s.workers[i].phase.link, r);
      assert r in multiset(LinkedRecords(s.workers, batch));
      assert r in multiset(s.records);
    }
  }
}
