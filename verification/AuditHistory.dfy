/**
 Where the rows of the audit log come from: in every interleaving each is one writer's own append, stamped by
 its clock, and committed in turn.
 */
module AuditHistory {
  import opened Wrappers
  import opened StableJson
  import opened JsonText
  import opened AuditChain
  import opened AuditLog

  function WriterOf(a: Action): Writer {
    match a
    case Acquire(w) => w
    case ReadHead(w, _) => w
    case Append(w, _, _) => w
    case Commit(w) => w
    case Abort(w) => w
  }

  /** The run ends with writer `w` appending `row`, for `live`, after the rows of `table`. */
  ghost predicate JustAppended(env: Env, actions: seq<Action>, w: Writer, table: seq<Row>, row: Row, live: Live) {
    && actions != []
    && var a := actions[|actions| - 1];
       a.Append? && a.w == w && a.live == live && Appends(env, table, row, live, a.now)
  }

  /** Action `k` committed, as row `i`, what the action right before it appended at its clock's time. */
  ghost predicate CommittedBy(env: Env, actions: seq<Action>, k: nat, i: nat, table: seq<Row>, live: Live)
    requires i < |table|
  {
    && k < |actions| && actions[k].Commit?
    && Exec(env, actions[..k]).Some? && Exec(env, actions[..k]).value.table == table[..i]
    && JustAppended(env, actions[..k], actions[k].w, table[..i], table[i], live)
  }

  ghost predicate RowTraced(env: Env, actions: seq<Action>, i: nat, table: seq<Row>, live: Live)
    requires i < |table|
  {
    exists k: nat :: CommittedBy(env, actions, k, i, table, live)
  }

  /** The lock leaves an append no other way than to be the last thing that happened. */
  ghost predicate PhaseTraced(env: Env, actions: seq<Action>, s: State, w: Writer) {
    PhaseOf(s, w).Appended? ==> JustAppended(env, actions, w, s.table, PhaseOf(s, w).row, PhaseOf(s, w).live)
  }

  lemma RowStaysTraced(env: Env, actions: seq<Action>, a: Action, i: nat, table: seq<Row>, longer: seq<Row>, live: Live)
    requires i < |table| && table <= longer && RowTraced(env, actions, i, table, live)
    ensures RowTraced(env, actions + [a], i, longer, live)
  {
    hide Exec, JustAppended;
    var k: nat :| CommittedBy(env, actions, k, i, table, live);
    assert (actions + [a])[..k] == actions[..k] && longer[..i] == table[..i];
    assert CommittedBy(env, actions + [a], k, i, longer, live);
  }

  /** While a writer is inside its transaction, every other one waits. */
  lemma OthersWait(env: Env, s: State, a: Action, w: Writer)
    requires Inv(env, s) && Enabled(s, a) && PhaseOf(s, w) != Idle
    ensures WriterOf(a) == w
  {
    hide Payload, Stores, RowOk, Extends;
  }

  /** One step of a run; `s` is where it is taken. */
  lemma PhaseStaysTraced(env: Env, actions: seq<Action>, s: State, a: Action, w: Writer)
    requires Inv(env, s) && Enabled(s, a)
    ensures PhaseTraced(env, actions + [a], Step(env, s, a), w)
  {
    if PhaseOf(s, w) != Idle { OthersWait(env, s, a, w); }
    hide Payload, Stores, RowOk, Extends;
  }

  lemma CommitTraced(env: Env, actions: seq<Action>, s: State, a: Action)
    requires Reaches(env, actions, s) && Enabled(s, a) && a.Commit? && PhaseTraced(env, actions, s, a.w)
    ensures var z := Step(env, s, a);
            && |z.table| == |s.table| + 1 == |s.written| + 1 == |z.written|
            && z.table[..|s.table|] == s.table && z.written[..|s.table|] == s.written
            && RowTraced(env, actions + [a], |s.table|, z.table, z.written[|s.table|])
  {
    ReachableInv(env, actions, s);
    hide Payload, Stores, RowOk, Exec, Appends;
    var z, n := Step(env, s, a), |actions|;
    assert (actions + [a])[..n] == actions && z.table[..|s.table|] == s.table;
    assert z.table[|s.table|] == PhaseOf(s, a.w).row && z.written[|s.table|] == PhaseOf(s, a.w).live;
    assert CommittedBy(env, actions + [a], n, |s.table|, z.table, z.written[|s.table|]);
  }

  ghost predicate Traced(env: Env, actions: seq<Action>, s: State) {
    && |s.written| == |s.table|
    && (forall i | 0 <= i < |s.table| :: RowTraced(env, actions, i, s.table, s.written[i]))
    && forall w: Writer :: PhaseTraced(env, actions, s, w)
  }

  lemma StepTraced(env: Env, actions: seq<Action>, s: State, a: Action)
    requires Reaches(env, actions, s) && Enabled(s, a) && Traced(env, actions, s)
    ensures Traced(env, actions + [a], Step(env, s, a))
  {
    hide RowTraced, PhaseTraced, Inv;
    ReachableInv(env, actions, s);
    var z := Step(env, s, a);
    forall w: Writer ensures PhaseTraced(env, actions + [a], z, w) { PhaseStaysTraced(env, actions, s, a, w); }
    if a.Commit? { CommitTraced(env, actions, s, a); }
    hide Exec, Enabled;
    forall i | 0 <= i < |z.table| ensures RowTraced(env, actions + [a], i, z.table, z.written[i]) {
      if i < |s.table| { RowStaysTraced(env, actions, a, i, s.table, z.table, s.written[i]); }
    }
  }

  lemma {:induction false} RunTraced(env: Env, actions: seq<Action>, s: State)
    requires Reaches(env, actions, s)
    ensures Traced(env, actions, s)
    decreases |actions|
  {
    if actions != [] {
      hide Traced, Enabled, Step;
      var n := |actions| - 1;
      var r := Exec(env, actions[..n]).value;
      RunTraced(env, actions[..n], r);
      StepTraced(env, actions[..n], r, actions[n]);
      assert actions[..n] + [actions[n]] == actions;
    }
  }

  function Commits(actions: seq<Action>): nat {
    if actions == [] then 0
    else Commits(actions[..|actions| - 1]) + if actions[|actions| - 1].Commit? then 1 else 0
  }

  lemma {:induction false} RowsAreCommits(env: Env, actions: seq<Action>, s: State)
    requires Reaches(env, actions, s)
    ensures |s.table| == Commits(actions)
    decreases |actions|
  {
    if actions != [] {
      hide Enabled, NewRow;
      RowsAreCommits(env, actions[..|actions| - 1], Exec(env, actions[..|actions| - 1]).value);
    }
  }

  /**
   Over any interleaving the log holds one row for every commit and no other. Row `i` is what the committing
   writer itself appended right before: its own entry, linked and hashed, and stamped with the clock
   reading of that append, or one millisecond after the row before where the clock had not moved past it.
   */
  lemma EveryRowIsOneAppend(env: Env, actions: seq<Action>, s: State)
    requires Reaches(env, actions, s)
    ensures |s.table| == |s.written| == Commits(actions)
    ensures forall i | 0 <= i < |s.table| :: RowTraced(env, actions, i, s.table, s.written[i])
  {
    RunTraced(env, actions, s);
    RowsAreCommits(env, actions, s);
  }

  // ----- what is hashed ---------------------------------------------------------------------------------

  /** The payload is JSON for an object of the entry's seven fields and the time, an absent one null. */
  lemma PayloadIsTheEntry(env: Env, e: Entry, createdAt: int)
    requires WellFormedEntry(e)
    ensures Denotes(Payload(env, e, createdAt), Obj([
              Keyed("actorType", Str(e.actorType)),
              Keyed("actorId", if e.actorId == None then Null else Str(e.actorId.value)),
              Keyed("action", Str(e.action)), Keyed("entity", Str(e.entity)),
              Keyed("entityId", if e.entityId == None then Null else Str(e.entityId.value)),
              Keyed("beforeJson", e.beforeJson), Keyed("afterJson", e.afterJson),
              Keyed("ts", Str(env.iso(createdAt)))]))
  {
    FieldsDistinct(e, env.iso(createdAt));
    StringifyDenotes(Obj(Fields(e, env.iso(createdAt))));
    hide Denotes, Stringify;
  }

  // ----- writers get through --------------------------------------------------------------------------

  /**
   Whenever the lock is free, a writer that is not in a transaction can take it, read the head, append and commit,
   one step after another: its row is then the log's last, and the lock is free again.
   */
  lemma WriterGetsThrough(env: Env, s: State, w: Writer, h: Option<nat>, live: Live, now: int)
    requires Inv(env, s) && s.lock == None && Stores(live) && IsLatest(s.table, h)
    ensures Enabled(s, Acquire(w))
    ensures var s1 := Step(env, s, Acquire(w));
            Enabled(s1, ReadHead(w, h)) &&
            var s2 := Step(env, s1, ReadHead(w, h));
            Enabled(s2, Append(w, live, now)) &&
            var s3 := Step(env, s2, Append(w, live, now));
            Enabled(s3, Commit(w)) &&
            var s4 := Step(env, s3, Commit(w));
            && |s4.table| == |s.table| + 1 && s4.table[..|s.table|] == s.table && s4.lock == None
            && Appends(env, s.table, s4.table[|s.table|], live, now)
            && forall v: Writer :: PhaseOf(s4, v) == Idle
  {
    hide Payload, Stores, RowOk, Extends;
    LatestIsLast(s.table, h);
  }

  /** A transaction that fails writes nothing and frees the lock. */
  lemma AbortFrees(env: Env, s: State, w: Writer)
    requires Inv(env, s) && Enabled(s, Abort(w))
    ensures var z := Step(env, s, Abort(w));
            z.table == s.table && z.lock == None && forall v: Writer :: PhaseOf(z, v) == Idle
  {
    hide Payload, Stores, RowOk, Extends;
  }
}
