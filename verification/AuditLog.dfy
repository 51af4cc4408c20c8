/**
 Appending to the audit log: `AuditService.log` as one critical section, and as the interleaved steps
 of any number of writers that take the advisory lock, read the head, append, and commit or abort.
 */
module AuditLog {
  import opened Wrappers
  import opened StableJson
  import opened AuditChain

  /** An entry as the caller passes it, and the copies its jsonb columns give back afterwards. */
  datatype Live = Live(entry: Entry, copyBefore: Json, copyAfter: Json)

  ghost predicate Stores(l: Live) {
    && WellFormedEntry(l.entry) && WellFormed(l.copyBefore) && WellFormed(l.copyAfter)
    && Meaning(l.copyBefore) == StoredMeaning(l.entry.beforeJson)
    && Meaning(l.copyAfter) == StoredMeaning(l.entry.afterJson)
  }

  function StoredEntry(l: Live): Entry {
    l.entry.(beforeJson := l.copyBefore, afterJson := l.copyAfter)
  }

  predicate NoUndefined(l: Live) {
    NoUndefinedMember(l.entry.beforeJson) && NoUndefinedMember(l.entry.afterJson)
  }

  /** The appended row: stamped strictly after the head, and hashed over the live entry. */
  function NewRow(env: Env, head: Option<Row>, l: Live, now: int): Row {
    var ts := if head.Some? && head.value.createdAt >= now then head.value.createdAt + 1 else now;
    var prevHash := if head.Some? then head.value.curr else "";
    Row(StoredEntry(l), ts, prevHash, env.hash(prevHash + Payload(env, l.entry, ts)))
  }

  /** A row that `ORDER BY createdAt DESC LIMIT 1` may return. */
  predicate IsLatest(rows: seq<Row>, h: Option<nat>) {
    if h.None? then rows == []
    else h.value < |rows| && forall k | 0 <= k < |rows| :: rows[k].createdAt <= rows[h.value].createdAt
  }

  function RowAt(rows: seq<Row>, h: Option<nat>): Option<Row>
    requires IsLatest(rows, h)
  {
    if h.None? then None else Some(rows[h.value])
  }

  function Last(rows: seq<Row>): Option<Row> {
    if rows == [] then None else Some(rows[|rows| - 1])
  }

  /** When a row is stamped: at the clock's time, if that is after the last row, else one millisecond after it. */
  predicate Stamped(table: seq<Row>, now: int, at: int) {
    && (table == [] ==> at == now)
    && (table != [] && table[|table| - 1].createdAt < now ==> at == now)
    && (table != [] && table[|table| - 1].createdAt >= now ==> at == table[|table| - 1].createdAt + 1)
  }

  /** The row that logging `l` at time `now` adds to the table. */
  predicate Appends(env: Env, table: seq<Row>, row: Row, l: Live, now: int) {
    && Stamped(table, now, row.createdAt)
    && row.entry.actorType == l.entry.actorType && row.entry.actorId == l.entry.actorId
    && row.entry.action == l.entry.action && row.entry.entity == l.entry.entity
    && row.entry.entityId == l.entry.entityId
    && row.entry.beforeJson == l.copyBefore && row.entry.afterJson == l.copyAfter
    && row.prev == (if table == [] then "" else table[|table| - 1].curr)
    && row.curr == env.hash(row.prev + Payload(env, l.entry, row.createdAt))
  }

  ghost predicate Increasing(rows: seq<Row>) {
    forall i, j | 0 <= i < j < |rows| :: rows[i].createdAt < rows[j].createdAt
  }

  // ----- one writer --------------------------------------------------------------------------

  class AuditService {
    var table: seq<Row>

    constructor ()
      ensures table == []
    {
      table := [];
    }

    method FindLatest() returns (h: Option<nat>)
      ensures IsLatest(table, h)
    {
      h := None;
      for i := 0 to |table|
        invariant IsLatest(table[..i], h)
      {
        if h.None? || table[i].createdAt >= table[h.value].createdAt { h := Some(i); }
      }
      assert table[..|table|] == table;
    }

    /** `log`, when nothing inside it throws: read the head, then append. */
    method Log(env: Env, l: Live, now: int)
      requires Increasing(table)
      modifies this
      ensures table == old(table) + [NewRow(env, Last(old(table)), l, now)]
      ensures Increasing(table)
      ensures |table| == |old(table)| + 1 && table[..|old(table)|] == old(table)
      ensures Appends(env, old(table), table[|old(table)|], l, now)
    {
      var h := FindLatest();
      LatestIsLast(table, h);
      var head := RowAt(table, h);
      table := table + [NewRow(env, head, l, now)];
    }
  }

  lemma LatestIsLast(rows: seq<Row>, h: Option<nat>)
    requires Increasing(rows) && IsLatest(rows, h)
    ensures RowAt(rows, h) == Last(rows)
  {
  }

  // ----- many writers ------------------------------------------------------------------------

  type Writer = nat

  /** How far a writer's transaction has got. */
  datatype Phase =
    | Idle
    | Locked
    | HeadRead(head: Option<Row>)
    | Appended(row: Row, live: Live)

  /** `written` remembers, beside each committed row, the live entry it was hashed from. */
  datatype State = State(table: seq<Row>, written: seq<Live>, phases: map<Writer, Phase>, lock: Option<Writer>)

  const INITIAL := State([], [], map[], None)

  datatype Action =
    | Acquire(w: Writer)
    | ReadHead(w: Writer, h: Option<nat>)
    | Append(w: Writer, live: Live, now: int)
    | Commit(w: Writer)
    | Abort(w: Writer)

  function PhaseOf(s: State, w: Writer): Phase {
    if w in s.phases then s.phases[w] else Idle
  }

  /** The lock blocks until it is free; every other step needs the one before it. */
  ghost predicate Enabled(s: State, a: Action) {
    match a
    case Acquire(w) => PhaseOf(s, w) == Idle && s.lock == None
    case ReadHead(w, h) => PhaseOf(s, w) == Locked && IsLatest(s.table, h)
    case Append(w, live, _) => PhaseOf(s, w).HeadRead? && Stores(live)
    case Commit(w) => PhaseOf(s, w).Appended?
    case Abort(w) => PhaseOf(s, w) != Idle
  }

  ghost function Step(env: Env, s: State, a: Action): State
    requires Enabled(s, a)
  {
    match a
    case Acquire(w) => s.(phases := s.phases[w := Locked], lock := Some(w))
    case ReadHead(w, h) => s.(phases := s.phases[w := HeadRead(RowAt(s.table, h))])
    case Append(w, live, now) =>
      s.(phases := s.phases[w := Appended(NewRow(env, PhaseOf(s, w).head, live, now), live)])
    case Commit(w) =>
      var p := PhaseOf(s, w);
      State(s.table + [p.row], s.written + [p.live], s.phases[w := Idle], None)
    case Abort(w) => s.(phases := s.phases[w := Idle], lock := None)
  }

  /** Where the run that takes `actions` in order ends up; none when some step is not enabled. */
  ghost function Exec(env: Env, actions: seq<Action>): Option<State> {
    if actions == [] then Some(INITIAL)
    else
      var r, a := Exec(env, actions[..|actions| - 1]), actions[|actions| - 1];
      if r.Some? && Enabled(r.value, a) then Some(Step(env, r.value, a)) else None
  }

  ghost predicate Reaches(env: Env, actions: seq<Action>, s: State) {
    Exec(env, actions) == Some(s)
  }

  /** Row `i` continues the chain and was hashed over the live entry. */
  ghost predicate RowOk(env: Env, table: seq<Row>, written: seq<Live>, i: nat)
    requires i < |table| == |written|
  {
    && Stores(written[i]) && table[i].entry == StoredEntry(written[i])
    && table[i].prev == PrevHash(table, i)
    && table[i].curr == env.hash(PrevHash(table, i) + Payload(env, written[i].entry, table[i].createdAt))
  }

  ghost predicate Extends(env: Env, table: seq<Row>, row: Row, live: Live) {
    && Stores(live) && row.entry == StoredEntry(live)
    && row.prev == PrevHash(table, |table|)
    && row.curr == env.hash(row.prev + Payload(env, live.entry, row.createdAt))
    && (table == [] || table[|table| - 1].createdAt < row.createdAt)
  }

  ghost predicate Inv(env: Env, s: State) {
    && |s.written| == |s.table| && Increasing(s.table)
    && (forall i | 0 <= i < |s.table| :: RowOk(env, s.table, s.written, i))
    && (forall w | w in s.phases && s.phases[w] != Idle :: s.lock == Some(w))
    && (forall w | w in s.phases ::
          match s.phases[w]
          case HeadRead(head) => head == Last(s.table)
          case Appended(row, live) => Extends(env, s.table, row, live)
          case _ => true)
  }

  lemma NewRowExtends(env: Env, table: seq<Row>, l: Live, now: int)
    requires Stores(l)
    ensures Extends(env, table, NewRow(env, Last(table), l, now), l)
  {
  }

  lemma CommitKeepsRows(env: Env, table: seq<Row>, written: seq<Live>, row: Row, live: Live)
    requires |written| == |table| && Increasing(table) && Extends(env, table, row, live)
    requires forall i | 0 <= i < |table| :: RowOk(env, table, written, i)
    ensures Increasing(table + [row])
    ensures forall i | 0 <= i <= |table| :: RowOk(env, table + [row], written + [live], i)
  {
    hide Payload, Stores;
    forall i | 0 <= i <= |table| ensures RowOk(env, table + [row], written + [live], i) {
      assert PrevHash(table + [row], i) == PrevHash(table, i);
      if i < |table| { assert RowOk(env, table, written, i); }
    }
  }

  lemma StepKeepsInv(env: Env, s: State, a: Action)
    requires Inv(env, s) && Enabled(s, a)
    ensures Inv(env, Step(env, s, a))
  {
    hide Payload, Stores, RowOk;
    match a
    case Acquire(w) =>
    case ReadHead(w, h) => LatestIsLast(s.table, h);
    case Append(w, live, now) => NewRowExtends(env, s.table, live, now);
    case Commit(w) => CommitKeepsRows(env, s.table, s.written, PhaseOf(s, w).row, PhaseOf(s, w).live);
    case Abort(w) =>
  }

  lemma {:induction false} ReachableInv(env: Env, actions: seq<Action>, s: State)
    requires Reaches(env, actions, s)
    ensures Inv(env, s)
    decreases |actions|
  {
    if actions != [] {
      var n := |actions| - 1;
      var r := Exec(env, actions[..n]).value;
      ReachableInv(env, actions[..n], r);
      StepKeepsInv(env, r, actions[n]);
    }
  }

  /** A result the query `ORDER BY createdAt ASC` over the table may return. */
  ghost predicate OrderedResult(table: seq<Row>, rows: seq<Row>) {
    && multiset(rows) == multiset(table)
    && forall i, j | 0 <= i < j < |rows| :: rows[i].createdAt <= rows[j].createdAt
  }

  lemma MultisetTail(rows: seq<Row>)
    requires rows != []
    ensures multiset(rows[1..]) == multiset(rows) - multiset{rows[0]}
  {
    assert rows == [rows[0]] + rows[1..];
  }

  lemma SameMultisetLength(a: seq<Row>, b: seq<Row>)
    requires multiset(a) == multiset(b)
    ensures |a| == |b|
  {
    assert |multiset(a)| == |a| && |multiset(b)| == |b|;
  }

  /** The first row of an ordered result is the oldest row. */
  lemma OldestFirst(table: seq<Row>, rows: seq<Row>)
    requires Increasing(table) && OrderedResult(table, rows) && table != [] && rows != []
    ensures rows[0] == table[0]
  {
    assert table[0] in multiset(table) && rows[0] in multiset(rows);
    var i :| 0 <= i < |table| && table[i] == rows[0];
    var j :| 0 <= j < |rows| && rows[j] == table[0];
    assert j > 0 ==> rows[0].createdAt <= rows[j].createdAt;
  }

  lemma {:induction false} OrderedResultIsTable(table: seq<Row>, rows: seq<Row>)
    requires Increasing(table) && OrderedResult(table, rows)
    ensures rows == table
    decreases |table|
  {
    SameMultisetLength(table, rows);
    if table != [] {
      OldestFirst(table, rows);
      MultisetTail(table);
      MultisetTail(rows);
      OrderedResultIsTable(table[1..], rows[1..]);
      assert table == [table[0]] + table[1..] && rows == [rows[0]] + rows[1..];
    }
  }

  /** What was hashed when row `i` was written. */
  ghost function WrittenPreimage(env: Env, s: State, i: nat): string
    requires i < |s.table| == |s.written|
  {
    PrevHash(s.table, i) + Payload(env, s.written[i].entry, s.table[i].createdAt)
  }

  /** A row whose stored copy is a different text with the same digest. */
  ghost predicate RowCollision(env: Env, s: State)
    requires |s.table| == |s.written|
  {
    exists i | 0 <= i < |s.table| ::
      WrittenPreimage(env, s, i) != Preimage(env, s.table, i)
      && env.hash(WrittenPreimage(env, s, i)) == env.hash(Preimage(env, s.table, i))
  }

  lemma CopyPrintsAlike(env: Env, l: Live, createdAt: int)
    requires Stores(l) && IsoInjective(env)
    ensures Payload(env, StoredEntry(l), createdAt) == Payload(env, l.entry, createdAt) <==> NoUndefined(l)
  {
    hide Payload;
    PayloadInjective(env, StoredEntry(l), l.entry, createdAt, createdAt);
    StoredIsMeaning(l.entry.beforeJson);
    StoredIsMeaning(l.entry.afterJson);
  }

  /**
   No fork, exactly. Whatever the interleaving of writers and whatever the clock does, the committed
   rows have strictly increasing timestamps, so every ordered query returns them in append order; and
   the checker accepts them if and only if no committed entry held an undefined member - short of a
   hash collision between what was written and what was stored.
   */
  lemma NoFork(env: Env, actions: seq<Action>, s: State, rows: seq<Row>)
    requires Reaches(env, actions, s) && OrderedResult(s.table, rows) && IsoInjective(env)
    ensures |s.written| == |s.table| && rows == s.table && Increasing(s.table)
    ensures (forall i | 0 <= i < |s.written| :: NoUndefined(s.written[i])) ==> Accepted(env, rows)
    ensures Accepted(env, rows) ==>
              RowCollision(env, s) || forall i | 0 <= i < |s.written| :: NoUndefined(s.written[i])
  {
    hide Payload, Stores, NoUndefined;
    ReachableInv(env, actions, s);
    OrderedResultIsTable(s.table, rows);
    forall i | 0 <= i < |s.table|
      ensures NoUndefined(s.written[i]) <==> WrittenPreimage(env, s, i) == Preimage(env, s.table, i)
      ensures LinkOk(env, s.table, i) <==> env.hash(WrittenPreimage(env, s, i)) == env.hash(Preimage(env, s.table, i))
    {
      assert RowOk(env, s.table, s.written, i);
      var l, at, p := s.written[i], s.table[i].createdAt, PrevHash(s.table, i);
      CopyPrintsAlike(env, l, at);
      if p + Payload(env, StoredEntry(l), at) == p + Payload(env, l.entry, at) {
        CancelPrefix(p, Payload(env, StoredEntry(l), at), Payload(env, l.entry, at));
      }
    }
  }

  // ----- a caller that passes undefined --------------------------------------------------------

  /** The review of a data record without notes: its `notes` member is undefined. */
  function ReviewWithoutNotes(): Json {
    Obj([Keyed("reviewStatus", Str("CLEARED")), Keyed("notes", Undefined)])
  }

  /** Such an entry is hashed over a member that the column does not keep: the written digest is not the
      one the checker recomputes, unless the two texts collide. */
  lemma ReviewWithoutNotesIsNotReproducible(env: Env, l: Live, createdAt: int)
    requires Stores(l) && IsoInjective(env) && l.entry.afterJson == ReviewWithoutNotes()
    ensures Payload(env, StoredEntry(l), createdAt) != Payload(env, l.entry, createdAt)
  {
    CopyPrintsAlike(env, l, createdAt);
    assert l.entry.afterJson.members[1].value == Undefined;
  }
}
