/**
 Backfilling blind indexes and ciphertext on data records: a keyset-paged loop that writes each page of
 patches in one UPDATE and may be stopped after any page. Fresh IVs are arbitrary.
 */
module Backfill {
  import opened Wrappers
  import opened Crypto

  datatype Col = Bvn | Nin | Account | Phone | BvnIndex | NinIndex | AccountIndex

  /** A record: its id in collation order, and the columns that are not null. */
  datatype Row = Row(id: nat, cols: map<Col, string>)

  type Patch = map<Col, string>
  datatype Update = Update(id: nat, cols: Patch)

  /** The cipher, and the keyed digest of a trimmed value. */
  datatype Setup = Setup(env: Env, index: string -> string, indexesOnly: bool)

  ghost predicate SetupOk(p: Setup) {
    && CipherOk(p.env) && '.' !in p.env.active
    && forall v {:trigger p.index(v)} :: p.index(v) != ""
  }

  function Get(row: Row, c: Col): Option<string> {
    if c in row.cols then Some(row.cols[c]) else None
  }

  /** Not null and not empty. */
  predicate Present(row: Row, c: Col) {
    c in row.cols && row.cols[c] != ""
  }

  /** SQL `LIKE 'v_.%'`. */
  predicate LikeV(s: string) {
    |s| >= 3 && s[0] == 'v' && s[2] == '.'
  }

  /** The script's own test for a ciphertext. */
  predicate IsCiphertext(s: string) {
    |s| >= 3 && s[0] == 'v' && (s[1] == '1' || s[1] == '2') && s[2] == '.'
  }

  function IndexOf(c: Col): Col {
    match c case Bvn => BvnIndex case Nin => NinIndex case _ => AccountIndex
  }

  /** One identifier's clause of the pending query. */
  predicate ClausePending(p: Setup, row: Row, c: Col) {
    c in row.cols && (IndexOf(c) !in row.cols || (!p.indexesOnly && !LikeV(row.cols[c])))
  }

  predicate Pending(p: Setup, row: Row) {
    || ClausePending(p, row, Bvn) || ClausePending(p, row, Nin)
    || (!p.indexesOnly && ClausePending(p, row, Account))
    || (!p.indexesOnly && Phone in row.cols && !LikeV(row.cols[Phone]))
  }

  /** The decrypted value of a column when there is one to work with. */
  function Plain(p: Setup, row: Row, c: Col): Option<string>
    requires p.env.active in p.env.keys
  {
    if !Present(row, c) then None
    else
      var d := Decrypt(p.env, Some(row.cols[c]));
      if d.Some? && d.value != "" then d else None
  }

  function EncryptWith(p: Setup, iv: Iv, plain: string): string
    requires p.env.active in p.env.keys && plain != ""
  {
    Encrypt(p.env, iv, Some(plain)).value
  }

  /** What the script writes for an indexed identifier: the index if it has none, the ciphertext if it is clear. */
  function IdPatch(p: Setup, row: Row, c: Col, iv: Iv): Patch
    requires p.env.active in p.env.keys
  {
    var plain := Plain(p, row, c);
    if plain.None? then map[]
    else
      (if Present(row, IndexOf(c)) then map[] else map[IndexOf(c) := p.index(plain.value)]) +
      (if p.indexesOnly || IsCiphertext(row.cols[c]) then map[] else map[c := EncryptWith(p, iv, plain.value)])
  }

  function PhonePatch(p: Setup, row: Row, iv: Iv): Patch
    requires p.env.active in p.env.keys
  {
    var plain := Plain(p, row, Phone);
    if p.indexesOnly || plain.None? || IsCiphertext(row.cols[Phone]) then map[]
    else map[Phone := EncryptWith(p, iv, plain.value)]
  }

  datatype Ivs = Ivs(bvn: Iv, nin: Iv, account: Iv, phone: Iv)

  function PatchOf(p: Setup, row: Row, ivs: Ivs): Patch
    requires p.env.active in p.env.keys
  {
    IdPatch(p, row, Bvn, ivs.bvn) + IdPatch(p, row, Nin, ivs.nin) + IdPatch(p, row, Account, ivs.account) +
    PhonePatch(p, row, ivs.phone)
  }

  function Apply(row: Row, patch: Patch): Row {
    row.(cols := row.cols + patch)
  }

  // ----- one UPDATE for a batch ----------------------------------------------------------------

  predicate DistinctIds(us: seq<Update>) {
    forall i, j | 0 <= i < j < |us| :: us[i].id != us[j].id
  }

  /** Per-row patches, one after another. */
  function ApplyOne(rows: seq<Row>, u: Update): seq<Row> {
    if rows == [] then [] else [if rows[0].id == u.id then Apply(rows[0], u.cols) else rows[0]] + ApplyOne(rows[1..], u)
  }

  function ApplyAll(rows: seq<Row>, us: seq<Update>): seq<Row>
    decreases |us|
  {
    if us == [] then rows else ApplyAll(ApplyOne(rows, us[0]), us[1..])
  }

  /** The joined values of a row, when the batch has a tuple for it. */
  function Joined(us: seq<Update>, id: nat): Option<Patch> {
    if us == [] then None else if us[0].id == id then Some(us[0].cols) else Joined(us[1..], id)
  }

  /** SET c = COALESCE(v.c, d.c) for the columns some patch of the batch names. */
  function SetColumns(row: Row, v: Patch, present: set<Col>): Row {
    row.(cols := map c | c in present + row.cols.Keys && (c in row.cols || c in v) ::
      if c in present && c in v then v[c] else if c in row.cols then row.cols[c] else "")
  }

  function Statement(rows: seq<Row>, us: seq<Update>, present: set<Col>): seq<Row> {
    if rows == [] then []
    else
      var v := Joined(us, rows[0].id);
      [if v.Some? then SetColumns(rows[0], v.value, present) else rows[0]] + Statement(rows[1..], us, present)
  }

  lemma SetColumnsIsApply(row: Row, v: Patch, present: set<Col>)
    requires v.Keys <= present
    ensures SetColumns(row, v, present) == Apply(row, v)
  {
  }

  /** The fold, seen from one row. */
  function RowAfter(row: Row, us: seq<Update>): Row
    decreases |us|
  {
    if us == [] then row else RowAfter(if row.id == us[0].id then Apply(row, us[0].cols) else row, us[1..])
  }

  lemma {:induction false} ApplyAllRows(rows: seq<Row>, us: seq<Update>)
    ensures |ApplyAll(rows, us)| == |rows|
    ensures forall i | 0 <= i < |rows| :: ApplyAll(rows, us)[i] == RowAfter(rows[i], us)
    decreases |us|
  {
    if us != [] {
      ApplyOneRows(rows, us[0]);
      ApplyAllRows(ApplyOne(rows, us[0]), us[1..]);
    }
  }

  lemma ApplyOneRows(rows: seq<Row>, u: Update)
    ensures |ApplyOne(rows, u)| == |rows|
    ensures forall i | 0 <= i < |rows| ::
              ApplyOne(rows, u)[i] == if rows[i].id == u.id then Apply(rows[i], u.cols) else rows[i]
  {
    if rows != [] {
      ApplyOneRows(rows[1..], u);
      forall i | 0 < i < |rows|
        ensures ApplyOne(rows, u)[i] == if rows[i].id == u.id then Apply(rows[i], u.cols) else rows[i]
      {
        assert rows[i] == rows[1..][i - 1];
      }
    }
  }

  lemma JoinedNone(us: seq<Update>, id: nat)
    requires forall i | 0 <= i < |us| :: us[i].id != id
    ensures Joined(us, id) == None
  {
  }

  lemma {:induction false} RowAfterJoined(row: Row, us: seq<Update>)
    requires DistinctIds(us)
    ensures RowAfter(row, us) == var v := Joined(us, row.id); if v.Some? then Apply(row, v.value) else row
    decreases |us|
  {
    if us != [] {
      if row.id == us[0].id {
        JoinedNone(us[1..], row.id);
        RowAfterJoined(Apply(row, us[0].cols), us[1..]);
      } else {
        RowAfterJoined(row, us[1..]);
      }
    }
  }

  predicate Covers(us: seq<Update>, present: set<Col>) {
    forall i | 0 <= i < |us| :: us[i].cols.Keys <= present
  }

  lemma JoinedCovered(us: seq<Update>, present: set<Col>, id: nat)
    requires Covers(us, present) && Joined(us, id).Some?
    ensures Joined(us, id).value.Keys <= present
  {
    if us[0].id != id { JoinedCovered(us[1..], present, id); }
  }

  /** One UPDATE with unnest and COALESCE is the per-row patches applied one by one. */
  lemma StatementIsPatches(rows: seq<Row>, us: seq<Update>, present: set<Col>)
    requires DistinctIds(us) && Covers(us, present)
    ensures Statement(rows, us, present) == ApplyAll(rows, us)
  {
    ApplyAllRows(rows, us);
    StatementRows(rows, us, present);
    forall i | 0 <= i < |rows| ensures Statement(rows, us, present)[i] == ApplyAll(rows, us)[i] {
      RowAfterJoined(rows[i], us);
      if Joined(us, rows[i].id).Some? {
        JoinedCovered(us, present, rows[i].id);
        SetColumnsIsApply(rows[i], Joined(us, rows[i].id).value, present);
      }
    }
  }

  lemma StatementRows(rows: seq<Row>, us: seq<Update>, present: set<Col>)
    ensures |Statement(rows, us, present)| == |rows|
    ensures forall i | 0 <= i < |rows| :: Statement(rows, us, present)[i] ==
              var v := Joined(us, rows[i].id); if v.Some? then SetColumns(rows[i], v.value, present) else rows[i]
  {
    hide SetColumns;
    if rows != [] {
      StatementRows(rows[1..], us, present);
      var all, more := Statement(rows, us, present), Statement(rows[1..], us, present);
      assert forall i | 0 < i < |rows| :: rows[i] == rows[1..][i - 1] && all[i] == more[i - 1];
    }
  }

  // ----- pages ---------------------------------------------------------------------------------

  const BATCH := 4000

  predicate SortedById(rows: seq<Row>) {
    forall i, j | 0 <= i < j < |rows| :: rows[i].id < rows[j].id
  }

  /** WHERE id > cursor AND pending ORDER BY id LIMIT n, over rows in id order. */
  function Page(p: Setup, rows: seq<Row>, cursor: int, n: nat): seq<Row> {
    if rows == [] || n == 0 then []
    else if rows[0].id > cursor && Pending(p, rows[0]) then [rows[0]] + Page(p, rows[1..], cursor, n - 1)
    else Page(p, rows[1..], cursor, n)
  }

  /** Pending rows with an id above `lo` and up to `hi`. */
  function PendingBetween(p: Setup, rows: seq<Row>, lo: int, hi: int): nat {
    if rows == [] then 0
    else (if lo < rows[0].id <= hi && Pending(p, rows[0]) then 1 else 0) + PendingBetween(p, rows[1..], lo, hi)
  }

  lemma SortedCons(h: Row, more: seq<Row>)
    ensures SortedById([h] + more) <==> SortedById(more) && forall r | r in more :: h.id < r.id
  {
    var all := [h] + more;
    assert all[0] == h;
    assert forall i | 0 < i < |all| :: all[i] == more[i - 1];
    assert forall i | 0 <= i < |more| :: more[i] == all[i + 1];
  }

  lemma {:induction false} PageMembers(p: Setup, rows: seq<Row>, cursor: int, n: nat)
    requires SortedById(rows)
    ensures SortedById(Page(p, rows, cursor, n))
    ensures forall r | r in Page(p, rows, cursor, n) :: r in rows && r.id > cursor && Pending(p, r)
    decreases |rows|
  {
    hide Pending, SortedById;
    if rows != [] && n > 0 {
      assert rows == [rows[0]] + rows[1..];
      SortedCons(rows[0], rows[1..]);
      if rows[0].id > cursor && Pending(p, rows[0]) {
        PageMembers(p, rows[1..], cursor, n - 1);
        SortedCons(rows[0], Page(p, rows[1..], cursor, n - 1));
      } else {
        PageMembers(p, rows[1..], cursor, n);
      }
    } else {
      Trivially();
    }
  }

  lemma Trivially()
    ensures SortedById([])
  {
  }

  /** A page misses no pending row up to its last id, and an empty page means there is none left. */
  lemma {:induction false} PageComplete(p: Setup, rows: seq<Row>, cursor: int, n: nat, r: Row)
    requires SortedById(rows) && n > 0 && r in rows && r.id > cursor && Pending(p, r)
    ensures var page := Page(p, rows, cursor, n); page != [] && (r.id <= page[|page| - 1].id ==> r in page)
    decreases |rows|
  {
    hide Pending, SortedById;
    var h, more := rows[0], rows[1..];
    assert rows == [h] + more;
    SortedCons(h, more);
    if h.id > cursor && Pending(p, h) {
      var rest := Page(p, more, cursor, n - 1);
      assert Page(p, rows, cursor, n) == [h] + rest;
      if r != h && n > 1 {
        PageComplete(p, more, cursor, n - 1, r);
        assert ([h] + rest)[|rest|] == rest[|rest| - 1];
      }
    } else {
      PageComplete(p, more, cursor, n, r);
    }
  }

  lemma {:induction false} PageCount(p: Setup, rows: seq<Row>, cursor: int, n: nat)
    requires SortedById(rows)
    ensures var page := Page(p, rows, cursor, n);
            page != [] ==> |page| == PendingBetween(p, rows, cursor, page[|page| - 1].id)
    decreases |rows|
  {
    hide Pending, SortedById;
    if rows != [] && n > 0 {
      var h, more := rows[0], rows[1..];
      assert rows == [h] + more;
      SortedCons(h, more);
      if h.id > cursor && Pending(p, h) {
        var rest := Page(p, more, cursor, n - 1);
        PageCount(p, more, cursor, n - 1);
        PageMembers(p, more, cursor, n - 1);
        if rest == [] {
          NothingBetween(p, more, cursor, h.id);
        } else {
          assert ([h] + rest)[|rest|] == rest[|rest| - 1] && rest[|rest| - 1] in rest;
        }
      } else {
        PageCount(p, more, cursor, n);
      }
    }
  }

  lemma PageFacts(p: Setup, rows: seq<Row>, cursor: int, n: nat)
    requires SortedById(rows) && n > 0
    ensures var page := Page(p, rows, cursor, n);
            && SortedById(page)
            && (forall r | r in page :: r in rows && r.id > cursor && Pending(p, r))
            && (page == [] ==> forall r | r in rows && r.id > cursor :: !Pending(p, r))
            && (page != [] ==> forall r | r in rows && cursor < r.id <= page[|page| - 1].id && Pending(p, r) ::
                  r in page)
            && (page != [] ==> |page| == PendingBetween(p, rows, cursor, page[|page| - 1].id))
  {
    hide Pending, SortedById, Page, PendingBetween;
    PageMembers(p, rows, cursor, n);
    PageCount(p, rows, cursor, n);
    var page := Page(p, rows, cursor, n);
    forall r | r in rows && r.id > cursor && Pending(p, r)
      ensures page != [] && (r.id <= page[|page| - 1].id ==> r in page)
    {
      PageComplete(p, rows, cursor, n, r);
    }
  }

  lemma NothingBetween(p: Setup, rows: seq<Row>, lo: int, hi: int)
    requires forall r | r in rows :: r.id > hi
    ensures PendingBetween(p, rows, lo, hi) == 0
  {
    if rows != [] {
      assert rows[0] in rows;
      assert forall r | r in rows[1..] :: r in rows;
      NothingBetween(p, rows[1..], lo, hi);
    }
  }

  /** The updates of a page: rows with an empty patch are left out. */
  function UpdatesOf(p: Setup, page: seq<Row>, ivs: seq<Ivs>): seq<Update>
    requires p.env.active in p.env.keys && |ivs| == |page|
  {
    if page == [] then []
    else
      var n := |page| - 1;
      var patch := PatchOf(p, page[n], ivs[n]);
      var us := UpdatesOf(p, page[..n], ivs[..n]);
      if patch == map[] then us else us + [Update(page[n].id, patch)]
  }

  lemma JoinedAppend(us: seq<Update>, u: Update, id: nat)
    ensures Joined(us + [u], id) == if Joined(us, id).Some? then Joined(us, id) else if u.id == id then Some(u.cols)
            else None
  {
    if us == [] {
      assert us + [u] == [u];
    } else {
      assert (us + [u])[1..] == us[1..] + [u];
      JoinedAppend(us[1..], u, id);
    }
  }

  lemma {:induction false} UpdatesOfIds(p: Setup, page: seq<Row>, ivs: seq<Ivs>)
    requires p.env.active in p.env.keys && |ivs| == |page| && SortedById(page)
    ensures var us := UpdatesOf(p, page, ivs);
            && DistinctIds(us)
            && (forall k | 0 <= k < |us| :: exists r | r in page :: r.id == us[k].id)
    decreases |page|
  {
    hide PatchOf;
    if page != [] {
      var n := |page| - 1;
      UpdatesOfIds(p, page[..n], ivs[..n]);
      assert forall r | r in page[..n] :: r in page && r.id < page[n].id;
    }
  }

  lemma {:induction false} NoTuple(p: Setup, page: seq<Row>, ivs: seq<Ivs>, id: nat)
    requires p.env.active in p.env.keys && |ivs| == |page|
    requires forall r | r in page :: r.id != id
    ensures Joined(UpdatesOf(p, page, ivs), id) == None
    decreases |page|
  {
    hide PatchOf;
    if page != [] {
      var n := |page| - 1;
      assert forall r | r in page[..n] :: r in page;
      NoTuple(p, page[..n], ivs[..n], id);
      assert page[n] in page;
      JoinedAppend(UpdatesOf(p, page[..n], ivs[..n]), Update(page[n].id, PatchOf(p, page[n], ivs[n])), id);
    }
  }

  /** The tuple of a page row carries its patch; an empty patch has no tuple. */
  lemma {:induction false} TupleOf(p: Setup, page: seq<Row>, ivs: seq<Ivs>, k: nat)
    requires p.env.active in p.env.keys && |ivs| == |page| && SortedById(page) && k < |page|
    ensures var patch := PatchOf(p, page[k], ivs[k]);
            Joined(UpdatesOf(p, page, ivs), page[k].id) == if patch == map[] then None else Some(patch)
    decreases |page|
  {
    hide PatchOf;
    var n := |page| - 1;
    var us := UpdatesOf(p, page[..n], ivs[..n]);
    JoinedAppend(us, Update(page[n].id, PatchOf(p, page[n], ivs[n])), page[k].id);
    if k == n {
      NoTuple(p, page[..n], ivs[..n], page[n].id);
    } else {
      TupleOf(p, page[..n], ivs[..n], k);
      assert page[..n][k] == page[k] && ivs[..n][k] == ivs[k];
    }
  }

  // ----- the loop ------------------------------------------------------------------------------

  /** What a completed visit leaves of a row: a pending row gets its patch, under some IVs. */
  ghost predicate Fixed(p: Setup, before: Row, after: Row)
    requires p.env.active in p.env.keys
  {
    if Pending(p, before) then exists ivs: Ivs :: after == Apply(before, PatchOf(p, before, ivs)) else after == before
  }

  /** Rows up to the cursor are done, the others untouched. */
  ghost predicate FixedUpTo(p: Setup, before: seq<Row>, after: seq<Row>, cursor: int)
    requires p.env.active in p.env.keys
  {
    && |after| == |before|
    && forall i | 0 <= i < |before| ::
         && after[i].id == before[i].id
         && (before[i].id <= cursor ==> Fixed(p, before[i], after[i]))
         && (before[i].id > cursor ==> after[i] == before[i])
  }

  /** Above the cursor nothing has changed, and ids never do. */
  ghost predicate Untouched(before: seq<Row>, now: seq<Row>, cursor: int) {
    && |now| == |before|
    && forall i | 0 <= i < |before| :: now[i].id == before[i].id && (before[i].id > cursor ==> now[i] == before[i])
  }

  lemma FixedLeavesRest(p: Setup, before: seq<Row>, now: seq<Row>, cursor: int)
    requires p.env.active in p.env.keys && FixedUpTo(p, before, now, cursor)
    ensures Untouched(before, now, cursor)
  {
    hide Fixed;
  }

  ghost predicate NonePendingAbove(p: Setup, rows: seq<Row>, cursor: int) {
    forall i | 0 <= i < |rows| && rows[i].id > cursor :: !Pending(p, rows[i])
  }

  lemma NoneAbove(p: Setup, before: seq<Row>, now: seq<Row>, cursor: int)
    requires Untouched(before, now, cursor)
    requires forall r | r in now && r.id > cursor :: !Pending(p, r)
    ensures NonePendingAbove(p, before, cursor)
  {
    hide Pending;
    forall i | 0 <= i < |before| && before[i].id > cursor ensures !Pending(p, before[i]) {
      assert now[i] in now;
    }
  }

  ghost function HighestId(rows: seq<Row>): int {
    if rows == [] then -1 else rows[|rows| - 1].id
  }

  lemma BelowHighest(rows: seq<Row>, r: Row)
    requires SortedById(rows) && r in rows
    ensures r.id <= HighestId(rows)
  {
  }

  class RecordTable {
    var rows: seq<Row>

    constructor (initial: seq<Row>)
      ensures rows == initial
    {
      rows := initial;
    }

    /** `bulkUpdate`: collect the columns the batch names, then one statement. */
    method BulkUpdate(us: seq<Update>)
      requires DistinctIds(us)
      modifies this
      ensures rows == ApplyAll(old(rows), us)
    {
      var present: set<Col> := {};
      for i := 0 to |us|
        invariant Covers(us[..i], present)
      {
        present := present + us[i].cols.Keys;
        assert forall k | 0 <= k <= i :: us[..i + 1][k] == us[k];
        assert forall k | 0 <= k < i :: us[..i][k] == us[k];
      }
      assert us[..|us|] == us;
      StatementIsPatches(rows, us, present);
      if present == {} {
        NoColumns(rows, us);
        return;
      }
      rows := Statement(rows, us, present);
    }

    /** The patches of one page, each under IVs of its own. */
    method Patches(p: Setup, page: seq<Row>) returns (updates: seq<Update>, ghost ivs: seq<Ivs>)
      requires p.env.active in p.env.keys
      ensures |ivs| == |page| && updates == UpdatesOf(p, page, ivs)
    {
      hide PatchOf;
      updates, ivs := [], [];
      for k := 0 to |page|
        invariant |ivs| == k && updates == UpdatesOf(p, page[..k], ivs)
      {
        var iv: Ivs :| true;
        var cols := PatchOf(p, page[k], iv);
        assert page[..k + 1][..k] == page[..k] && (ivs + [iv])[..k] == ivs;
        if cols != map[] { updates := updates + [Update(page[k].id, cols)]; }
        ivs := ivs + [iv];
      }
      assert page[..|page|] == page;
    }

    /** One round of the loop: everything up to the page's last id is now done. */
    method Batch(p: Setup, dryRun: bool, page: seq<Row>, ghost before: seq<Row>, ghost cursor: int)
      requires p.env.active in p.env.keys && SortedById(rows)
      requires page == Page(p, rows, cursor, BATCH) && page != []
      requires !dryRun ==> FixedUpTo(p, before, rows, cursor)
      modifies this
      ensures SortedById(rows)
      ensures dryRun ==> rows == old(rows)
      ensures !dryRun ==> FixedUpTo(p, before, rows, page[|page| - 1].id)
    {
      hide Pending, PatchOf, Page, UpdatesOf, ApplyAll, FixedUpTo, SortedById, PendingBetween;
      var updates, ivs := Patches(p, page);
      PageFacts(p, rows, cursor, BATCH);
      UpdatesOfIds(p, page, ivs);
      NothingToApply(rows);
      if !dryRun { PageDone(p, before, rows, page, ivs, cursor); }
      if updates != [] && !dryRun { BulkUpdate(updates); }
    }

    /** The main loop. `stopAfter` models an interruption: at most that many batches are written. */
    method Run(p: Setup, dryRun: bool, stopAfter: Option<nat>) returns (scanned: nat, ghost cursorAt: int)
      requires p.env.active in p.env.keys && SortedById(rows)
      modifies this
      ensures dryRun ==> rows == old(rows)
      ensures !dryRun ==> FixedUpTo(p, old(rows), rows, cursorAt)
      ensures scanned == PendingBetween(p, old(rows), -1, cursorAt)
      ensures stopAfter == None ==> NonePendingAbove(p, old(rows), cursorAt)
    {
      hide Pending, PatchOf, Page, PendingBetween, ApplyAll, SortedById, Fixed;
      var cursor: int := -1;
      scanned := 0;
      var batches := 0;
      ghost var before := rows;
      Nobody(p, rows);
      while stopAfter.None? || batches < stopAfter.value
        invariant cursor >= -1 && SortedById(rows)
        invariant Untouched(before, rows, cursor)
        invariant if dryRun then rows == before else FixedUpTo(p, before, rows, cursor)
        invariant scanned == PendingBetween(p, before, -1, cursor)
        decreases HighestId(before) - cursor
      {
        var page := Page(p, rows, cursor, BATCH);
        PageFacts(p, rows, cursor, BATCH);
        if page == [] {
          NoneAbove(p, before, rows, cursor);
          break;
        }
        var next := page[|page| - 1].id;
        assert page[|page| - 1] in page;
        BelowHighest(rows, page[|page| - 1]);
        SameAbove(p, before, rows, cursor, next);
        Between(p, before, -1, cursor, next);
        scanned := scanned + |page|;
        Batch(p, dryRun, page, before, cursor);
        if !dryRun { FixedLeavesRest(p, before, rows, next); }
        cursor := next;
        batches := batches + 1;
      }
      cursorAt := cursor;
    }
  }

  lemma NothingToApply(rows: seq<Row>)
    ensures ApplyAll(rows, []) == rows
  {
  }

  lemma NoColumns(rows: seq<Row>, us: seq<Update>)
    requires Covers(us, {})
    ensures Statement(rows, us, {}) == rows
  {
    StatementRows(rows, us, {});
    assert forall i | 0 <= i < |rows| :: SetColumns(rows[i], map[], {}) == rows[i];
    forall i | 0 <= i < |rows| ensures Statement(rows, us, {})[i] == rows[i] {
      if Joined(us, rows[i].id).Some? { JoinedCovered(us, {}, rows[i].id); }
    }
  }

  lemma Nobody(p: Setup, rows: seq<Row>)
    ensures PendingBetween(p, rows, -1, -1) == 0
  {
  }

  /** Rows above the cursor are still as they were, so they count as they did. */
  lemma {:induction false} SameAbove(p: Setup, before: seq<Row>, now: seq<Row>, cursor: int, hi: int)
    requires Untouched(before, now, cursor)
    ensures PendingBetween(p, now, cursor, hi) == PendingBetween(p, before, cursor, hi)
    decreases |before|
  {
    hide Pending;
    if before != [] {
      SameAbove(p, before[1..], now[1..], cursor, hi);
    }
  }

  lemma Between(p: Setup, rows: seq<Row>, lo: int, mid: int, hi: int)
    requires lo <= mid <= hi
    ensures PendingBetween(p, rows, lo, hi) == PendingBetween(p, rows, lo, mid) + PendingBetween(p, rows, mid, hi)
  {
    hide Pending;
    if rows != [] { Between(p, rows[1..], lo, mid, hi); }
  }

  lemma ApplyNothing(r: Row)
    ensures Apply(r, map[]) == r
  {
    assert r.cols + map[] == r.cols;
  }

  lemma PageRowDone(p: Setup, page: seq<Row>, ivs: seq<Ivs>, k: nat)
    requires p.env.active in p.env.keys && SortedById(page) && |ivs| == |page| && k < |page|
    ensures RowAfter(page[k], UpdatesOf(p, page, ivs)) == Apply(page[k], PatchOf(p, page[k], ivs[k]))
  {
    hide PatchOf, RowAfter, Joined, UpdatesOf, SortedById;
    UpdatesOfIds(p, page, ivs);
    RowAfterJoined(page[k], UpdatesOf(p, page, ivs));
    ApplyNothing(page[k]);
    TupleOf(p, page, ivs, k);
  }

  lemma OtherRowDone(p: Setup, page: seq<Row>, ivs: seq<Ivs>, r: Row)
    requires p.env.active in p.env.keys && SortedById(page) && |ivs| == |page|
    requires forall q | q in page :: q.id != r.id
    ensures RowAfter(r, UpdatesOf(p, page, ivs)) == r
  {
    hide PatchOf, RowAfter, Joined, UpdatesOf, SortedById;
    UpdatesOfIds(p, page, ivs);
    RowAfterJoined(r, UpdatesOf(p, page, ivs));
    NoTuple(p, page, ivs, r.id);
  }

  /** One row of a batch: a pending row up to the page's last id is patched, any other is left alone. */
  lemma RowDone(p: Setup, rows: seq<Row>, page: seq<Row>, ivs: seq<Ivs>, cursor: int, r: Row)
    requires p.env.active in p.env.keys && SortedById(rows) && r in rows
    requires page == Page(p, rows, cursor, BATCH) && page != [] && |ivs| == |page|
    ensures var after := RowAfter(r, UpdatesOf(p, page, ivs));
            && after.id == r.id
            && (cursor < r.id <= page[|page| - 1].id ==> Fixed(p, r, after))
            && (r.id <= cursor || r.id > page[|page| - 1].id ==> after == r)
  {
    hide Pending, PatchOf, Page, RowAfter, UpdatesOf, PendingBetween;
    PageFacts(p, rows, cursor, BATCH);
    if r in page {
      var k :| 0 <= k < |page| && page[k] == r;
      PageRowDone(p, page, ivs, k);
      ApplyKeepsId(r, PatchOf(p, r, ivs[k]));
    } else {
      forall q | q in page ensures q.id != r.id {
        assert q in rows;
      }
      OtherRowDone(p, page, ivs, r);
    }
  }

  /** One batch moves the frontier from the cursor to the last id of its page. */
  lemma PageDone(p: Setup, before: seq<Row>, rows: seq<Row>, page: seq<Row>, ivs: seq<Ivs>, cursor: int)
    requires p.env.active in p.env.keys && SortedById(rows)
    requires FixedUpTo(p, before, rows, cursor)
    requires page == Page(p, rows, cursor, BATCH) && page != [] && |ivs| == |page|
    ensures var after := ApplyAll(rows, UpdatesOf(p, page, ivs));
            SortedById(after) && FixedUpTo(p, before, after, page[|page| - 1].id)
  {
    hide Pending, PatchOf, Page, RowAfter, ApplyAll, UpdatesOf, Fixed, PendingBetween;
    var us := UpdatesOf(p, page, ivs);
    var after, next := ApplyAll(rows, us), page[|page| - 1].id;
    ApplyAllRows(rows, us);
    PageFacts(p, rows, cursor, BATCH);
    assert page[|page| - 1] in page;
    forall i | 0 <= i < |rows|
      ensures after[i].id == before[i].id
      ensures before[i].id <= next ==> Fixed(p, before[i], after[i])
      ensures before[i].id > next ==> after[i] == before[i]
    {
      assert rows[i] in rows;
      RowDone(p, rows, page, ivs, cursor, rows[i]);
    }
  }

  // ----- one visit, column by column -------------------------------------------------------------

  function ValueAfter(p: Setup, row: Row, c: Col, iv: Iv): Option<string>
    requires p.env.active in p.env.keys
  {
    var plain := Plain(p, row, c);
    if p.indexesOnly || plain.None? || IsCiphertext(row.cols[c]) then Get(row, c)
    else Some(EncryptWith(p, iv, plain.value))
  }

  function IndexAfter(p: Setup, row: Row, c: Col): Option<string>
    requires p.env.active in p.env.keys
  {
    var plain := Plain(p, row, c);
    if plain.None? || Present(row, IndexOf(c)) then Get(row, IndexOf(c)) else Some(p.index(plain.value))
  }

  ghost predicate ColumnsAfter(p: Setup, row: Row, after: Row, ivs: Ivs)
    requires p.env.active in p.env.keys
  {
    && after.id == row.id
    && Get(after, Bvn) == ValueAfter(p, row, Bvn, ivs.bvn) && Get(after, BvnIndex) == IndexAfter(p, row, Bvn)
    && Get(after, Nin) == ValueAfter(p, row, Nin, ivs.nin) && Get(after, NinIndex) == IndexAfter(p, row, Nin)
    && Get(after, Account) == ValueAfter(p, row, Account, ivs.account)
    && Get(after, AccountIndex) == IndexAfter(p, row, Account)
    && Get(after, Phone) == ValueAfter(p, row, Phone, ivs.phone)
  }

  lemma SameColumns(a: Row, b: Row)
    requires a.id == b.id && forall c: Col :: Get(a, c) == Get(b, c)
    ensures a == b
  {
    forall c: Col ensures (c in a.cols <==> c in b.cols) && (c in a.cols ==> a.cols[c] == b.cols[c]) {
      assert Get(a, c) == Get(b, c);
    }
    assert a.cols == b.cols;
  }

  lemma ApplyIdPatch(p: Setup, row: Row, c: Col, iv: Iv)
    requires p.env.active in p.env.keys && c in {Bvn, Nin, Account}
    ensures var m := IdPatch(p, row, c, iv);
            && m.Keys <= {c, IndexOf(c)}
            && Get(Apply(row, m), c) == ValueAfter(p, row, c, iv)
            && Get(Apply(row, m), IndexOf(c)) == IndexAfter(p, row, c)
  {
    hide Plain, EncryptWith, IsCiphertext;
  }

  lemma ApplyPhonePatch(p: Setup, row: Row, iv: Iv)
    requires p.env.active in p.env.keys
    ensures var m := PhonePatch(p, row, iv);
            m.Keys <= {Phone} && Get(Apply(row, m), Phone) == ValueAfter(p, row, Phone, iv)
  {
    hide Plain, EncryptWith, IsCiphertext;
  }

  predicate AgreeAt(m: Patch, k: Patch, c: Col) {
    (c in m <==> c in k) && (c in m ==> m[c] == k[c])
  }

  lemma GetPatched(row: Row, m: Patch, k: Patch, c: Col)
    requires AgreeAt(m, k, c)
    ensures Get(Apply(row, m), c) == Get(Apply(row, k), c)
  {
  }

  lemma DisjointPatches(b: Patch, n: Patch, a: Patch, f: Patch)
    requires b.Keys <= {Bvn, BvnIndex} && n.Keys <= {Nin, NinIndex} && a.Keys <= {Account, AccountIndex}
             && f.Keys <= {Phone}
    ensures var m := b + n + a + f;
            && AgreeAt(m, b, Bvn) && AgreeAt(m, b, BvnIndex) && AgreeAt(m, n, Nin) && AgreeAt(m, n, NinIndex)
            && AgreeAt(m, a, Account) && AgreeAt(m, a, AccountIndex) && AgreeAt(m, f, Phone)
  {
    assert Bvn !in n.Keys && Bvn !in a.Keys && Bvn !in f.Keys && BvnIndex !in n.Keys && BvnIndex !in a.Keys
        && BvnIndex !in f.Keys;
    assert Nin !in b.Keys && Nin !in a.Keys && Nin !in f.Keys && NinIndex !in b.Keys && NinIndex !in a.Keys
        && NinIndex !in f.Keys;
    assert Account !in b.Keys && Account !in n.Keys && Account !in f.Keys;
    assert AccountIndex !in b.Keys && AccountIndex !in n.Keys && AccountIndex !in f.Keys;
    assert Phone !in b.Keys && Phone !in n.Keys && Phone !in a.Keys;
  }

  lemma ApplyKeepsId(row: Row, m: Patch)
    ensures Apply(row, m).id == row.id
  {
  }

  lemma PatchColumns(p: Setup, row: Row, ivs: Ivs)
    requires p.env.active in p.env.keys
    ensures ColumnsAfter(p, row, Apply(row, PatchOf(p, row, ivs)), ivs)
  {
    hide IdPatch, PhonePatch, ValueAfter, IndexAfter;
    ApplyIdPatch(p, row, Bvn, ivs.bvn);
    ApplyIdPatch(p, row, Nin, ivs.nin);
    ApplyIdPatch(p, row, Account, ivs.account);
    ApplyPhonePatch(p, row, ivs.phone);
    var b, n := IdPatch(p, row, Bvn, ivs.bvn), IdPatch(p, row, Nin, ivs.nin);
    var a, f := IdPatch(p, row, Account, ivs.account), PhonePatch(p, row, ivs.phone);
    DisjointPatches(b, n, a, f);
    var m := PatchOf(p, row, ivs);
    hide AgreeAt, Apply;
    GetPatched(row, m, b, Bvn);
    GetPatched(row, m, b, BvnIndex);
    GetPatched(row, m, n, Nin);
    GetPatched(row, m, n, NinIndex);
    GetPatched(row, m, a, Account);
    GetPatched(row, m, a, AccountIndex);
    GetPatched(row, m, f, Phone);
    assert Apply(row, m).id == row.id by { ApplyKeepsId(row, m); }
  }

  lemma ColumnsDetermine(p: Setup, row: Row, x: Row, y: Row, ivs: Ivs)
    requires p.env.active in p.env.keys && ColumnsAfter(p, row, x, ivs) && ColumnsAfter(p, row, y, ivs)
    ensures x == y
  {
    hide ValueAfter, IndexAfter;
    forall c: Col ensures Get(x, c) == Get(y, c) {
      match c case Bvn => case Nin => case Account => case Phone =>
        case BvnIndex => case NinIndex => case AccountIndex =>
    }
    SameColumns(x, y);
  }

  lemma EncryptedLooksEncrypted(p: Setup, iv: Iv, plain: string)
    requires SetupOk(p) && plain != ""
    ensures var e := EncryptWith(p, iv, plain); IsCiphertext(e) && LikeV(e) && Decrypt(p.env, Some(e)) == Some(plain)
  {
    DecryptUndoesEncrypt(p.env, iv, plain);
    var s := p.env.seal(p.env.keys[p.env.active], iv, plain);
    assert EncryptWith(p, iv, plain) == Payload(p.env.active, s);
  }

  /** Visiting an identifier a second time finds nothing to do. */
  lemma ColumnSettled(p: Setup, row: Row, after: Row, c: Col, iv: Iv, iv2: Iv)
    requires SetupOk(p) && c in {Bvn, Nin, Account, Phone}
    requires Get(after, c) == ValueAfter(p, row, c, iv)
    ensures ValueAfter(p, after, c, iv2) == Get(after, c)
    ensures c != Phone && Get(after, IndexOf(c)) == IndexAfter(p, row, c) ==>
              IndexAfter(p, after, c) == Get(after, IndexOf(c))
  {
    hide Decrypt, EncryptWith, IsCiphertext, LikeV;
    var plain := Plain(p, row, c);
    if !p.indexesOnly && plain.Some? && !IsCiphertext(row.cols[c]) {
      EncryptedLooksEncrypted(p, iv, plain.value);
    }
    assert plain.Some? ==> p.index(plain.value) != "";
  }

  lemma SecondVisitChangesNothing(p: Setup, a: Row, b: Row, c: Row)
    requires SetupOk(p) && Fixed(p, a, b) && Fixed(p, b, c)
    ensures c == b
  {
    hide Pending, ValueAfter, IndexAfter, PatchOf, Apply, Get;
    if Pending(p, a) && Pending(p, b) {
      var ivs: Ivs :| b == Apply(a, PatchOf(p, a, ivs));
      var iws: Ivs :| c == Apply(b, PatchOf(p, b, iws));
      PatchColumns(p, a, ivs);
      PatchColumns(p, b, iws);
      ColumnSettled(p, a, b, Bvn, ivs.bvn, iws.bvn);
      ColumnSettled(p, a, b, Nin, ivs.nin, iws.nin);
      ColumnSettled(p, a, b, Account, ivs.account, iws.account);
      ColumnSettled(p, a, b, Phone, ivs.phone, iws.phone);
      assert ColumnsAfter(p, b, b, iws);
      ColumnsDetermine(p, b, b, c, iws);
    }
  }

  // ----- crash safety ----------------------------------------------------------------------------

  /** What one complete run leaves of a table. */
  ghost predicate AllFixed(p: Setup, before: seq<Row>, after: seq<Row>)
    requires p.env.active in p.env.keys
  {
    |after| == |before| && forall i | 0 <= i < |before| :: Fixed(p, before[i], after[i])
  }

  lemma CompleteRun(p: Setup, before: seq<Row>, after: seq<Row>, cursor: int)
    requires p.env.active in p.env.keys
    requires FixedUpTo(p, before, after, cursor) && NonePendingAbove(p, before, cursor)
    ensures AllFixed(p, before, after)
  {
  }

  /** What a stopped run fixed, a later one keeps; what it had not reached, the later one fixes. */
  lemma StoppedThenFixed(p: Setup, before: seq<Row>, stopped: seq<Row>, after: seq<Row>, at: int)
    requires SetupOk(p) && FixedUpTo(p, before, stopped, at) && AllFixed(p, stopped, after)
    ensures AllFixed(p, before, after)
    ensures forall i | 0 <= i < |before| && before[i].id <= at :: after[i] == stopped[i]
  {
    hide Pending, Fixed;
    forall i | 0 <= i < |before|
      ensures Fixed(p, before[i], after[i]) && (before[i].id <= at ==> after[i] == stopped[i])
    {
      assert Fixed(p, stopped[i], after[i]);
      if before[i].id <= at { SecondVisitChangesNothing(p, before[i], stopped[i], after[i]); }
    }
  }

  /** The table before and after each of several runs, every one but the last stopped wherever it was. */
  ghost predicate RunsInTurn(p: Setup, tables: seq<seq<Row>>, cursors: seq<int>)
    requires p.env.active in p.env.keys
  {
    && |cursors| > 0 && |tables| == |cursors| + 1
    && (forall k | 0 <= k < |cursors| :: FixedUpTo(p, tables[k], tables[k + 1], cursors[k]))
    && NonePendingAbove(p, tables[|cursors| - 1], cursors[|cursors| - 1])
  }

  /**
   However often the script is stopped and started again, after any batch each time, once a run gets through
   the table is one that a single uninterrupted run could have left: the same columns written, under the IVs
   that happened to be drawn. What a stopped run had done is not written again.
   */
  lemma {:induction false} InterruptedThenResumed(p: Setup, tables: seq<seq<Row>>, cursors: seq<int>)
    requires SetupOk(p) && RunsInTurn(p, tables, cursors)
    ensures AllFixed(p, tables[0], tables[|cursors|])
    ensures forall i | 0 <= i < |tables[0]| && tables[0][i].id <= cursors[0] ::
            |tables[1]| == |tables[0]| && tables[|cursors|][i] == tables[1][i]
    decreases |cursors|
  {
    hide Pending, Fixed, NonePendingAbove;
    if |cursors| == 1 {
      CompleteRun(p, tables[0], tables[1], cursors[0]);
    } else {
      InterruptedThenResumed(p, tables[1..], cursors[1..]);
      StoppedThenFixed(p, tables[0], tables[1], tables[|cursors|], cursors[0]);
    }
  }

  /** Equal columns, or two ciphertexts of one text. */
  ghost predicate SameUpToIv(p: Setup, a: Row, b: Row)
    requires p.env.active in p.env.keys
  {
    && a.id == b.id
    && forall c: Col :: Get(a, c) == Get(b, c) ||
         (c in {Bvn, Nin, Account, Phone} && Get(a, c).Some? && Get(b, c).Some?
          && Decrypt(p.env, Get(a, c)) == Decrypt(p.env, Get(b, c)))
  }

  lemma ValueSameUpToIv(p: Setup, row: Row, c: Col, iv: Iv, iv2: Iv)
    requires SetupOk(p) && c in {Bvn, Nin, Account, Phone}
    ensures var x, y := ValueAfter(p, row, c, iv), ValueAfter(p, row, c, iv2);
            && (x == y || (x.Some? && y.Some? && Decrypt(p.env, x) == Decrypt(p.env, y)))
            && Decrypt(p.env, x) == Decrypt(p.env, Get(row, c))
  {
    hide Decrypt, EncryptWith, IsCiphertext, LikeV;
    var plain := Plain(p, row, c);
    if plain.Some? {
      EncryptedLooksEncrypted(p, iv, plain.value);
      EncryptedLooksEncrypted(p, iv2, plain.value);
    }
  }

  lemma RowsAgree(p: Setup, row: Row, a: Row, b: Row)
    requires SetupOk(p) && Fixed(p, row, a) && Fixed(p, row, b)
    ensures SameUpToIv(p, a, b)
    ensures forall c: Col | c in {Bvn, Nin, Account, Phone} :: Decrypt(p.env, Get(a, c)) == Decrypt(p.env, Get(row, c))
  {
    hide Pending, ValueAfter, IndexAfter, PatchOf, Decrypt;
    if Pending(p, row) {
      var ivs: Ivs :| a == Apply(row, PatchOf(p, row, ivs));
      var iws: Ivs :| b == Apply(row, PatchOf(p, row, iws));
      PatchColumns(p, row, ivs);
      PatchColumns(p, row, iws);
      ValueSameUpToIv(p, row, Bvn, ivs.bvn, iws.bvn);
      ValueSameUpToIv(p, row, Nin, ivs.nin, iws.nin);
      ValueSameUpToIv(p, row, Account, ivs.account, iws.account);
      ValueSameUpToIv(p, row, Phone, ivs.phone, iws.phone);
      forall c: Col ensures Get(a, c) == Get(b, c) ||
         (c in {Bvn, Nin, Account, Phone} && Get(a, c).Some? && Get(b, c).Some?
          && Decrypt(p.env, Get(a, c)) == Decrypt(p.env, Get(b, c)))
      {
        match c case Bvn => case Nin => case Account => case Phone =>
          case BvnIndex => case NinIndex => case AccountIndex =>
      }
    }
  }

  /** Any two runs over a table agree up to the IVs, and keep every decrypted value. */
  lemma RunsAgree(p: Setup, before: seq<Row>, a: seq<Row>, b: seq<Row>)
    requires SetupOk(p) && AllFixed(p, before, a) && AllFixed(p, before, b)
    ensures |a| == |b| == |before|
    ensures forall i | 0 <= i < |before| ::
              && SameUpToIv(p, a[i], b[i])
              && forall c: Col | c in {Bvn, Nin, Account, Phone} ::
                  Decrypt(p.env, Get(a[i], c)) == Decrypt(p.env, Get(before[i], c))
  {
    hide Fixed, SameUpToIv, Decrypt;
    forall i | 0 <= i < |before|
      ensures SameUpToIv(p, a[i], b[i])
      ensures forall c: Col | c in {Bvn, Nin, Account, Phone} ::
              Decrypt(p.env, Get(a[i], c)) == Decrypt(p.env, Get(before[i], c))
    {
      RowsAgree(p, before[i], a[i], b[i]);
    }
  }

  // ----- completeness ----------------------------------------------------------------------------

  /** The column holds something, but nothing to work with: it is empty or does not decrypt. */
  predicate Unusable(p: Setup, row: Row, c: Col)
    requires p.env.active in p.env.keys
  {
    c in row.cols && Plain(p, row, c).None?
  }

  /** Text that is not a ciphertext is its own decryption. */
  lemma ClearTextIsPlain(env: Env, s: string)
    requires env.active in env.keys && s != "" && !LikeV(s)
    ensures Decrypt(env, Some(s)) == Some(s)
  {
    var parts := Split(s);
    SplitHead(s);
    assert |parts[0]| == 2 ==> s[..2][0] == s[0];
  }

  /** An identifier is left pending exactly if it was and there is nothing to work with. */
  lemma ClauseLeft(p: Setup, row: Row, after: Row, c: Col, iv: Iv)
    requires SetupOk(p) && c in {Bvn, Nin, Account}
    requires Get(after, c) == ValueAfter(p, row, c, iv) && Get(after, IndexOf(c)) == IndexAfter(p, row, c)
    ensures ClausePending(p, after, c) <==> ClausePending(p, row, c) && Unusable(p, row, c)
  {
    hide Decrypt, EncryptWith;
    var plain := Plain(p, row, c);
    if plain.Some? {
      EncryptedLooksEncrypted(p, iv, plain.value);
    }
  }

  /** A phone number not in ciphertext; it has no index. */
  predicate PhonePending(row: Row) {
    Phone in row.cols && !LikeV(row.cols[Phone])
  }

  lemma PhoneLeft(p: Setup, row: Row, after: Row, iv: Iv)
    requires SetupOk(p) && !p.indexesOnly
    requires Get(after, Phone) == ValueAfter(p, row, Phone, iv)
    ensures PhonePending(after) <==> PhonePending(row) && row.cols[Phone] == ""
  {
    hide Decrypt, EncryptWith;
    var plain := Plain(p, row, Phone);
    if plain.Some? { EncryptedLooksEncrypted(p, iv, plain.value); }
    if Phone in row.cols && row.cols[Phone] != "" && !LikeV(row.cols[Phone]) {
      ClearTextIsPlain(p.env, row.cols[Phone]);
    }
  }

  /** What is left of a row's work: each identifier's own clause holds on exactly if it held and the identifier
      is empty or does not decrypt, and the phone number's exactly if it is empty. */
  ghost predicate LeftPending(p: Setup, row: Row, after: Row)
    requires p.env.active in p.env.keys
  {
    && (forall c: Col | c in {Bvn, Nin, Account} ::
          ClausePending(p, after, c) <==> ClausePending(p, row, c) && (Pending(p, row) ==> Unusable(p, row, c)))
    && (!p.indexesOnly ==> (PhonePending(after) <==> PhonePending(row) && row.cols[Phone] == ""))
  }

  lemma RowLeft(p: Setup, row: Row, after: Row)
    requires SetupOk(p) && Fixed(p, row, after)
    ensures LeftPending(p, row, after)
  {
    hide Decrypt, ValueAfter, IndexAfter, PatchOf, LikeV, Unusable, ClausePending;
    if Pending(p, row) {
      var ivs: Ivs :| after == Apply(row, PatchOf(p, row, ivs));
      PatchColumns(p, row, ivs);
      ClauseLeft(p, row, after, Bvn, ivs.bvn);
      ClauseLeft(p, row, after, Nin, ivs.nin);
      ClauseLeft(p, row, after, Account, ivs.account);
      if !p.indexesOnly { PhoneLeft(p, row, after, ivs.phone); }
    }
  }

  /** After a run, what is still pending in a table is exactly what was pending and is empty or does not decrypt. */
  lemma OnlyUnusableLeft(p: Setup, before: seq<Row>, after: seq<Row>)
    requires SetupOk(p) && AllFixed(p, before, after)
    ensures |after| == |before| && forall i | 0 <= i < |before| :: LeftPending(p, before[i], after[i])
  {
    hide Fixed, LeftPending;
    forall i | 0 <= i < |before| ensures LeftPending(p, before[i], after[i]) { RowLeft(p, before[i], after[i]); }
  }
}
