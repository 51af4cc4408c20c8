/**
 The backfill in its two documented stages: an indexes-only run first, then a full one.
 */
module StagedBackfill {
  import opened Wrappers
  import opened Crypto
  import opened Backfill

  const IDENTIFIERS: set<Col> := {Bvn, Nin, Account}
  const VALUES: set<Col> := {Bvn, Nin, Account, Phone}

  function Mode(p: Setup, indexesOnly: bool): Setup {
    p.(indexesOnly := indexesOnly)
  }

  /** Text the pending query takes for a ciphertext and the script's own test does not. */
  predicate Disguised(row: Row, c: Col) {
    c in row.cols && LikeV(row.cols[c]) && !IsCiphertext(row.cols[c])
  }

  /** Once its indexes are written, no full run will visit the row. */
  predicate DoneByIndexes(p: Setup, row: Row)
    requires p.env.active in p.env.keys
  {
    && (forall c | c in VALUES && c in row.cols :: LikeV(row.cols[c]))
    && (forall c | c in IDENTIFIERS && c in row.cols :: IndexOf(c) in row.cols || Plain(p, row, c).Some?)
  }

  /** An indexes-only run visits the row, no full run after it does, and some text is left in the clear. */
  predicate StaysClear(p: Setup, row: Row)
    requires p.env.active in p.env.keys
  {
    && Pending(Mode(p, true), row) && DoneByIndexes(p, row)
    && exists c | c in VALUES :: Disguised(row, c)
  }

  lemma DisguisedIsPlain(env: Env, s: string)
    requires env.active in env.keys && LikeV(s) && !IsCiphertext(s)
    ensures Decrypt(env, Some(s)) == Some(s)
  {
    var parts := Split(s);
    SplitHead(s);
    assert |parts[0]| == 2 ==> parts[0][1] == s[1];
  }

  // ----- one row ---------------------------------------------------------------------------------

  /** An identifier after the indexes-only run: a full run would do to it what it would have done before. */
  lemma StagedColumn(p: Setup, a: Row, b: Row, c: Col, iv: Iv)
    requires SetupOk(p) && c in IDENTIFIERS
    requires Get(b, c) == Get(a, c) && Get(b, IndexOf(c)) == IndexAfter(Mode(p, true), a, c)
    ensures ValueAfter(Mode(p, false), b, c, iv) == ValueAfter(Mode(p, false), a, c, iv)
    ensures IndexAfter(Mode(p, false), b, c) == IndexAfter(Mode(p, false), a, c)
    ensures ClausePending(Mode(p, false), b, c) <==>
            c in a.cols && !(LikeV(a.cols[c]) && (IndexOf(c) in a.cols || Plain(p, a, c).Some?))
  {
    hide Decrypt, EncryptWith, IsCiphertext, LikeV;
    assert Plain(Mode(p, false), b, c) == Plain(p, a, c) == Plain(Mode(p, true), a, c);
    assert Plain(p, a, c).Some? ==> p.index(Plain(p, a, c).value) != "";
  }

  /** What an indexes-only visit leaves: the values, and the indexes any visit would write. */
  ghost predicate Indexed(p: Setup, a: Row, b: Row)
    requires p.env.active in p.env.keys
  {
    && b.id == a.id
    && (forall c | c in VALUES :: Get(b, c) == Get(a, c))
    && (forall c | c in IDENTIFIERS :: Get(b, IndexOf(c)) == IndexAfter(Mode(p, true), a, c))
  }

  lemma VisitIndexes(p: Setup, a: Row, b: Row, ivs: Ivs)
    requires SetupOk(p) && b == Apply(a, PatchOf(Mode(p, true), a, ivs))
    ensures Indexed(p, a, b)
  {
    hide PatchOf, Plain, IndexAfter, ValueAfter;
    PatchColumns(Mode(p, true), a, ivs);
    ValueKept(p, a, Bvn, ivs.bvn);
    ValueKept(p, a, Nin, ivs.nin);
    ValueKept(p, a, Account, ivs.account);
    ValueKept(p, a, Phone, ivs.phone);
    hide Get;
  }

  lemma ValueKept(p: Setup, a: Row, c: Col, iv: Iv)
    requires p.env.active in p.env.keys
    ensures ValueAfter(Mode(p, true), a, c, iv) == Get(a, c)
  {
    hide Plain, IsCiphertext;
  }

  /** A full visit makes the same of the row before and after. */
  lemma FullAfterIndexes(p: Setup, a: Row, b: Row, x: Row, ivs: Ivs)
    requires SetupOk(p) && Indexed(p, a, b)
    ensures ColumnsAfter(Mode(p, false), b, x, ivs) <==> ColumnsAfter(Mode(p, false), a, x, ivs)
  {
    hide Plain, IndexAfter, ValueAfter, ClausePending;
    StagedColumn(p, a, b, Bvn, ivs.bvn);
    StagedColumn(p, a, b, Nin, ivs.nin);
    StagedColumn(p, a, b, Account, ivs.account);
    StagedPhone(p, a, b, ivs.phone);
  }

  lemma PendingAfterIndexes(p: Setup, a: Row, b: Row, iv: Iv)
    requires SetupOk(p) && Indexed(p, a, b)
    ensures Pending(Mode(p, false), b) <==> !DoneByIndexes(p, a)
  {
    hide Plain, IndexAfter, ValueAfter, ClausePending, LikeV;
    StagedColumn(p, a, b, Bvn, iv);
    StagedColumn(p, a, b, Nin, iv);
    StagedColumn(p, a, b, Account, iv);
    assert Get(b, Phone) == Get(a, Phone);
    assert DoneByIndexes(p, a) <==>
      && (Phone in a.cols ==> LikeV(a.cols[Phone]))
      && forall c | c in IDENTIFIERS :: !ClausePending(Mode(p, false), b, c);
  }

  lemma StagedPhone(p: Setup, a: Row, b: Row, iv: Iv)
    requires SetupOk(p) && Get(b, Phone) == Get(a, Phone)
    ensures ValueAfter(Mode(p, false), b, Phone, iv) == ValueAfter(Mode(p, false), a, Phone, iv)
  {
    hide Decrypt, EncryptWith, IsCiphertext;
  }

  /** The columns of a row no full run visits any more are what one full run leaves, but for disguised text. */
  lemma NoneLeftToEncrypt(p: Setup, a: Row, c: Col, iv: Iv)
    requires SetupOk(p) && c in VALUES && DoneByIndexes(p, a)
    ensures ValueAfter(Mode(p, false), a, c, iv) == Get(a, c) <==> !Disguised(a, c)
  {
    if c in a.cols {
      assert LikeV(a.cols[c]);
      if Disguised(a, c) { DisguisedIsPlain(p.env, a.cols[c]); }
      hide Decrypt, EncryptWith, LikeV;
      var plain := Plain(Mode(p, false), a, c);
      if plain.Some? { EncryptedLooksEncrypted(p, iv, plain.value); }
    }
  }

  lemma SameIndexes(p: Setup, a: Row, c: Col)
    requires p.env.active in p.env.keys
    ensures IndexAfter(Mode(p, true), a, c) == IndexAfter(Mode(p, false), a, c)
  {
    hide Decrypt;
  }

  lemma IvOf(ivs: Ivs, c: Col) returns (iv: Iv)
    ensures c == Bvn ==> iv == ivs.bvn
    ensures c == Nin ==> iv == ivs.nin
    ensures c == Account ==> iv == ivs.account
    ensures c == Phone ==> iv == ivs.phone
  {
    iv := match c case Bvn => ivs.bvn case Nin => ivs.nin case Account => ivs.account case _ => ivs.phone;
  }

  /** The full visit came to nothing: that is not what one full visit would have left of disguised text. */
  lemma SkippedDisguised(p: Setup, a: Row, b: Row, c: Col)
    requires SetupOk(p) && DoneByIndexes(p, a) && Indexed(p, a, b)
    requires Pending(Mode(p, false), a) && c in VALUES && Disguised(a, c)
    ensures !Fixed(Mode(p, false), a, b)
  {
    hide PatchOf, ValueAfter, IndexAfter, DoneByIndexes, Pending, Disguised;
    var full := Mode(p, false);
    if Fixed(full, a, b) {
      var ivs: Ivs :| b == Apply(a, PatchOf(full, a, ivs));
      PatchColumns(full, a, ivs);
      var iv := IvOf(ivs, c);
      NoneLeftToEncrypt(p, a, c, iv);
      assert false;
    }
  }

  lemma SkippedDone(p: Setup, a: Row, b: Row, ivs: Ivs)
    requires SetupOk(p) && DoneByIndexes(p, a) && Indexed(p, a, b) && Pending(Mode(p, false), a)
    requires forall c | c in VALUES :: !Disguised(a, c)
    ensures Fixed(Mode(p, false), a, b)
  {
    hide PatchOf, ValueAfter, IndexAfter, DoneByIndexes, Pending, Disguised;
    var full := Mode(p, false);
    NoneLeftToEncrypt(p, a, Bvn, ivs.bvn);
    NoneLeftToEncrypt(p, a, Nin, ivs.nin);
    NoneLeftToEncrypt(p, a, Account, ivs.account);
    NoneLeftToEncrypt(p, a, Phone, ivs.phone);
    SameIndexes(p, a, Bvn);
    SameIndexes(p, a, Nin);
    SameIndexes(p, a, Account);
    assert ColumnsAfter(full, a, b, ivs);
    PatchColumns(full, a, ivs);
    ColumnsDetermine(full, a, b, Apply(a, PatchOf(full, a, ivs)), ivs);
  }

  lemma PendingInBoth(p: Setup, a: Row)
    requires Pending(Mode(p, true), a)
    ensures Pending(Mode(p, false), a)
  {
  }

  /** An indexes-only visit and then a full one leave a row as one full visit could, unless it stays clear. */
  lemma IndexesFirstRow(p: Setup, a: Row, b: Row, c: Row)
    requires SetupOk(p) && Fixed(Mode(p, true), a, b) && Fixed(Mode(p, false), b, c)
    ensures Fixed(Mode(p, false), a, c) <==> !StaysClear(p, a)
  {
    var full := Mode(p, false);
    hide PatchOf, DoneByIndexes, Pending, ColumnsAfter;
    if Pending(Mode(p, true), a) {
      PendingInBoth(p, a);
      var ivs: Ivs :| b == Apply(a, PatchOf(Mode(p, true), a, ivs));
      VisitIndexes(p, a, b, ivs);
      PendingAfterIndexes(p, a, b, 0);
      hide Indexed, Disguised;
      if Pending(full, b) {
        var iws: Ivs :| c == Apply(b, PatchOf(full, b, iws));
        FullAfterIndexes(p, a, b, c, iws);
        PatchColumns(full, b, iws);
        PatchColumns(full, a, iws);
        ColumnsDetermine(full, a, c, Apply(a, PatchOf(full, a, iws)), iws);
      } else {
        if c' :| c' in VALUES && Disguised(a, c') {
          SkippedDisguised(p, a, b, c');
        } else {
          SkippedDone(p, a, b, ivs);
        }
      }
    }
  }

  // ----- whole tables ------------------------------------------------------------------------------

  /**
   The documented sequence: a complete indexes-only run and then a complete full run leave a table that one
   full run could have left - so, by `RunsAgree`, the same as any full run up to the IVs - if and only if no
   row holds disguised text the first run gives the full run no reason to visit.
   */
  lemma IndexesFirst(p: Setup, before: seq<Row>, indexed: seq<Row>, after: seq<Row>)
    requires SetupOk(p) && AllFixed(Mode(p, true), before, indexed) && AllFixed(Mode(p, false), indexed, after)
    ensures AllFixed(Mode(p, false), before, after) <==> forall i | 0 <= i < |before| :: !StaysClear(p, before[i])
  {
    hide Fixed, StaysClear;
    forall i | 0 <= i < |before|
      ensures Fixed(Mode(p, false), before[i], after[i]) <==> !StaysClear(p, before[i])
    {
      IndexesFirstRow(p, before[i], indexed[i], after[i]);
    }
  }

  ghost predicate NoneDisguised(rows: seq<Row>) {
    forall i, c | 0 <= i < |rows| && c in VALUES :: !Disguised(rows[i], c)
  }

  /** A visit writes no disguised text. */
  lemma VisitDisguisesNothing(p: Setup, a: Row, b: Row, c: Col)
    requires SetupOk(p) && Fixed(p, a, b) && c in VALUES && !Disguised(a, c)
    ensures !Disguised(b, c)
  {
    hide PatchOf, Pending, Disguised, ValueAfter, IndexAfter, LikeV, IsCiphertext;
    if Pending(p, a) {
      var ivs: Ivs :| b == Apply(a, PatchOf(p, a, ivs));
      PatchColumns(p, a, ivs);
      var iv := IvOf(ivs, c);
      ValueDisguisesNothing(p, a, c, iv);
      DisguisedText(b, c);
    }
  }

  lemma DisguisedText(row: Row, c: Col)
    ensures Disguised(row, c) <==> var v := Get(row, c); v.Some? && LikeV(v.value) && !IsCiphertext(v.value)
  {
  }

  lemma ValueDisguisesNothing(p: Setup, a: Row, c: Col, iv: Iv)
    requires SetupOk(p) && c in VALUES && !Disguised(a, c)
    ensures var v := ValueAfter(p, a, c, iv); v.Some? ==> !LikeV(v.value) || IsCiphertext(v.value)
  {
    hide Decrypt, EncryptWith;
    var plain := Plain(p, a, c);
    if plain.Some? { EncryptedLooksEncrypted(p, iv, plain.value); }
  }

  /** Runs in either mode, each stopped wherever it was, and at last a full one that gets through the table. */
  ghost predicate MixedRuns(p: Setup, modes: seq<bool>, tables: seq<seq<Row>>, cursors: seq<int>)
    requires p.env.active in p.env.keys
  {
    && |cursors| > 0 && |modes| == |cursors| && |tables| == |cursors| + 1 && !modes[|cursors| - 1]
    && (forall k | 0 <= k < |cursors| :: FixedUpTo(Mode(p, modes[k]), tables[k], tables[k + 1], cursors[k]))
    && NonePendingAbove(Mode(p, false), tables[|cursors| - 1], cursors[|cursors| - 1])
  }

  /** One run, stopped or not, before a table some full run could leave. */
  lemma RunThenFixed(p: Setup, mode: bool, before: seq<Row>, stopped: seq<Row>, after: seq<Row>, at: int)
    requires SetupOk(p) && NoneDisguised(before)
    requires FixedUpTo(Mode(p, mode), before, stopped, at)
    ensures NoneDisguised(stopped)
    ensures AllFixed(Mode(p, false), stopped, after) ==> AllFixed(Mode(p, false), before, after)
  {
    hide Pending, Fixed, Disguised;
    forall i, c | 0 <= i < |before| && c in VALUES ensures !Disguised(stopped[i], c) {
      if before[i].id <= at { VisitDisguisesNothing(Mode(p, mode), before[i], stopped[i], c); }
    }
    if AllFixed(Mode(p, false), stopped, after) {
      forall i | 0 <= i < |before| ensures Fixed(Mode(p, false), before[i], after[i]) {
        assert Fixed(Mode(p, false), stopped[i], after[i]);
        if before[i].id <= at {
          if mode {
            IndexesFirstRow(p, before[i], stopped[i], after[i]);
          } else {
            SecondVisitChangesNothing(Mode(p, false), before[i], stopped[i], after[i]);
          }
        }
      }
    }
  }

  /**
   Whatever runs came before, in either mode, complete or stopped after any batch: once a full run gets
   through a table that held no disguised text, it is one that a single full run could have left.
   */
  lemma {:induction false} AnyRunsThenFull(p: Setup, modes: seq<bool>, tables: seq<seq<Row>>, cursors: seq<int>)
    requires SetupOk(p) && MixedRuns(p, modes, tables, cursors) && NoneDisguised(tables[0])
    ensures AllFixed(Mode(p, false), tables[0], tables[|cursors|])
    decreases |cursors|
  {
    hide Pending, Fixed, NonePendingAbove, NoneDisguised, FixedUpTo, AllFixed;
    if |cursors| == 1 {
      CompleteRun(Mode(p, false), tables[0], tables[1], cursors[0]);
    } else {
      RunThenFixed(p, modes[0], tables[0], tables[1], tables[|cursors|], cursors[0]);
      AnyRunsThenFull(p, modes[1..], tables[1..], cursors[1..]);
    }
  }

  /** A value the query takes for a ciphertext: after the two stages it is still there, in the clear. */
  lemma DisguisedValueStaysClear(p: Setup, indexed: seq<Row>, after: seq<Row>)
    requires SetupOk(p)
    requires var before := [Row(1, map[Bvn := "vx.1"])];
             AllFixed(Mode(p, true), before, indexed) && AllFixed(Mode(p, false), indexed, after)
    ensures |after| == 1 && Get(after[0], Bvn) == Some("vx.1")
    ensures !AllFixed(Mode(p, false), [Row(1, map[Bvn := "vx.1"])], after)
  {
    var row := Row(1, map[Bvn := "vx.1"]);
    ExampleStaysClear(p);
    hide StaysClear, DoneByIndexes;
    IndexesFirst(p, [row], indexed, after);
    var ivs: Ivs :| indexed[0] == Apply(row, PatchOf(Mode(p, true), row, ivs));
    hide PatchOf, Pending;
    VisitIndexes(p, row, indexed[0], ivs);
    PendingAfterIndexes(p, row, indexed[0], 0);
  }

  lemma ExampleStaysClear(p: Setup)
    requires SetupOk(p)
    ensures var row := Row(1, map[Bvn := "vx.1"]);
            StaysClear(p, row) && DoneByIndexes(p, row) && Pending(Mode(p, true), row) && Get(row, Bvn) == Some("vx.1")
  {
    var row := Row(1, map[Bvn := "vx.1"]);
    hide Decrypt;
    assert Disguised(row, Bvn);
    DisguisedIsPlain(p.env, "vx.1");
  }
}
