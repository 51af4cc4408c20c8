/**
 Completing a key rotation (`reencryptPii`): an offset-paged sweep over each table that re-encrypts every
 column still under an old key. Fresh IVs are arbitrary.
 */
module Rotation {
  import opened Wrappers
  import opened Crypto

  /** A row and its encrypted columns, in the order the sweep lists them. */
  datatype Row = Row(id: nat, cols: seq<Option<string>>)

  ghost predicate Reencrypted(env: Env, was: Option<string>, now: Option<string>)
    requires env.active in env.keys
  {
    exists iv: Iv :: now == Reencrypt(env, iv, was)
  }

  predicate AnyNeeds(env: Env, cols: seq<Option<string>>) {
    exists c | 0 <= c < |cols| :: NeedsReencrypt(env, cols[c])
  }

  ghost predicate RowRotated(env: Env, before: Row, after: Row)
    requires env.active in env.keys
  {
    && after.id == before.id && |after.cols| == |before.cols|
    && forall c | 0 <= c < |before.cols| :: Reencrypted(env, before.cols[c], after.cols[c])
  }

  function NeedingRows(env: Env, rows: seq<Row>): nat {
    if rows == [] then 0
    else NeedingRows(env, rows[..|rows| - 1]) + if AnyNeeds(env, rows[|rows| - 1].cols) then 1 else 0
  }

  const BATCH := 500

  class PiiTable {
    var rows: seq<Row>  // ordered by id

    constructor (initial: seq<Row>)
      ensures rows == initial
    {
      rows := initial;
    }

    /** One row: a patch of the columns that need it, and an update if the patch is not empty. */
    method SweepRow(env: Env, i: nat) returns (patched: bool)
      requires env.active in env.keys && i < |rows|
      modifies this
      ensures |rows| == |old(rows)| && forall k | 0 <= k < |rows| && k != i :: rows[k] == old(rows)[k]
      ensures RowRotated(env, old(rows)[i], rows[i])
      ensures patched == AnyNeeds(env, old(rows)[i].cols)
    {
      var r := rows[i];
      var cols := r.cols;
      patched := false;
      for c := 0 to |r.cols|
        invariant |cols| == |r.cols| && rows == old(rows)
        invariant forall k | c <= k < |cols| :: cols[k] == r.cols[k]
        invariant forall k | 0 <= k < c :: Reencrypted(env, r.cols[k], cols[k])
        invariant patched <==> exists k | 0 <= k < c :: NeedsReencrypt(env, r.cols[k])
        invariant !patched ==> cols == r.cols
      {
        if NeedsReencrypt(env, r.cols[c]) {
          var iv: Iv :| true;
          var sealed := Reencrypt(env, iv, r.cols[c]);
          assert Reencrypted(env, r.cols[c], sealed);
          cols := cols[c := sealed];
          patched := true;
        } else {
          assert cols[c] == Reencrypt(env, 0, r.cols[c]);
          assert Reencrypted(env, r.cols[c], cols[c]);
        }
      }
      if patched { rows := rows[i := Row(r.id, cols)]; }
    }

    /** The paged loop over one table: every row is visited exactly once. */
    method Sweep(env: Env) returns (scanned: nat, migrated: nat)
      requires env.active in env.keys
      modifies this
      ensures |rows| == |old(rows)| && scanned == |rows| && migrated == NeedingRows(env, old(rows))
      ensures forall i | 0 <= i < |rows| :: RowRotated(env, old(rows)[i], rows[i])
    {
      hide AnyNeeds, RowRotated, Reencrypted;
      scanned, migrated := 0, 0;
      var skip := 0;
      ghost var n := |rows|;
      while true
        invariant skip >= 0 && |rows| == n == |old(rows)|
        invariant scanned == if skip <= n then skip else n
        invariant migrated == NeedingRows(env, old(rows)[..scanned])
        invariant forall i | 0 <= i < scanned :: RowRotated(env, old(rows)[i], rows[i])
        invariant forall i | scanned <= i < n :: rows[i] == old(rows)[i]
        decreases n + BATCH - skip
      {
        var from := if skip <= |rows| then skip else |rows|;
        var to := if skip + BATCH <= |rows| then skip + BATCH else |rows|;
        if from == to { break; }
        for i := from to to
          invariant |rows| == n && scanned == i
          invariant migrated == NeedingRows(env, old(rows)[..i])
          invariant forall k | 0 <= k < i :: RowRotated(env, old(rows)[k], rows[k])
          invariant forall k | i <= k < n :: rows[k] == old(rows)[k]
        {
          var patched := SweepRow(env, i);
          assert old(rows)[..i + 1][..i] == old(rows)[..i];
          scanned := scanned + 1;
          if patched { migrated := migrated + 1; }
        }
        if to - from < BATCH { break; }
        skip := skip + BATCH;
      }
      assert old(rows)[..n] == old(rows);
    }
  }

  /** `reencryptPii`: the taxpayer table, then the data records. */
  method ReencryptPii(env: Env, taxpayers: PiiTable, records: PiiTable) returns (scanned: nat, migrated: nat)
    requires env.active in env.keys && taxpayers != records
    modifies taxpayers, records
    ensures Rotated(env, old(taxpayers.rows), taxpayers.rows) && Rotated(env, old(records.rows), records.rows)
    ensures scanned == |old(taxpayers.rows)| + |old(records.rows)|
    ensures migrated == NeedingRows(env, old(taxpayers.rows)) + NeedingRows(env, old(records.rows))
  {
    var s1, m1 := taxpayers.Sweep(env);
    var s2, m2 := records.Sweep(env);
    scanned, migrated := s1 + s2, m1 + m2;
  }

  // ----- what a sweep means --------------------------------------------------------------------

  ghost predicate Rotated(env: Env, before: seq<Row>, after: seq<Row>)
    requires env.active in env.keys
  {
    |after| == |before| && forall i | 0 <= i < |before| :: RowRotated(env, before[i], after[i])
  }

  /** Every ciphertext due for rotation still decrypts to something. */
  ghost predicate AllDecrypt(env: Env, rows: seq<Row>)
    requires env.active in env.keys
  {
    forall i, c | 0 <= i < |rows| && 0 <= c < |rows[i].cols| && NeedsReencrypt(env, rows[i].cols[c]) ::
      Decrypt(env, rows[i].cols[c]).Some? && Decrypt(env, rows[i].cols[c]).value != ""
  }

  ghost predicate ColumnKept(env: Env, was: Option<string>, now: Option<string>)
    requires env.active in env.keys
  {
    (was.Some? ==> now.Some?) && Decrypt(env, now) == Decrypt(env, was)
  }

  ghost predicate DataKept(env: Env, before: seq<Row>, after: seq<Row>)
    requires env.active in env.keys && Rotated(env, before, after)
  {
    forall i, c | 0 <= i < |before| && 0 <= c < |before[i].cols| ::
      assert RowRotated(env, before[i], after[i]); ColumnKept(env, before[i].cols[c], after[i].cols[c])
  }

  lemma ColumnAfter(env: Env, was: Option<string>, now: Option<string>)
    requires CipherOk(env) && '.' !in env.active && Reencrypted(env, was, now)
    ensures !NeedsReencrypt(env, now)
    ensures ColumnKept(env, was, now) <==>
            (NeedsReencrypt(env, was) ==> Decrypt(env, was).Some? && Decrypt(env, was).value != "")
  {
    hide Decrypt, NeedsReencrypt;
    var iv: Iv :| now == Reencrypt(env, iv, was);
    if was.Some? {
      ReencryptKeepsOrErases(env, iv, was.value);
    } else {
      NullNeedsNothing(env);
    }
  }

  lemma NullNeedsNothing(env: Env)
    requires env.active in env.keys
    ensures !NeedsReencrypt(env, None)
  {
  }

  /**
   A sweep keeps the decrypted value of every column, erasing none, exactly when every ciphertext due for
   rotation still decrypts.
   */
  lemma SweepKeepsData(env: Env, before: seq<Row>, after: seq<Row>)
    requires CipherOk(env) && '.' !in env.active && Rotated(env, before, after)
    ensures DataKept(env, before, after) <==> AllDecrypt(env, before)
  {
    hide Decrypt, NeedsReencrypt, Reencrypted;
    forall i, c | 0 <= i < |before| && 0 <= c < |before[i].cols|
      ensures RowRotated(env, before[i], after[i])
      ensures ColumnKept(env, before[i].cols[c], after[i].cols[c]) <==>
              (NeedsReencrypt(env, before[i].cols[c]) ==>
                 Decrypt(env, before[i].cols[c]).Some? && Decrypt(env, before[i].cols[c]).value != "")
    {
      assert RowRotated(env, before[i], after[i]);
      ColumnAfter(env, before[i].cols[c], after[i].cols[c]);
    }
  }

  lemma {:induction false} NoneNeeding(env: Env, rows: seq<Row>)
    requires forall i | 0 <= i < |rows| :: !AnyNeeds(env, rows[i].cols)
    ensures NeedingRows(env, rows) == 0
    decreases |rows|
  {
    hide AnyNeeds;
    if rows != [] { NoneNeeding(env, rows[..|rows| - 1]); }
  }

  /** After a sweep nothing needs re-encryption, so a second sweep migrates 0 rows and changes nothing. */
  lemma SecondSweepMigratesNothing(env: Env, before: seq<Row>, after: seq<Row>, again: seq<Row>)
    requires CipherOk(env) && '.' !in env.active && Rotated(env, before, after) && Rotated(env, after, again)
    ensures NeedingRows(env, after) == 0 && again == after
  {
    hide Decrypt, NeedsReencrypt, Reencrypted;
    forall i | 0 <= i < |after| ensures !AnyNeeds(env, after[i].cols) && again[i] == after[i] {
      assert RowRotated(env, before[i], after[i]) && RowRotated(env, after[i], again[i]);
      forall c | 0 <= c < |after[i].cols|
        ensures !NeedsReencrypt(env, after[i].cols[c]) && again[i].cols[c] == after[i].cols[c]
      {
        ColumnAfter(env, before[i].cols[c], after[i].cols[c]);
        Unneeded(env, after[i].cols[c], again[i].cols[c]);
      }
    }
    NoneNeeding(env, after);
  }

  lemma Unneeded(env: Env, was: Option<string>, now: Option<string>)
    requires env.active in env.keys && Reencrypted(env, was, now) && !NeedsReencrypt(env, was)
    ensures now == was
  {
  }
}
