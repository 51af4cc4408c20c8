/**
 What a backfill run leaves in each column of each record, said of the records alone.
 */
module BackfillResults {
  import opened Wrappers
  import opened Crypto
  import opened OldKeys
  import opened Backfill

  /** The text to be indexed: what a stored value, not null and not empty, decrypts to, if that is not empty. */
  ghost predicate Usable(p: Setup, row: Row, c: Col, v: string)
    requires p.env.active in p.env.keys
  {
    c in row.cols && row.cols[c] != "" && v != "" && Decrypt(p.env, Some(row.cols[c])) == Some(v)
  }

  /** SQL's test for a value in the clear. */
  predicate Clear(row: Row, c: Col) {
    c in row.cols && !(|row.cols[c]| >= 3 && row.cols[c][0] == 'v' && row.cols[c][2] == '.')
  }

  /** The record is one the run looks at: an identifier lacks its index, or a value is in the clear. */
  predicate Waiting(p: Setup, row: Row) {
    || (Bvn in row.cols && BvnIndex !in row.cols)
    || (Nin in row.cols && NinIndex !in row.cols)
    || (!p.indexesOnly
        && ((Account in row.cols && AccountIndex !in row.cols)
            || Clear(row, Bvn) || Clear(row, Nin) || Clear(row, Account) || Clear(row, Phone)))
  }

  lemma WaitingIsPending(p: Setup, row: Row)
    ensures Waiting(p, row) <==> Pending(p, row)
  {
  }

  /** An identifier and its own index column. */
  ghost predicate IndexDone(p: Setup, row: Row, after: Row, c: Col, index: Col)
    requires p.env.active in p.env.keys
  {
    && (forall v | Waiting(p, row) && Usable(p, row, c, v) && (index !in row.cols || row.cols[index] == "") ::
          index in after.cols && after.cols[index] == p.index(v))
    && (index in row.cols && row.cols[index] != "" ==> Get(after, index) == Get(row, index))
    && ((forall v :: !Usable(p, row, c, v)) ==> Get(after, index) == Get(row, index))
  }

  /** A value: what was in the clear is sealed under the active key in a full run, and anything else stays. */
  ghost predicate ValueDone(p: Setup, row: Row, after: Row, c: Col)
    requires p.env.active in p.env.keys
  {
    && (forall v | !p.indexesOnly && Clear(row, c) && Usable(p, row, c, v) ::
          c in after.cols && UnderActiveKey(p.env, after.cols[c], v))
    && (p.indexesOnly || (c in row.cols && IsCiphertext(row.cols[c])) ==> Get(after, c) == Get(row, c))
    && ((forall v :: !Usable(p, row, c, v)) ==> Get(after, c) == Get(row, c))
  }

  ghost predicate RecordDone(p: Setup, row: Row, after: Row)
    requires p.env.active in p.env.keys
  {
    && (!Waiting(p, row) ==> after == row)
    && IndexDone(p, row, after, Bvn, BvnIndex)
    && IndexDone(p, row, after, Nin, NinIndex)
    && IndexDone(p, row, after, Account, AccountIndex)
    && ValueDone(p, row, after, Bvn) && ValueDone(p, row, after, Nin)
    && ValueDone(p, row, after, Account) && ValueDone(p, row, after, Phone)
  }

  lemma UsableIsPlain(p: Setup, row: Row, c: Col)
    requires p.env.active in p.env.keys
    ensures forall v :: Usable(p, row, c, v) <==> Plain(p, row, c) == Some(v)
  {
    hide Decrypt;
  }

  lemma IndexIsDone(p: Setup, row: Row, after: Row, c: Col)
    requires p.env.active in p.env.keys && c in {Bvn, Nin, Account}
    requires Waiting(p, row) && Get(after, IndexOf(c)) == IndexAfter(p, row, c)
    ensures IndexDone(p, row, after, c, IndexOf(c))
  {
    UsableIsPlain(p, row, c);
    hide Waiting, Usable, Plain;
    var plain := Plain(p, row, c);
    assert plain.Some? ==> Usable(p, row, c, plain.value);
  }

  lemma ValueIsDone(p: Setup, row: Row, after: Row, c: Col, iv: Iv)
    requires p.env.active in p.env.keys && c in {Bvn, Nin, Account, Phone}
    requires Get(after, c) == ValueAfter(p, row, c, iv)
    ensures ValueDone(p, row, after, c)
  {
    UsableIsPlain(p, row, c);
    hide Usable, Plain;
    var plain := Plain(p, row, c);
    assert plain.Some? ==> Usable(p, row, c, plain.value);
    forall v | !p.indexesOnly && Clear(row, c) && Usable(p, row, c, v)
      ensures c in after.cols && UnderActiveKey(p.env, after.cols[c], v)
    {
      EncryptsUnderActive(p.env, iv, v);
    }
  }

  lemma RecordIsDone(p: Setup, row: Row, after: Row)
    requires p.env.active in p.env.keys && Fixed(p, row, after)
    ensures RecordDone(p, row, after)
  {
    WaitingIsPending(p, row);
    hide Pending, PatchOf, IndexDone, ValueDone, Waiting;
    if Waiting(p, row) {
      var ivs: Ivs :| after == Apply(row, PatchOf(p, row, ivs));
      PatchColumns(p, row, ivs);
      hide ValueAfter, IndexAfter;
      IndexIsDone(p, row, after, Bvn);
      IndexIsDone(p, row, after, Nin);
      IndexIsDone(p, row, after, Account);
      ValueIsDone(p, row, after, Bvn, ivs.bvn);
      ValueIsDone(p, row, after, Nin, ivs.nin);
      ValueIsDone(p, row, after, Account, ivs.account);
      ValueIsDone(p, row, after, Phone, ivs.phone);
    } else {
      RecordAtRest(p, row);
    }
  }

  lemma RecordAtRest(p: Setup, row: Row)
    requires p.env.active in p.env.keys && !Waiting(p, row)
    ensures RecordDone(p, row, row)
  {
    hide Decrypt, Usable;
  }

  /**
   After a run, in every record: an identifier that decrypts to something, and had no index or an empty one, has
   in its own index column the keyed digest of just that; an index that was there stays; a full run leaves what
   was in the clear sealed under the active key; and records with nothing to do are untouched.
   */
  lemma RunLeaves(p: Setup, before: seq<Row>, after: seq<Row>)
    requires p.env.active in p.env.keys && AllFixed(p, before, after)
    ensures |after| == |before| && forall i | 0 <= i < |before| :: RecordDone(p, before[i], after[i])
  {
    hide Fixed, RecordDone;
    forall i | 0 <= i < |before| ensures RecordDone(p, before[i], after[i]) {
      RecordIsDone(p, before[i], after[i]);
    }
  }

  /** Two people's identifiers share an index only if their digests collide. */
  lemma IndexTellsApart(p: Setup, before: seq<Row>, after: seq<Row>, i: nat, j: nat, v: string, w: string)
    requires p.env.active in p.env.keys && AllFixed(p, before, after) && i < |before| && j < |before|
    requires Usable(p, before[i], Bvn, v) && Usable(p, before[j], Bvn, w)
    requires BvnIndex !in before[i].cols && BvnIndex !in before[j].cols
    ensures Get(after[i], BvnIndex) == Get(after[j], BvnIndex) <==> p.index(v) == p.index(w)
  {
    hide Fixed, Decrypt;
    RunLeaves(p, before, after);
    assert RecordDone(p, before[i], after[i]) && RecordDone(p, before[j], after[j]);
  }
}
