/**
 The outcome of a declared-income batch, row by row and key by key, in terms of the batch and the table before it.
 */
module DeclaredAnswers {
  import opened Wrappers
  import opened DeclaredIncome

  // ----- one row of a batch ------------------------------------------------------------------------------

  /** The year is a number from 1900 to 2200. */
  predicate YearOk(p: Setup, row: ImportRow) {
    1900 <= p.year(row.year) <= 2200
  }

  /** The amount is a number and not negative; infinity is one. */
  predicate AmountOk(p: Setup, row: ImportRow) {
    match p.income(row.income)
    case NotANumber => false
    case Infinite(negative) => !negative
    case Finite(naira) => naira >= 0.0
  }

  /** The row is a declaration for this taxpayer and year. */
  predicate Declares(p: Setup, row: ImportRow, k: Key) {
    && YearOk(p, row) && AmountOk(p, row) && (row.nin != "" || row.rc != "")
    && p.find(row.nin, row.rc) == Taxpayer(k.taxpayer) && p.year(row.year) == k.year
  }

  /** A row before `n` declares the same. */
  predicate Earlier(p: Setup, rows: seq<ImportRow>, n: nat, k: Key)
    requires n <= |rows|
  {
    exists j :: 0 <= j < n && Declares(p, rows[j], k)
  }

  /** To the nearest kobo, halves up. */
  predicate NearestKobo(kobo: int, naira: real) {
    kobo as real - 0.5 <= 100.0 * naira < kobo as real + 0.5
  }

  /** What the row would store over `was`: its own source and notes; else the batch's source; else what was there. */
  predicate Stores(o: Options, row: ImportRow, naira: real, was: Option<Declaration>, d: Declaration) {
    && NearestKobo(d.kobo, naira)
    && (row.source != "" ==> d.source == row.source)
    && (row.source == "" && o.source != "" ==> d.source == o.source)
    && (row.source == "" && o.source == "" ==>
          d.source == if was.Some? then was.value.source else "MANUAL_IMPORT")
    && (row.notes != "" ==> d.notes == row.notes)
    && (row.notes == "" ==> d.notes == if was.Some? then was.value.notes else "")
  }

  /** The write of row `row` for key `k` succeeds and leaves `d`. */
  predicate Leaves(p: Setup, o: Options, table: Table, row: ImportRow, k: Key, d: Declaration) {
    var amount := p.income(row.income);
    amount.Finite? && Stores(o, row, amount.naira, Existing(table, k), d) && p.takes(row, k, d)
  }

  lemma LeavesIsTaken(p: Setup, o: Options, table: Table, row: ImportRow, k: Key)
    requires AmountOk(p, row)
    ensures var amount, was := p.income(row.income), Existing(table, k);
            && (Taken(p, o, row, k, amount, was) ==>
                  Leaves(p, o, table, row, k,
                         Declaration(Kobo(amount.naira), SourceFor(o, row, was), NotesFor(row, was))))
            && (!Taken(p, o, row, k, amount, was) ==> forall d :: !Leaves(p, o, table, row, k, d))
  {
    var amount, was := p.income(row.income), Existing(table, k);
    if amount.Finite? {
      var mine := Declaration(Kobo(amount.naira), SourceFor(o, row, was), NotesFor(row, was));
      KoboIsNearest(amount.naira);
      forall d | Stores(o, row, amount.naira, was, d) ensures d == mine {
        OneNearest(d.kobo, mine.kobo, amount.naira);
      }
    }
  }

  lemma KoboIsNearest(naira: real)
    ensures NearestKobo(Kobo(naira), naira)
  {
  }

  lemma OneNearest(a: int, b: int, naira: real)
    requires NearestKobo(a, naira) && NearestKobo(b, naira)
    ensures a == b
  {
    assert (a - b) as real < 1.0 && (b - a) as real < 1.0;
  }

  lemma ClassifyIs(p: Setup, row: ImportRow, seen: set<Key>)
    ensures var c := Classify(p, row, seen);
            && (c.Matched? ==> Declares(p, row, c.key) && c.key !in seen && c.income == p.income(row.income))
            && (forall k | Declares(p, row, k) :: if k in seen then c == Rejected(Duplicate(row.lineNo))
                                                 else c == Matched(k, p.income(row.income)))
  {
  }

  // ----- the batch ---------------------------------------------------------------------------------------------

  /** Row `i` is the first one of the batch for `k`. */
  predicate First(p: Setup, rows: seq<ImportRow>, i: nat, k: Key)
    requires i < |rows|
  {
    Declares(p, rows[i], k) && !Earlier(p, rows, i, k)
  }

  ghost predicate Refuses(p: Setup, o: Options, table: Table, row: ImportRow, k: Key) {
    forall d :: !Leaves(p, o, table, row, k, d)
  }

  /** What is stored for `k` after `n` rows: what its first row leaves, over what was there before the batch. */
  ghost predicate KeyAfter(p: Setup, o: Options, table: Table, rows: seq<ImportRow>, n: nat, k: Key,
                           now: Option<Declaration>)
    requires n <= |rows|
  {
    && (o.dryRun || !Earlier(p, rows, n, k) ==> now == Existing(table, k))
    && forall i: nat | i < n && First(p, rows, i, k) && !o.dryRun ::
         if Refuses(p, o, table, rows[i], k) then now == Existing(table, k)
         else now.Some? && Leaves(p, o, table, rows[i], k, now.value)
  }

  /** What is reported about row `i`, if anything. */
  ghost function MessageOf(p: Setup, o: Options, table: Table, rows: seq<ImportRow>, i: nat): Option<Message>
    requires i < |rows|
  {
    var row := rows[i];
    if !YearOk(p, row) then Some(InvalidYear(row.lineNo, row.year))
    else if !AmountOk(p, row) then Some(InvalidIncome(row.lineNo, row.income))
    else if row.nin == "" && row.rc == "" then Some(MissingIdentifier(row.lineNo))
    else
      match p.find(row.nin, row.rc)
      case LookupThrows => Some(LookupFailed(row.lineNo))
      case Nobody => Some(NoTaxpayer(row.lineNo, row.nin, row.rc))
      case Taxpayer(id) =>
        var k := Key(id, p.year(row.year));
        if Earlier(p, rows, i, k) then Some(Duplicate(row.lineNo))
        else if !o.dryRun && Refuses(p, o, table, row, k) then Some(WriteFailed(row.lineNo))
        else None
  }

  /** The messages of the first `n` rows, in order. */
  ghost function Messages(p: Setup, o: Options, table: Table, rows: seq<ImportRow>, n: nat): seq<Message>
    requires n <= |rows|
  {
    if n == 0 then []
    else
      var m := MessageOf(p, o, table, rows, n - 1);
      Messages(p, o, table, rows, n - 1) + if m.Some? then [m.value] else []
  }

  /** How many of the first `n` rows went through, for a key the table held before the batch or did not. */
  ghost function Through(p: Setup, o: Options, table: Table, rows: seq<ImportRow>, n: nat, held: bool): nat
    requires n <= |rows|
  {
    if n == 0 then 0
    else
      var counts := MessageOf(p, o, table, rows, n - 1).None?
                    && exists k :: Declares(p, rows[n - 1], k) && (k in table <==> held);
      Through(p, o, table, rows, n - 1, held) + if counts then 1 else 0
  }

  function FirstOf(ms: seq<Message>, n: nat): seq<Message> {
    if |ms| <= n then ms else ms[..n]
  }

  // ----- the loop does that --------------------------------------------------------------------------------------

  ghost predicate Reached(p: Setup, o: Options, table: Table, rows: seq<ImportRow>, n: nat, s: Progress)
    requires n <= |rows|
  {
    && (forall k :: k in s.seen <==> Earlier(p, rows, n, k))
    && (forall k :: KeyAfter(p, o, table, rows, n, k, Existing(s.table, k)))
    && s.errors == Messages(p, o, table, rows, n) && s.skipped == |s.errors|
    && s.created == Through(p, o, table, rows, n, false) && s.updated == Through(p, o, table, rows, n, true)
  }

  lemma {:induction false} RunSnoc(p: Setup, o: Options, s: Progress, rows: seq<ImportRow>, row: ImportRow)
    ensures Run(p, o, s, rows + [row]) == Process(p, o, Run(p, o, s, rows), row)
    decreases |rows|
  {
    if rows == [] {
      assert [row][1..] == [] && rows + [row] == [row];
    } else {
      assert (rows + [row])[1..] == rows[1..] + [row];
      RunSnoc(p, o, Process(p, o, s, rows[0]), rows[1..], row);
    }
  }

  lemma EarlierNext(p: Setup, rows: seq<ImportRow>, n: nat, k: Key)
    requires n < |rows|
    ensures Earlier(p, rows, n + 1, k) <==> Earlier(p, rows, n, k) || Declares(p, rows[n], k)
  {
    hide Declares;
  }

  /** A row that declares nothing new leaves every key as it is. */
  lemma KeyStays(p: Setup, o: Options, table: Table, rows: seq<ImportRow>, n: nat, k: Key, now: Option<Declaration>)
    requires n < |rows| && KeyAfter(p, o, table, rows, n, k, now)
    requires !First(p, rows, n, k) || (now == Existing(table, k) && (o.dryRun || Refuses(p, o, table, rows[n], k)))
    ensures KeyAfter(p, o, table, rows, n + 1, k, now)
  {
    EarlierNext(p, rows, n, k);
    hide Declares, Leaves, Refuses;
  }

  /** The first row for `k` leaves what it leaves. */
  lemma KeyWritten(p: Setup, o: Options, table: Table, rows: seq<ImportRow>, n: nat, k: Key, now: Option<Declaration>)
    requires n < |rows| && First(p, rows, n, k) && !o.dryRun
    requires now.Some? && Leaves(p, o, table, rows[n], k, now.value)
    ensures KeyAfter(p, o, table, rows, n + 1, k, now)
  {
    EarlierNext(p, rows, n, k);
    forall i: nat | i < n ensures !First(p, rows, i, k) {}
    hide Declares, Leaves;
  }

  /** The loop's checks tell the same of a row as the batch does. */
  lemma RowIs(p: Setup, o: Options, table: Table, rows: seq<ImportRow>, n: nat, seen: set<Key>)
    requires n < |rows| && forall k :: k in seen <==> Earlier(p, rows, n, k)
    ensures var c := Classify(p, rows[n], seen);
            match c
            case Rejected(m) =>
              MessageOf(p, o, table, rows, n) == Some(m) && forall k :: !First(p, rows, n, k)
            case Matched(key, income) =>
              && AmountOk(p, rows[n]) && income == p.income(rows[n].income) && First(p, rows, n, key)
              && (forall k :: Declares(p, rows[n], k) <==> k == key)
              && MessageOf(p, o, table, rows, n) ==
                 if !o.dryRun && Refuses(p, o, table, rows[n], key) then Some(WriteFailed(rows[n].lineNo)) else None
  {
    hide Earlier, Refuses;
  }

  lemma MessagesNext(p: Setup, o: Options, table: Table, rows: seq<ImportRow>, n: nat, s: Progress, e: Progress)
    requires n < |rows| && s.errors == Messages(p, o, table, rows, n)
    requires var m := MessageOf(p, o, table, rows, n); e.errors == s.errors + if m.Some? then [m.value] else []
    ensures e.errors == Messages(p, o, table, rows, n + 1)
  {
    hide MessageOf;
  }

  lemma RejectedReached(p: Setup, o: Options, table: Table, rows: seq<ImportRow>, n: nat, s: Progress)
    requires n < |rows| && Reached(p, o, table, rows, n, s) && Classify(p, rows[n], s.seen).Rejected?
    ensures Reached(p, o, table, rows, n + 1, Process(p, o, s, rows[n]))
  {
    RowIs(p, o, table, rows, n, s.seen);
    var e := Process(p, o, s, rows[n]);
    hide Classify, MessageOf, KeyAfter, First, Earlier;
    assert e == s.(skipped := s.skipped + 1, errors := s.errors + [Classify(p, rows[n], s.seen).message]);
    MessagesNext(p, o, table, rows, n, s, e);
    forall k
      ensures k in e.seen <==> Earlier(p, rows, n + 1, k)
      ensures KeyAfter(p, o, table, rows, n + 1, k, Existing(e.table, k))
    {
      NotFirst(p, rows, n, k);
      EarlierNext(p, rows, n, k);
      KeyStays(p, o, table, rows, n, k, Existing(s.table, k));
    }
  }

  lemma NotFirst(p: Setup, rows: seq<ImportRow>, n: nat, k: Key)
    requires n < |rows| && !First(p, rows, n, k)
    ensures Declares(p, rows[n], k) ==> Earlier(p, rows, n, k)
  {
    hide Declares, Earlier;
  }

  /** A key not yet declared is as it was before the batch. */
  lemma Untouched(p: Setup, o: Options, table: Table, rows: seq<ImportRow>, n: nat, k: Key, s: Progress)
    requires n < |rows| && Reached(p, o, table, rows, n, s) && First(p, rows, n, k)
    ensures Existing(s.table, k) == Existing(table, k) && k !in s.seen && (k in s.table <==> k in table)
  {
    hide Declares, Earlier, Messages, Through;
    assert KeyAfter(p, o, table, rows, n, k, Existing(s.table, k));
  }

  lemma MatchedReached(p: Setup, o: Options, table: Table, rows: seq<ImportRow>, n: nat, s: Progress)
    requires n < |rows| && Reached(p, o, table, rows, n, s) && Classify(p, rows[n], s.seen).Matched?
    ensures Reached(p, o, table, rows, n + 1, Process(p, o, s, rows[n]))
  {
    var c, e := Classify(p, rows[n], s.seen), Process(p, o, s, rows[n]);
    RowIs(p, o, table, rows, n, s.seen);
    Untouched(p, o, table, rows, n, c.key, s);
    LeavesIsTaken(p, o, table, rows[n], c.key);
    hide Classify, MessageOf, KeyAfter, First, Earlier, Taken, Leaves, SourceFor, NotesFor, Kobo, Existing;
    MessagesNext(p, o, table, rows, n, s, e);
    forall k ensures (k in e.seen <==> Earlier(p, rows, n + 1, k)) {
      EarlierNext(p, rows, n, k);
    }
    forall k ensures KeyAfter(p, o, table, rows, n + 1, k, Existing(e.table, k)) {
      if k != c.key {
        OtherFirst(p, rows, n, k);
        SameKey(s.table, e.table, k);
        KeyStays(p, o, table, rows, n, k, Existing(s.table, k));
      } else if o.dryRun || Refuses(p, o, table, rows[n], k) {
        KeyStays(p, o, table, rows, n, k, Existing(s.table, k));
      } else {
        KeyNow(e.table, k);
        KeyWritten(p, o, table, rows, n, k, Existing(e.table, k));
      }
    }
    CountsNext(p, o, table, rows, n, s, e, c.key);
  }

  lemma SameKey(a: Table, b: Table, k: Key)
    requires (k in a <==> k in b) && (k in a ==> a[k] == b[k])
    ensures Existing(a, k) == Existing(b, k)
  {
  }

  lemma KeyNow(a: Table, k: Key)
    requires k in a
    ensures Existing(a, k) == Some(a[k])
  {
  }

  lemma OtherFirst(p: Setup, rows: seq<ImportRow>, n: nat, k: Key)
    requires n < |rows| && !Declares(p, rows[n], k)
    ensures !First(p, rows, n, k)
  {
  }

  lemma CountsNext(p: Setup, o: Options, table: Table, rows: seq<ImportRow>, n: nat, s: Progress, e: Progress, key: Key)
    requires n < |rows| && forall k :: Declares(p, rows[n], k) <==> k == key
    requires s.created == Through(p, o, table, rows, n, false) && s.updated == Through(p, o, table, rows, n, true)
    requires var through := MessageOf(p, o, table, rows, n).None?;
             && e.created == s.created + (if through && key !in table then 1 else 0)
             && e.updated == s.updated + (if through && key in table then 1 else 0)
    ensures e.created == Through(p, o, table, rows, n + 1, false)
    ensures e.updated == Through(p, o, table, rows, n + 1, true)
  {
    hide MessageOf, Declares;
    assert Declares(p, rows[n], key);
  }

  lemma {:induction false} LoopReaches(p: Setup, o: Options, table: Table, rows: seq<ImportRow>, n: nat)
    requires n <= |rows|
    ensures Reached(p, o, table, rows, n, Run(p, o, Start(table), rows[..n]))
    decreases n
  {
    if n > 0 {
      hide Reached, Process;
      LoopReaches(p, o, table, rows, n - 1);
      var s := Run(p, o, Start(table), rows[..n - 1]);
      RunSnoc(p, o, Start(table), rows[..n - 1], rows[n - 1]);
      assert rows[..n - 1] + [rows[n - 1]] == rows[..n];
      if Classify(p, rows[n - 1], s.seen).Rejected? {
        RejectedReached(p, o, table, rows, n - 1, s);
      } else {
        MatchedReached(p, o, table, rows, n - 1, s);
      }
    }
  }

  /**
   What an import does, in terms of the batch alone: each key gets what its first row leaves - the amount to the
   kobo, and for source and notes the row's own, else the batch's, else what was stored - or stays as it was if no
   row declares it or that write throws; each row is either reported, with the first of its problems, or counted
   as created or updated by whether the table held its key before the batch. A preview counts alike and writes
   nothing.
   */
  lemma BatchOutcome(p: Setup, o: Options, table: Table, rows: seq<ImportRow>)
    ensures var e := Run(p, o, Start(table), rows);
            && (forall k :: KeyAfter(p, o, table, rows, |rows|, k, Existing(e.table, k)))
            && ReportOf(o, e).errors == FirstOf(Messages(p, o, table, rows, |rows|), 200)
            && ReportOf(o, e).errorCount == |Messages(p, o, table, rows, |rows|)| == ReportOf(o, e).skipped
            && ReportOf(o, e).created == Through(p, o, table, rows, |rows|, false)
            && ReportOf(o, e).updated == Through(p, o, table, rows, |rows|, true)
            && ReportOf(o, e).dryRun == o.dryRun
  {
    LoopReaches(p, o, table, rows, |rows|);
    assert rows[..|rows|] == rows;
    hide Messages, Through, KeyAfter;
  }
}
