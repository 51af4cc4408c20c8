/**
 The import loop of the declared-income service: one loop serves the preview (`dryRun`) and the commit.
 Text parsing, the taxpayer lookup and what the database takes are parameters; an absent text field is the
 empty string.
 */
module DeclaredIncome {
  import opened Wrappers

  type TaxpayerId = string
  datatype Key = Key(taxpayer: TaxpayerId, year: int)

  /** What `parseFloat` may give. */
  datatype Income = NotANumber | Infinite(negative: bool) | Finite(naira: real)

  datatype ImportRow = ImportRow(
    lineNo: nat, nin: string, rc: string, year: string, income: string, source: string, notes: string)

  datatype Options = Options(dryRun: bool, source: string)

  /** A stored declaration; the amount is whole kobo, as numeric(18,2) keeps it. */
  datatype Declaration = Declaration(kobo: int, source: string, notes: string)

  type Table = map<Key, Declaration>

  /** What looking a taxpayer up gives; the query itself may throw. */
  datatype Lookup = Taxpayer(id: TaxpayerId) | Nobody | LookupThrows

  /** Parsing (0 for "not a number" in `year`), the lookup in the taxpayer table, which no import changes, and
      whether the database takes a row's declaration or throws - for whatever reason. */
  datatype Setup = Setup(
    year: string -> int,
    income: string -> Income,
    find: (string, string) -> Lookup,
    takes: (ImportRow, Key, Declaration) -> bool)

  datatype Message =
    | InvalidYear(line: nat, text: string)
    | InvalidIncome(line: nat, text: string)
    | MissingIdentifier(line: nat)
    | NoTaxpayer(line: nat, nin: string, rc: string)
    | Duplicate(line: nat)
    | LookupFailed(line: nat)
    | WriteFailed(line: nat)

  function Or(a: string, b: string): string {
    if a != "" then a else b
  }

  function Kobo(naira: real): int {
    (naira * 100.0 + 0.5).Floor
  }

  /** A write succeeds: no numeric column takes an infinite amount, and the database takes the declaration. */
  predicate Accepts(p: Setup, row: ImportRow, key: Key, income: Income, source: string, notes: string) {
    income.Finite? && p.takes(row, key, Declaration(Kobo(income.naira), source, notes))
  }

  // ----- one row -----------------------------------------------------------------------------

  /** What the checks before any write make of a row, given the keys already seen in this batch. */
  datatype Classified = Rejected(message: Message) | Matched(key: Key, income: Income)

  function Classify(p: Setup, row: ImportRow, seen: set<Key>): Classified {
    var year, income := p.year(row.year), p.income(row.income);
    if year == 0 || year < 1900 || year > 2200 then Rejected(InvalidYear(row.lineNo, row.year))
    else if income.NotANumber? || (income.Infinite? && income.negative) || (income.Finite? && income.naira < 0.0) then
      Rejected(InvalidIncome(row.lineNo, row.income))
    else if row.nin == "" && row.rc == "" then Rejected(MissingIdentifier(row.lineNo))
    else
      match p.find(row.nin, row.rc)
      case LookupThrows => Rejected(LookupFailed(row.lineNo))
      case Nobody => Rejected(NoTaxpayer(row.lineNo, row.nin, row.rc))
      case Taxpayer(id) =>
        var key := Key(id, year);
        if key in seen then Rejected(Duplicate(row.lineNo)) else Matched(key, income)
  }

  /** The counters of the loop; `writes` remembers the keys written, in order. */
  datatype Progress = Progress(
    table: Table, seen: set<Key>, created: nat, updated: nat, skipped: nat, errors: seq<Message>, writes: seq<Key>)

  function Start(table: Table): Progress {
    Progress(table, {}, 0, 0, 0, [], [])
  }

  function Skip(s: Progress, m: Message): Progress {
    s.(skipped := s.skipped + 1, errors := s.errors + [m])
  }

  /** The source and notes a write carries: an update keeps what the row leaves blank. */
  function SourceFor(o: Options, row: ImportRow, existing: Option<Declaration>): string {
    Or(row.source, Or(o.source, if existing.Some? then existing.value.source else "MANUAL_IMPORT"))
  }

  function NotesFor(row: ImportRow, existing: Option<Declaration>): string {
    Or(row.notes, if existing.Some? then existing.value.notes else "")
  }

  function Existing(table: Table, key: Key): Option<Declaration> {
    if key in table then Some(table[key]) else None
  }

  /** The write of a matched row would succeed, given what the table holds for its key. */
  predicate Taken(p: Setup, o: Options, row: ImportRow, key: Key, income: Income, existing: Option<Declaration>) {
    Accepts(p, row, key, income, SourceFor(o, row, existing), NotesFor(row, existing))
  }

  function Process(p: Setup, o: Options, s: Progress, row: ImportRow): Progress {
    match Classify(p, row, s.seen)
    case Rejected(m) => Skip(s, m)
    case Matched(key, income) =>
      var s' := s.(seen := s.seen + {key});
      var existing := Existing(s.table, key);
      if !o.dryRun && !Taken(p, o, row, key, income, existing) then Skip(s', WriteFailed(row.lineNo))
      else
        var counted := if key in s.table then s'.(updated := s.updated + 1) else s'.(created := s.created + 1);
        if o.dryRun then counted
        else
          var d := Declaration(Kobo(income.naira), SourceFor(o, row, existing), NotesFor(row, existing));
          counted.(table := s.table[key := d], writes := s.writes + [key])
  }

  function Run(p: Setup, o: Options, s: Progress, rows: seq<ImportRow>): Progress
    decreases |rows|
  {
    if rows == [] then s else Run(p, o, Process(p, o, s, rows[0]), rows[1..])
  }

  lemma RunRow(p: Setup, o: Options, s: Progress, rows: seq<ImportRow>)
    requires rows != []
    ensures Run(p, o, s, rows) == Run(p, o, Process(p, o, s, rows[0]), rows[1..])
  {
  }

  lemma RunNothing(p: Setup, o: Options, s: Progress)
    ensures Run(p, o, s, []) == s
  {
  }

  datatype Report = Report(
    dryRun: bool, totalRows: nat, created: nat, updated: nat, skipped: nat, errors: seq<Message>, errorCount: nat)

  function ReportOf(o: Options, s: Progress): Report {
    Report(o.dryRun, s.created + s.updated + s.skipped, s.created, s.updated, s.skipped,
           if |s.errors| <= 200 then s.errors else s.errors[..200], |s.errors|)
  }

  class DeclaredIncomeService {
    var table: Table

    constructor (initial: Table)
      ensures table == initial
    {
      table := initial;
    }

    /** A create or update; false when the database throws, and then nothing changes. */
    method Write(p: Setup, row: ImportRow, key: Key, income: Income, source: string, notes: string) returns (ok: bool)
      modifies this
      ensures ok == Accepts(p, row, key, income, source, notes)
      ensures table == if ok then old(table)[key := Declaration(Kobo(income.naira), source, notes)] else old(table)
    {
      ok := Accepts(p, row, key, income, source, notes);
      if ok { table := table[key := Declaration(Kobo(income.naira), source, notes)]; }
    }

    /** The end of the loop body: update what exists, create what does not; a preview only looks. */
    method Upsert(p: Setup, o: Options, row: ImportRow, key: Key, income: Income) returns (existed: bool, ok: bool)
      modifies this
      ensures existed == (key in old(table))
      ensures ok == (o.dryRun || Taken(p, o, row, key, income, Existing(old(table), key)))
      ensures var was := Existing(old(table), key);
              table == if ok && !o.dryRun
                       then old(table)[key :=
                         Declaration(Kobo(income.naira), SourceFor(o, row, was), NotesFor(row, was))]
                       else old(table)
    {
      existed, ok := key in table, true;
      if o.dryRun { return; }
      if existed {
        var was := table[key];
        ok := Write(p, row, key, income, Or(row.source, Or(o.source, was.source)), Or(row.notes, was.notes));
      } else {
        ok := Write(p, row, key, income, Or(row.source, Or(o.source, "MANUAL_IMPORT")), row.notes);
      }
    }

    /** `processRows`. */
    method ProcessRows(p: Setup, rows: seq<ImportRow>, o: Options) returns (report: Report)
      modifies this
      ensures report == ReportOf(o, Run(p, o, Start(old(table)), rows))
      ensures table == Run(p, o, Start(old(table)), rows).table
    {
      hide Run, Kobo, Existing, Accepts, Taken, SourceFor, NotesFor;
      var created, updated, skipped := 0, 0, 0;
      var errors: seq<Message> := [];
      var seen: set<Key> := {};
      ghost var writes: seq<Key> := [];
      assert rows[0..] == rows;
      for i := 0 to |rows|
        invariant created >= 0 && updated >= 0 && skipped >= 0
        invariant Run(p, o, Progress(table, seen, created, updated, skipped, errors, writes), rows[i..]) ==
                  Run(p, o, Start(old(table)), rows)
      {
        var row := rows[i];
        assert rows[i..][1..] == rows[i + 1..];
        RunRow(p, o, Progress(table, seen, created, updated, skipped, errors, writes), rows[i..]);
        var year, income := p.year(row.year), p.income(row.income);
        if year == 0 || year < 1900 || year > 2200 {
          errors := errors + [InvalidYear(row.lineNo, row.year)];
          skipped := skipped + 1;
          continue;
        }
        if income.NotANumber? || (income.Infinite? && income.negative) || (income.Finite? && income.naira < 0.0) {
          errors := errors + [InvalidIncome(row.lineNo, row.income)];
          skipped := skipped + 1;
          continue;
        }
        if row.nin == "" && row.rc == "" {
          errors := errors + [MissingIdentifier(row.lineNo)];
          skipped := skipped + 1;
          continue;
        }
        var tp := p.find(row.nin, row.rc);
        if tp.LookupThrows? {
          errors := errors + [LookupFailed(row.lineNo)];
          skipped := skipped + 1;
          continue;
        }
        if tp.Nobody? {
          errors := errors + [NoTaxpayer(row.lineNo, row.nin, row.rc)];
          skipped := skipped + 1;
          continue;
        }
        var key := Key(tp.id, year);
        if key in seen {
          errors := errors + [Duplicate(row.lineNo)];
          skipped := skipped + 1;
          continue;
        }
        seen := seen + {key};
        var existed, ok := Upsert(p, o, row, key, income);
        if ok {
          if existed { updated := updated + 1; } else { created := created + 1; }
        }
        if !ok {
          errors := errors + [WriteFailed(row.lineNo)];
          skipped := skipped + 1;
        } else if !o.dryRun {
          writes := writes + [key];
        }
      }
      RunNothing(p, o, Progress(table, seen, created, updated, skipped, errors, writes));
      report := Report(o.dryRun, created + updated + skipped, created, updated, skipped,
                       if |errors| <= 200 then errors else errors[..200], |errors|);
    }
  }

  // ----- a clean preview means a clean import --------------------------------------------------

  /** One if the row's write is refused, by the table before the batch. */
  function RefusedRow(p: Setup, source: string, table: Table, row: ImportRow, seen: set<Key>): nat {
    var c := Classify(p, row, seen);
    if c.Matched? && !Taken(p, Options(false, source), row, c.key, c.income, Existing(table, c.key)) then 1 else 0
  }

  function SeenAfter(p: Setup, row: ImportRow, seen: set<Key>): set<Key> {
    var c := Classify(p, row, seen);
    if c.Matched? then seen + {c.key} else seen
  }

  /** How many writes the database refuses, by the table before the batch: no key is written twice. */
  function Refused(p: Setup, source: string, table: Table, rows: seq<ImportRow>, seen: set<Key>): nat {
    if rows == [] then 0
    else
      RefusedRow(p, source, table, rows[0], seen) +
      Refused(p, source, table, rows[1..], SeenAfter(p, rows[0], seen))
  }

  /** Outside the keys seen, the progress has the table the batch started from. */
  ghost predicate UnseenKept(table: Table, s: Progress) {
    forall k | k !in s.seen :: Existing(s.table, k) == Existing(table, k)
  }

  /** The commit `c` has kept step with the preview `d` of the same rows. */
  ghost predicate InStep(d: Progress, c: Progress) {
    && d.seen == c.seen && d.created == c.created && d.updated == c.updated
    && d.skipped == c.skipped && d.errors == c.errors
  }

  lemma ProcessUnseen(p: Setup, o: Options, table: Table, s: Progress, row: ImportRow)
    requires UnseenKept(table, s)
    ensures UnseenKept(table, Process(p, o, s, row))
  {
  }

  lemma {:induction false} StaysInStep(p: Setup, source: string, table: Table, d: Progress, c: Progress,
                                       rows: seq<ImportRow>)
    requires InStep(d, c) && UnseenKept(table, c) && d.table == table
    requires Refused(p, source, table, rows, c.seen) == 0
    ensures InStep(Run(p, Options(true, source), d, rows), Run(p, Options(false, source), c, rows))
    decreases |rows|
  {
    if rows != [] {
      ProcessUnseen(p, Options(false, source), table, c, rows[0]);
      StaysInStep(p, source, table, Process(p, Options(true, source), d, rows[0]),
                  Process(p, Options(false, source), c, rows[0]), rows[1..]);
    }
  }

  /** One row of the preview `d` and of the commit `c`. */
  lemma ErrorStep(p: Setup, source: string, table: Table, d: Progress, c: Progress, row: ImportRow)
    requires d.seen == c.seen && UnseenKept(table, c)
    ensures var d', c' := Process(p, Options(true, source), d, row), Process(p, Options(false, source), c, row);
            && d'.seen == c'.seen && d'.table == d.table
            && |c'.errors| - |c.errors| == |d'.errors| - |d.errors| + RefusedRow(p, source, table, row, c.seen)
            && c'.seen == SeenAfter(p, row, c.seen)
  {
    MatchedIsUnseen(p, row, c.seen);
    hide Classify, Taken;
  }

  lemma {:induction false} ErrorCounts(p: Setup, source: string, table: Table, d: Progress, c: Progress,
                                       rows: seq<ImportRow>)
    requires d.seen == c.seen && UnseenKept(table, c)
    ensures |Run(p, Options(false, source), c, rows).errors| - |c.errors| ==
            |Run(p, Options(true, source), d, rows).errors| - |d.errors| + Refused(p, source, table, rows, c.seen)
    ensures Run(p, Options(true, source), d, rows).table == d.table
    decreases |rows|
  {
    if rows != [] {
      hide Process, UnseenKept, RefusedRow, SeenAfter;
      ProcessUnseen(p, Options(false, source), table, c, rows[0]);
      ErrorStep(p, source, table, d, c, rows[0]);
      ErrorCounts(p, source, table, Process(p, Options(true, source), d, rows[0]),
                  Process(p, Options(false, source), c, rows[0]), rows[1..]);
    }
  }

  /**
   A preview reports what the import will exactly when no write of the import throws, whatever makes a write
   throw; the import reports one error more for each that does; and a preview never changes the table.
   */
  lemma PreviewEqualsCommit(p: Setup, source: string, table: Table, rows: seq<ImportRow>)
    ensures var d := Run(p, Options(true, source), Start(table), rows);
            var c := Run(p, Options(false, source), Start(table), rows);
            && d.table == table
            && |c.errors| == |d.errors| + Refused(p, source, table, rows, {})
            && (ReportOf(Options(true, source), d) == ReportOf(Options(false, source), c).(dryRun := true)
                <==> Refused(p, source, table, rows, {}) == 0)
  {
    hide Process, Classify, Taken;
    ErrorCounts(p, source, table, Start(table), Start(table), rows);
    if Refused(p, source, table, rows, {}) == 0 {
      StaysInStep(p, source, table, Start(table), Start(table), rows);
    }
  }

  // ----- what this database refuses ----------------------------------------------------------

  /** numeric(18,2) holds eighteen digits, and no text column holds U+0000. */
  predicate FitsColumns(d: Declaration) {
    d.kobo < 1_000_000_000_000_000_000 && '\0' !in d.source && '\0' !in d.notes
  }

  ghost predicate RefusesByColumns(p: Setup) {
    forall row, key, d :: p.takes(row, key, d) <==> FitsColumns(d)
  }

  /** What the caller can see of a row: its amount, its own notes, and its source or else the batch's. */
  predicate PlainRow(p: Setup, source: string, row: ImportRow) {
    var income := p.income(row.income);
    && income.Finite? && Kobo(income.naira) < 1_000_000_000_000_000_000
    && '\0' !in Or(row.source, source) && '\0' !in row.notes
  }

  /** Every row that passes the checks is plain. */
  predicate PlainBatch(p: Setup, source: string, rows: seq<ImportRow>, seen: set<Key>) {
    rows == [] ||
    var c := Classify(p, rows[0], seen);
    && (c.Matched? ==> PlainRow(p, source, rows[0]))
    && PlainBatch(p, source, rows[1..], if c.Matched? then seen + {c.key} else seen)
  }

  lemma RowRefused(p: Setup, source: string, row: ImportRow, seen: set<Key>, existing: Option<Declaration>)
    requires RefusesByColumns(p) && (existing.Some? ==> FitsColumns(existing.value))
    ensures var c := Classify(p, row, seen);
            c.Matched? ==>
              (Taken(p, Options(false, source), row, c.key, c.income, existing) <==> PlainRow(p, source, row))
  {
  }

  lemma {:induction false} RefusedIsNotPlain(p: Setup, source: string, table: Table, rows: seq<ImportRow>,
                                             seen: set<Key>)
    requires RefusesByColumns(p) && forall k | k in table :: FitsColumns(table[k])
    ensures Refused(p, source, table, rows, seen) == 0 <==> PlainBatch(p, source, rows, seen)
    decreases |rows|
  {
    if rows != [] {
      hide Classify, Taken, PlainRow;
      var c := Classify(p, rows[0], seen);
      if c.Matched? { RowRefused(p, source, rows[0], seen, Existing(table, c.key)); }
      RefusedIsNotPlain(p, source, table, rows[1..], if c.Matched? then seen + {c.key} else seen);
    }
  }

  /**
   Over these columns, and a table they hold: the preview is right exactly when every row that passes the
   checks has a finite amount of at most eighteen digits and no U+0000 in its notes or source.
   */
  lemma PreviewEqualsCommitOnColumns(p: Setup, source: string, table: Table, rows: seq<ImportRow>)
    requires RefusesByColumns(p) && forall k | k in table :: FitsColumns(table[k])
    ensures ReportOf(Options(true, source), Run(p, Options(true, source), Start(table), rows)) ==
            ReportOf(Options(false, source), Run(p, Options(false, source), Start(table), rows)).(dryRun := true)
            <==> PlainBatch(p, source, rows, {})
  {
    hide Process, Classify, Taken, PlainRow;
    PreviewEqualsCommit(p, source, table, rows);
    RefusedIsNotPlain(p, source, table, rows, {});
  }

  // ----- every run ---------------------------------------------------------------------------

  ghost predicate Distinct(keys: seq<Key>) {
    forall i, j | 0 <= i < j < |keys| :: keys[i] != keys[j]
  }

  ghost predicate RunInv(initial: Table, s: Progress) {
    && Distinct(s.writes) && (forall k | k in s.writes :: k in s.seen)
    && s.table.Keys == initial.Keys + (set k | k in s.writes)
    && (forall k | k in initial && k !in s.writes :: s.table[k] == initial[k])
    && |s.errors| == s.skipped
  }

  lemma MatchedIsUnseen(p: Setup, row: ImportRow, seen: set<Key>)
    ensures var c := Classify(p, row, seen); c.Matched? ==> c.key !in seen
  {
  }

  lemma ProcessKeepsInv(p: Setup, o: Options, initial: Table, s: Progress, row: ImportRow)
    requires RunInv(initial, s)
    ensures var e := Process(p, o, s, row);
            RunInv(initial, e) && e.created + e.updated + e.skipped == s.created + s.updated + s.skipped + 1
  {
    hide Classify, Taken, Kobo, SourceFor, NotesFor;
    MatchedIsUnseen(p, row, s.seen);
  }

  lemma {:induction false} RunKeepsInv(p: Setup, o: Options, initial: Table, s: Progress, rows: seq<ImportRow>)
    requires RunInv(initial, s)
    ensures RunInv(initial, Run(p, o, s, rows))
    ensures var e := Run(p, o, s, rows);
            e.created + e.updated + e.skipped == s.created + s.updated + s.skipped + |rows|
    decreases |rows|
  {
    if rows != [] {
      hide RunInv, Process;
      ProcessKeepsInv(p, o, initial, s, rows[0]);
      RunKeepsInv(p, o, initial, Process(p, o, s, rows[0]), rows[1..]);
    }
  }

  /** The three counts cover every row once, each (taxpayer, year) is written at most once, and nothing
      but the written keys changes. */
  lemma ImportAccounts(p: Setup, o: Options, table: Table, rows: seq<ImportRow>)
    ensures var e := Run(p, o, Start(table), rows);
            && ReportOf(o, e).totalRows == |rows| && ReportOf(o, e).errorCount == e.skipped
            && Distinct(e.writes)
            && e.table.Keys == table.Keys + (set k | k in e.writes)
            && (forall k | k in table && k !in e.writes :: e.table[k] == table[k])
  {
    RunKeepsInv(p, o, table, Start(table), rows);
  }

  /** A key already seen keeps its row until the end of the batch. */
  lemma {:induction false} SeenKeysSettled(p: Setup, o: Options, s: Progress, rows: seq<ImportRow>, k: Key)
    requires k in s.seen
    ensures Existing(Run(p, o, s, rows).table, k) == Existing(s.table, k)
    decreases |rows|
  {
    if rows != [] {
      SeenKeysSettled(p, o, Process(p, o, s, rows[0]), rows[1..], k);
    }
  }

  /** `again` repeats, over the table the first import ends with, what `s` did. */
  lemma {:induction false} RerunInStep(p: Setup, o: Options, s: Progress, again: Progress, rows: seq<ImportRow>)
    requires !o.dryRun && again.table == Run(p, o, s, rows).table
    requires again.seen == s.seen && again.errors == s.errors && again.skipped == s.skipped
    requires again.created == 0 && again.updated == s.created + s.updated
    ensures var e, f := Run(p, o, s, rows), Run(p, o, again, rows);
            && f.table == e.table && f.errors == e.errors && f.skipped == e.skipped
            && f.created == 0 && f.updated == e.created + e.updated
    decreases |rows|
  {
    if rows != [] {
      var c := Classify(p, rows[0], s.seen);
      var s' := Process(p, o, s, rows[0]);
      if c.Matched? {
        SeenKeysSettled(p, o, s', rows[1..], c.key);
        assert Existing(again.table, c.key) == Existing(s'.table, c.key);
        var existing := Existing(s.table, c.key);
        if Taken(p, o, rows[0], c.key, c.income, existing) {
          WrittenAgain(p, o, rows[0], c.key, c.income, existing);
          assert again.table[c.key := again.table[c.key]] == again.table;
        }
      }
      RerunInStep(p, o, s', Process(p, o, again, rows[0]), rows[1..]);
    }
  }

  /** Writing a row over its own declaration writes the same declaration. */
  lemma WrittenAgain(p: Setup, o: Options, row: ImportRow, key: Key, income: Income, existing: Option<Declaration>)
    requires Taken(p, o, row, key, income, existing)
    ensures var d := Declaration(Kobo(income.naira), SourceFor(o, row, existing), NotesFor(row, existing));
            && SourceFor(o, row, Some(d)) == d.source && NotesFor(row, Some(d)) == d.notes
            && Taken(p, o, row, key, income, Some(d))
  {
  }

  /** Importing the same rows again creates nothing, reports the same errors and leaves the table as it is. */
  lemma ReimportChangesNothing(p: Setup, source: string, table: Table, rows: seq<ImportRow>)
    ensures var o := Options(false, source);
            var first := Run(p, o, Start(table), rows);
            var second := Run(p, o, Start(first.table), rows);
            && second.table == first.table && second.created == 0
            && second.updated == first.created + first.updated
            && second.skipped == first.skipped && second.errors == first.errors
  {
    var o := Options(false, source);
    RerunInStep(p, o, Start(table), Start(Run(p, o, Start(table), rows).table), rows);
  }
}
