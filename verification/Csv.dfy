/**
 The CSV reader of the declared-income importer (`parseCsv`), with the RFC 4180 (section 2) printer it is
 measured against.
 */
module Csv {

  const BOM: char := '\U{FEFF}'

  /** A row is kept when at least one of its cells is not the empty string. */
  predicate NonBlank(row: seq<string>) {
    exists i | 0 <= i < |row| :: row[i] != ""
  }

  function DropBlank(rows: seq<seq<string>>): (kept: seq<seq<string>>) {
    if rows == [] then []
    else (if NonBlank(rows[0]) then [rows[0]] else []) + DropBlank(rows[1..])
  }

  // ----- the reader ------------------------------------------------------------------------

  /** The four variables the reader carries from one character to the next. */
  datatype Scan = Scan(rows: seq<seq<string>>, row: seq<string>, field: string, inQuotes: bool)

  const START := Scan([], [], "", false)

  function EndCell(s: Scan): Scan {
    s.(row := s.row + [s.field], field := "")
  }

  function EndRow(s: Scan): Scan {
    var done := s.row + [s.field];
    Scan(if NonBlank(done) then s.rows + [done] else s.rows, [], "", s.inQuotes)
  }

  function Run(t: string, s: Scan): Scan
    decreases |t|
  {
    if t == "" then s
    else if s.inQuotes then
      if t[0] == '"' then
        if |t| > 1 && t[1] == '"' then Run(t[2..], s.(field := s.field + "\""))
        else Run(t[1..], s.(inQuotes := false))
      else Run(t[1..], s.(field := s.field + [t[0]]))
    else if t[0] == '"' then Run(t[1..], s.(inQuotes := true))
    else if t[0] == ',' then Run(t[1..], EndCell(s))
    else if t[0] == '\r' && |t| > 1 && t[1] == '\n' then Run(t[2..], EndRow(s))
    else if t[0] == '\n' || t[0] == '\r' then Run(t[1..], EndRow(s))
    else Run(t[1..], s.(field := s.field + [t[0]]))
  }

  /** The trailing row of a file with no final newline. */
  function Flush(s: Scan): seq<seq<string>> {
    if s.field != "" || |s.row| > 0 then EndRow(s).rows else s.rows
  }

  function StripBom(text: string): string {
    if |text| > 0 && text[0] == BOM then text[1..] else text
  }

  function Parse(text: string): seq<seq<string>> {
    Flush(Run(StripBom(text), START))
  }

  /** The one-pass loop: index jumps over escaped quotes and over the LF of a CR LF pair. */
  method ParseCsv(input: string) returns (rows: seq<seq<string>>)
    ensures rows == Parse(input)
  {
    var text := input;
    if |text| > 0 && text[0] == BOM { text := text[1..]; }
    rows := [];
    var field := "";
    var row: seq<string> := [];
    var inQuotes := false;
    var i := 0;
    while i < |text|
      invariant 0 <= i <= |text|
      invariant Run(text[i..], Scan(rows, row, field, inQuotes)) == Run(StripBom(input), START)
    {
      var c := text[i];
      assert text[i..][0] == c && text[i..][1..] == text[i + 1..];
      if i + 1 < |text| {
        assert text[i..][1] == text[i + 1] && text[i..][2..] == text[i + 2..];
      }
      if inQuotes {
        if c == '"' {
          if i + 1 < |text| && text[i + 1] == '"' {
            field := field + "\"";
            i := i + 1;
          } else {
            inQuotes := false;
          }
        } else {
          field := field + [c];
        }
      } else if c == '"' {
        inQuotes := true;
      } else if c == ',' {
        row, field := row + [field], "";
      } else if c == '\n' || c == '\r' {
        if c == '\r' && i + 1 < |text| && text[i + 1] == '\n' { i := i + 1; }
        row, field := row + [field], "";
        if NonBlank(row) { rows := rows + [row]; }
        row := [];
      } else {
        field := field + [c];
      }
      i := i + 1;
    }
    if field != "" || |row| > 0 {
      row := row + [field];
      if NonBlank(row) { rows := rows + [row]; }
    }
  }

  // ----- the reference printer: section 2 of RFC 4180 --------------------------------------

  datatype Ending = LF | CRLF | CR

  datatype Cell = Cell(value: string, quoted: bool) {
    /** An unquoted cell may hold no quote, comma or line break. */
    predicate Legal() {
      quoted || (forall k | 0 <= k < |value| :: value[k] !in {'"', ',', '\n', '\r'})
    }
  }

  datatype Line = Line(cells: seq<Cell>, ending: Ending) {
    predicate Legal() {
      forall k | 0 <= k < |cells| :: cells[k].Legal()
    }
  }

  function Doubled(v: string): string {
    if v == "" then "" else (if v[0] == '"' then "\"\"" else [v[0]]) + Doubled(v[1..])
  }

  function PrintCell(c: Cell): string {
    if c.quoted then "\"" + Doubled(c.value) + "\"" else c.value
  }

  function PrintCells(cells: seq<Cell>): string {
    if cells == [] then ""
    else if |cells| == 1 then PrintCell(cells[0])
    else PrintCell(cells[0]) + ("," + PrintCells(cells[1..]))
  }

  function PrintEnding(e: Ending): string {
    match e case LF => "\n" case CRLF => "\r\n" case CR => "\r"
  }

  function EndingAt(lines: seq<Line>, finalNewline: bool): string
    requires lines != []
  {
    if |lines| == 1 && !finalNewline then "" else PrintEnding(lines[0].ending)
  }

  /** All lines; the ending of the last one only when `finalNewline`. */
  function PrintLines(lines: seq<Line>, finalNewline: bool): string {
    if lines == [] then ""
    else PrintCells(lines[0].cells) + (EndingAt(lines, finalNewline) + PrintLines(lines[1..], finalNewline))
  }

  function Print(lines: seq<Line>, finalNewline: bool, bom: bool): string {
    (if bom then [BOM] else "") + PrintLines(lines, finalNewline)
  }

  function Values(cells: seq<Cell>): seq<string> {
    if cells == [] then [] else [cells[0].value] + Values(cells[1..])
  }

  function Grid(lines: seq<Line>): seq<seq<string>> {
    if lines == [] then [] else [Values(lines[0].cells)] + Grid(lines[1..])
  }

  ghost predicate LegalFile(lines: seq<Line>) {
    forall k | 0 <= k < |lines| :: lines[k].Legal()
  }

  lemma LegalFileCons(l: Line, more: seq<Line>)
    ensures LegalFile([l] + more) <==> l.Legal() && LegalFile(more)
  {
    var all := [l] + more;
    assert all[0] == l;
    assert forall k | 0 < k < |all| :: all[k] == more[k - 1];
    assert forall k | 0 <= k < |more| :: more[k] == all[k + 1];
  }

  // ----- the reader undoes the printer -----------------------------------------------------

  /** What may follow a printed cell: nothing, a comma or a line break. */
  predicate AtDelimiter(rest: string) {
    rest == "" || rest[0] in {',', '\n', '\r'}
  }

  lemma {:induction false} RunQuoted(v: string, rest: string, s: Scan)
    requires s.inQuotes && (rest == "" || rest[0] != '"')
    ensures Run(Doubled(v) + "\"" + rest, s) == Run(rest, s.(field := s.field + v, inQuotes := false))
    decreases |v|
  {
    var t := Doubled(v) + "\"" + rest;
    if v == "" {
      assert t[1..] == rest && s.field + v == s.field;
    } else {
      var s' := s.(field := s.field + [v[0]]);
      var d := if v[0] == '"' then "\"\"" else [v[0]];
      assert t == d + (Doubled(v[1..]) + "\"" + rest);
      assert t[|d|..] == Doubled(v[1..]) + "\"" + rest;
      assert Run(t, s) == Run(t[|d|..], s');
      RunQuoted(v[1..], rest, s');
      assert s.field + [v[0]] + v[1..] == s.field + v;
    }
  }

  lemma {:induction false} RunPlain(v: string, rest: string, s: Scan)
    requires !s.inQuotes && Cell(v, false).Legal()
    ensures Run(v + rest, s) == Run(rest, s.(field := s.field + v))
    decreases |v|
  {
    if v == "" {
      assert v + rest == rest && s.field + v == s.field;
    } else {
      var t := v + rest;
      assert v[0] !in {'"', ',', '\n', '\r'};
      assert t[0] == v[0] && t[1..] == v[1..] + rest;
      assert forall k | 0 <= k < |v[1..]| :: v[1..][k] == v[k + 1];
      var s' := s.(field := s.field + [v[0]]);
      RunPlain(v[1..], rest, s');
      assert s.field + [v[0]] + v[1..] == s.field + v;
    }
  }

  lemma RunCell(c: Cell, rest: string, s: Scan)
    requires !s.inQuotes && s.field == "" && c.Legal() && AtDelimiter(rest)
    ensures Run(PrintCell(c) + rest, s) == Run(rest, s.(field := c.value))
  {
    if c.quoted {
      var t := PrintCell(c) + rest;
      assert t[0] == '"' && t[1..] == Doubled(c.value) + "\"" + rest;
      RunQuoted(c.value, rest, s.(inQuotes := true));
      assert s.field + c.value == c.value;
    } else {
      RunPlain(c.value, rest, s);
      assert s.field + c.value == c.value;
    }
  }

  lemma RunComma(after: string, s: Scan)
    requires !s.inQuotes
    ensures Run("," + after, s) == Run(after, EndCell(s))
  {
    assert ("," + after)[1..] == after;
  }

  lemma Assoc(a: string, b: string, c: string)
    ensures a + b + c == a + (b + c)
  {
  }

  /** After the last cell of a row the reader holds the earlier cells in `row`, the last in `field`. */
  function AfterCells(cells: seq<Cell>, s: Scan): (r: Scan)
    requires |cells| > 0
    ensures r.row + [r.field] == s.row + Values(cells)
    ensures r.rows == s.rows && r.inQuotes == s.inQuotes
    decreases |cells|
  {
    var s' := s.(field := cells[0].value);
    if |cells| == 1 then s' else AfterCells(cells[1..], EndCell(s'))
  }

  lemma {:induction false} RunCells(cells: seq<Cell>, rest: string, s: Scan)
    requires !s.inQuotes && s.field == "" && |cells| > 0
    requires forall k | 0 <= k < |cells| :: cells[k].Legal()
    requires rest == "" || rest[0] in {'\n', '\r'}
    ensures Run(PrintCells(cells) + rest, s) == Run(rest, AfterCells(cells, s))
    decreases |cells|
  {
    hide Run;
    if |cells| == 1 {
      RunCell(cells[0], rest, s);
    } else {
      var more := PrintCells(cells[1..]);
      Assoc(PrintCell(cells[0]), "," + more, rest);
      Assoc(",", more, rest);
      RunCell(cells[0], "," + (more + rest), s);
      RunComma(more + rest, s.(field := cells[0].value));
      RunCells(cells[1..], rest, EndCell(s.(field := cells[0].value)));
    }
  }

  lemma DropBlankAppend(a: seq<seq<string>>, b: seq<seq<string>>)
    ensures DropBlank(a + b) == DropBlank(a) + DropBlank(b)
  {
    if a == [] {
      assert a + b == b;
    } else {
      assert (a + b)[1..] == a[1..] + b;
      DropBlankAppend(a[1..], b);
    }
  }

  /** Reading one printed row: `s` is the reader's state at the row's end, whatever follows. */
  lemma RunRow(cells: seq<Cell>, rest: string, rows: seq<seq<string>>) returns (s: Scan)
    requires forall k | 0 <= k < |cells| :: cells[k].Legal()
    requires rest == "" || rest[0] in {'\n', '\r'}
    ensures !s.inQuotes && Run(PrintCells(cells) + rest, START.(rows := rows)) == Run(rest, s)
    ensures EndRow(s) == START.(rows := rows + DropBlank([Values(cells)]))
    ensures Flush(s) == rows + DropBlank([Values(cells)])
  {
    var s0 := START.(rows := rows);
    hide Run;
    if cells == [] {
      assert PrintCells(cells) + rest == rest;
      s := s0;
    } else {
      RunCells(cells, rest, s0);
      s := AfterCells(cells, s0);
      assert s.row + [s.field] == Values(cells);
    }
  }

  lemma RunEnding(e: Ending, tail: string, s: Scan)
    requires !s.inQuotes
    ensures Run(PrintEnding(e) + tail, s) ==
            Run(if e == CR && tail != "" && tail[0] == '\n' then tail[1..] else tail, EndRow(s))
  {
    var t := PrintEnding(e) + tail;
    assert t[|PrintEnding(e)|..] == tail;
    if e == CR && tail != "" {
      assert t[1] == tail[0] && t[2..] == tail[1..];
    }
  }

  lemma GridStep(lines: seq<Line>)
    requires lines != []
    ensures DropBlank(Grid(lines)) == DropBlank([Values(lines[0].cells)]) + DropBlank(Grid(lines[1..]))
  {
    DropBlankAppend([Values(lines[0].cells)], Grid(lines[1..]));
  }

  /** At the start of a row an LF changes nothing, so CR before a blank LF row may read as one CR LF. */
  lemma LeadingLf(t: string, rows: seq<seq<string>>)
    requires t != "" && t[0] == '\n'
    ensures Run(t, START.(rows := rows)) == Run(t[1..], START.(rows := rows))
  {
    assert EndRow(START.(rows := rows)) == START.(rows := rows);
  }

  /** Reading one printed line and its ending, whatever follows. */
  lemma RunLine(l: Line, tail: string, rows: seq<seq<string>>)
    requires l.Legal()
    ensures Run(PrintCells(l.cells) + (PrintEnding(l.ending) + tail), START.(rows := rows)) ==
            Run(tail, START.(rows := rows + DropBlank([Values(l.cells)])))
  {
    hide Run, DropBlank, Values;
    var s := RunRow(l.cells, PrintEnding(l.ending) + tail, rows);
    RunEnding(l.ending, tail, s);
    if l.ending == CR && tail != "" && tail[0] == '\n' {
      // CR before a blank LF row reads as one CR LF, which loses a row that is dropped anyway.
      LeadingLf(tail, rows + DropBlank([Values(l.cells)]));
    }
  }

  lemma RunLastLine(l: Line, rows: seq<seq<string>>)
    requires l.Legal()
    ensures Flush(Run(PrintCells(l.cells) + "", START.(rows := rows))) == rows + DropBlank([Values(l.cells)])
  {
    hide DropBlank, Values;
    var s := RunRow(l.cells, "", rows);
  }

  lemma AssocRows(a: seq<seq<string>>, b: seq<seq<string>>, c: seq<seq<string>>)
    ensures a + b + c == a + (b + c)
  {
  }

  lemma {:induction false} RunLines(lines: seq<Line>, finalNewline: bool, rows: seq<seq<string>>)
    requires LegalFile(lines)
    ensures Flush(Run(PrintLines(lines, finalNewline), START.(rows := rows))) == rows + DropBlank(Grid(lines))
    decreases |lines|
  {
    if lines == [] {
      assert rows + DropBlank(Grid(lines)) == rows;
    } else {
      hide Run, Flush, NonBlank, Values, PrintCells, PrintEnding;
      var l := lines[0];
      GridStep(lines);
      if |lines| == 1 && !finalNewline {
        RunLastLine(l, rows);
        assert Grid(lines[1..]) == [];
      } else {
        RunLine(l, PrintLines(lines[1..], finalNewline), rows);
        RunLines(lines[1..], finalNewline, rows + DropBlank([Values(l.cells)]));
        AssocRows(rows, DropBlank([Values(l.cells)]), DropBlank(Grid(lines[1..])));
      }
    }
  }

  /**
   The reader undoes section 2 of RFC 4180: any grid, any legal choice of quoting per cell, any mix of
   row endings, with or without a byte-order mark and a final newline. Rows of empty cells are dropped.
   */
  lemma ParseUndoesPrint(lines: seq<Line>, finalNewline: bool, bom: bool)
    requires LegalFile(lines)
    requires !bom ==> var t := PrintLines(lines, finalNewline); t == "" || t[0] != BOM
    ensures Parse(Print(lines, finalNewline, bom)) == DropBlank(Grid(lines))
  {
    assert StripBom(Print(lines, finalNewline, bom)) == PrintLines(lines, finalNewline);
    RunLines(lines, finalNewline, []);
  }

  // ----- exactly when: counting the characters the reader consumes as delimiters -------------

  function Count(c: char, t: string): nat {
    if t == "" then 0 else (if t[0] == c then 1 else 0) + Count(c, t[1..])
  }

  function CountRow(c: char, row: seq<string>): nat {
    if row == [] then 0 else Count(c, row[0]) + CountRow(c, row[1..])
  }

  function CountRows(c: char, rows: seq<seq<string>>): nat {
    if rows == [] then 0 else CountRow(c, rows[0]) + CountRows(c, rows[1..])
  }

  /** How many times the reader meets `c` as a delimiter, that is, outside quotes. */
  function Bare(c: char, t: string, inQuotes: bool): nat
    decreases |t|
  {
    if t == "" then 0
    else if inQuotes then
      if t[0] != '"' then Bare(c, t[1..], true)
      else if |t| > 1 && t[1] == '"' then Bare(c, t[2..], true)
      else Bare(c, t[1..], false)
    else if t[0] == '"' then Bare(c, t[1..], true)
    else (if t[0] == c && c in {',', '\n', '\r'} then 1 else 0) + Bare(c, t[1..], false)
  }

  /** The occurrences of `c` the reader holds. */
  function Held(c: char, s: Scan): nat {
    CountRows(c, s.rows) + CountRow(c, s.row) + Count(c, s.field)
  }

  lemma CountAppend(c: char, a: string, b: string)
    ensures Count(c, a + b) == Count(c, a) + Count(c, b)
  {
    if a == "" {
      assert a + b == b;
    } else {
      assert (a + b)[1..] == a[1..] + b;
      CountAppend(c, a[1..], b);
    }
  }

  lemma CountRowAppend(c: char, a: seq<string>, b: seq<string>)
    ensures CountRow(c, a + b) == CountRow(c, a) + CountRow(c, b)
  {
    if a == [] {
      assert a + b == b;
    } else {
      assert (a + b)[1..] == a[1..] + b;
      CountRowAppend(c, a[1..], b);
    }
  }

  lemma CountRowsAppend(c: char, a: seq<seq<string>>, b: seq<seq<string>>)
    ensures CountRows(c, a + b) == CountRows(c, a) + CountRows(c, b)
  {
    if a == [] {
      assert a + b == b;
    } else {
      assert (a + b)[1..] == a[1..] + b;
      CountRowsAppend(c, a[1..], b);
    }
  }

  lemma CountBlank(c: char, row: seq<string>)
    requires !NonBlank(row)
    ensures CountRow(c, row) == 0
  {
    if row != [] {
      assert row[0] == "";
      assert forall k | 0 <= k < |row[1..]| :: row[1..][k] == row[k + 1];
      CountBlank(c, row[1..]);
    }
  }

  lemma CountDropBlank(c: char, rows: seq<seq<string>>)
    ensures CountRows(c, DropBlank(rows)) == CountRows(c, rows)
  {
    if rows != [] {
      CountDropBlank(c, rows[1..]);
      if NonBlank(rows[0]) {
        assert DropBlank(rows)[1..] == DropBlank(rows[1..]);
      } else {
        CountBlank(c, rows[0]);
        assert DropBlank(rows) == DropBlank(rows[1..]);
      }
    }
  }

  /** Ending a cell or a row, dropped or not, keeps every character held. */
  lemma HeldEnd(c: char, s: Scan)
    ensures Held(c, EndCell(s)) == Held(c, s) == Held(c, EndRow(s))
  {
    CountRowAppend(c, s.row, [s.field]);
    assert CountRow(c, [s.field]) == Count(c, s.field);
    var done := s.row + [s.field];
    if NonBlank(done) {
      CountRowsAppend(c, s.rows, [done]);
      assert CountRows(c, [done]) == CountRow(c, done);
    } else {
      CountBlank(c, done);
    }
  }

  /** Every character other than a quote is either kept in a cell or was a delimiter. */
  lemma {:induction false} Conservation(c: char, t: string, s: Scan)
    requires c != '"'
    ensures Held(c, Run(t, s)) + Bare(c, t, s.inQuotes) == Held(c, s) + Count(c, t)
    decreases |t|
  {
    if t != "" {
      HeldEnd(c, s);
      CountAppend(c, s.field, [t[0]]);
      assert Count(c, [t[0]]) == if t[0] == c then 1 else 0;
      if s.inQuotes {
        if t[0] == '"' {
          if |t| > 1 && t[1] == '"' {
            assert t[1..][1..] == t[2..];
            assert s.field + [t[0]] == s.field + "\"";
            Conservation(c, t[2..], s.(field := s.field + "\""));
          } else {
            Conservation(c, t[1..], s.(inQuotes := false));
          }
        } else {
          Conservation(c, t[1..], s.(field := s.field + [t[0]]));
        }
      } else if t[0] == '"' {
        Conservation(c, t[1..], s.(inQuotes := true));
      } else if t[0] == ',' {
        Conservation(c, t[1..], EndCell(s));
      } else if t[0] == '\r' && |t| > 1 && t[1] == '\n' {
        assert t[1..][1..] == t[2..];
        Conservation(c, t[2..], EndRow(s));
      } else if t[0] == '\n' || t[0] == '\r' {
        Conservation(c, t[1..], EndRow(s));
      } else {
        Conservation(c, t[1..], s.(field := s.field + [t[0]]));
      }
    }
  }

  lemma ParseConserves(c: char, text: string)
    requires c != '"'
    ensures CountRows(c, Parse(text)) + Bare(c, StripBom(text), false) == Count(c, StripBom(text))
  {
    var s := Run(StripBom(text), START);
    Conservation(c, StripBom(text), START);
    HeldEnd(c, s);
  }

  /** No unquoted cell holds a double quote, so the reader's quoting stays in step with the printer's. */
  ghost predicate QuotesInStep(cells: seq<Cell>) {
    forall k | 0 <= k < |cells| :: !cells[k].quoted ==> '"' !in cells[k].value
  }

  ghost predicate InStep(lines: seq<Line>) {
    forall k | 0 <= k < |lines| :: QuotesInStep(lines[k].cells)
  }

  lemma InStepCons(l: Line, more: seq<Line>)
    requires QuotesInStep(l.cells) && InStep(more)
    ensures InStep([l] + more)
  {
  }

  /** Delimiter characters written inside unquoted cells. */
  function Stray(c: char, cells: seq<Cell>): nat {
    if cells == [] then 0
    else (if cells[0].quoted then 0 else Count(c, cells[0].value)) + Stray(c, cells[1..])
  }

  lemma {:induction false} BarePlain(c: char, v: string, rest: string)
    requires '"' !in v && c in {',', '\n', '\r'}
    ensures Bare(c, v + rest, false) == Count(c, v) + Bare(c, rest, false)
    decreases |v|
  {
    if v == "" {
      assert v + rest == rest;
    } else {
      assert v[0] in v;
      assert (v + rest)[1..] == v[1..] + rest;
      BarePlain(c, v[1..], rest);
    }
  }

  lemma {:induction false} BareQuoted(c: char, v: string, rest: string)
    requires c != '"' && (rest == "" || rest[0] != '"')
    ensures Bare(c, Doubled(v) + "\"" + rest, true) == Bare(c, rest, false)
    ensures Count(c, Doubled(v)) == Count(c, v)
    decreases |v|
  {
    var t := Doubled(v) + "\"" + rest;
    if v == "" {
      assert t[1..] == rest;
    } else {
      var d := if v[0] == '"' then "\"\"" else [v[0]];
      assert t == d + (Doubled(v[1..]) + "\"" + rest);
      assert t[|d|..] == Doubled(v[1..]) + "\"" + rest;
      BareQuoted(c, v[1..], rest);
      CountAppend(c, d, Doubled(v[1..]));
      assert Count(c, d) == Count(c, [v[0]]);
    }
  }

  /** One printed cell: what the reader takes for delimiters is the unquoted content. */
  lemma BareCell(c: char, cell: Cell, rest: string)
    requires (cell.quoted || '"' !in cell.value) && AtDelimiter(rest) && c in {',', '\n', '\r'}
    ensures Bare(c, PrintCell(cell) + rest, false) ==
            (if cell.quoted then 0 else Count(c, cell.value)) + Bare(c, rest, false)
  {
    if cell.quoted {
      var t := PrintCell(cell) + rest;
      assert t[0] == '"' && t[1..] == Doubled(cell.value) + "\"" + rest;
      BareQuoted(c, cell.value, rest);
    } else {
      BarePlain(c, cell.value, rest);
    }
  }

  lemma BareCellComma(c: char, cell: Cell, after: string)
    requires (cell.quoted || '"' !in cell.value) && c in {',', '\n', '\r'}
    ensures Bare(c, PrintCell(cell) + ("," + after), false) ==
            (if cell.quoted then 0 else Count(c, cell.value)) + Commas(c, 2) + Bare(c, after, false)
  {
    BareCell(c, cell, "," + after);
    BarePlain(c, ",", after);
    assert ","[1..] == "";
  }

  lemma CountCell(c: char, cell: Cell)
    requires c != '"'
    ensures Count(c, PrintCell(cell)) == Count(c, cell.value)
  {
    if cell.quoted {
      BareQuoted(c, cell.value, "");
      CountAppend(c, "\"" + Doubled(cell.value), "\"");
      CountAppend(c, "\"", Doubled(cell.value));
    }
  }

  function Commas(c: char, n: nat): nat {
    if c == ',' && n > 0 then n - 1 else 0
  }

  lemma {:induction false} BareCells(c: char, cells: seq<Cell>, rest: string)
    requires QuotesInStep(cells) && c in {',', '\n', '\r'}
    requires rest == "" || rest[0] in {'\n', '\r'}
    ensures Bare(c, PrintCells(cells) + rest, false) == Stray(c, cells) + Commas(c, |cells|) + Bare(c, rest, false)
    decreases |cells|
  {
    hide Bare;
    if cells == [] {
      assert PrintCells(cells) + rest == rest;
    } else if |cells| == 1 {
      BareCell(c, cells[0], rest);
      assert PrintCells(cells) == PrintCell(cells[0]);
    } else {
      var more := PrintCells(cells[1..]);
      Assoc(PrintCell(cells[0]), "," + more, rest);
      Assoc(",", more, rest);
      BareCellComma(c, cells[0], more + rest);
      BareCells(c, cells[1..], rest);
    }
  }

  lemma {:induction false} CountCells(c: char, cells: seq<Cell>)
    requires c != '"'
    ensures Count(c, PrintCells(cells)) == CountRow(c, Values(cells)) + Commas(c, |cells|)
    decreases |cells|
  {
    if cells != [] {
      CountCell(c, cells[0]);
      if |cells| > 1 {
        CountAppend(c, PrintCell(cells[0]), "," + PrintCells(cells[1..]));
        CountAppend(c, ",", PrintCells(cells[1..]));
        CountCells(c, cells[1..]);
      }
    }
  }

  function StrayLines(c: char, lines: seq<Line>): nat {
    if lines == [] then 0 else Stray(c, lines[0].cells) + StrayLines(c, lines[1..])
  }

  /** The delimiters the printer itself writes. */
  function Separators(c: char, lines: seq<Line>, finalNewline: bool): nat {
    if lines == [] then 0
    else Commas(c, |lines[0].cells|) + Count(c, EndingAt(lines, finalNewline)) +
         Separators(c, lines[1..], finalNewline)
  }

  lemma {:induction false} BareLines(c: char, lines: seq<Line>, finalNewline: bool)
    requires InStep(lines)
    requires c in {',', '\n', '\r'}
    ensures Bare(c, PrintLines(lines, finalNewline), false) ==
            StrayLines(c, lines) + Separators(c, lines, finalNewline)
    decreases |lines|
  {
    if lines != [] {
      var cells, tail := lines[0].cells, PrintLines(lines[1..], finalNewline);
      var e := EndingAt(lines, finalNewline);
      assert QuotesInStep(cells);
      assert e + tail == "" || (e + tail)[0] in {'\n', '\r'} by {
        if e == "" { assert lines[1..] == []; }
      }
      BareCells(c, cells, e + tail);
      BarePlain(c, e, tail);
      BareLines(c, lines[1..], finalNewline);
    }
  }

  lemma {:induction false} CountLines(c: char, lines: seq<Line>, finalNewline: bool)
    requires c != '"'
    ensures Count(c, PrintLines(lines, finalNewline)) ==
            CountRows(c, Grid(lines)) + Separators(c, lines, finalNewline)
    decreases |lines|
  {
    if lines != [] {
      var cells, tail := lines[0].cells, PrintLines(lines[1..], finalNewline);
      var e := EndingAt(lines, finalNewline);
      CountAppend(c, PrintCells(cells), e + tail);
      CountAppend(c, e, tail);
      CountCells(c, cells);
      CountLines(c, lines[1..], finalNewline);
    }
  }

  lemma CountEnding(c: char, e: Ending)
    requires c !in {',', '\n', '\r'}
    ensures Count(c, PrintEnding(e)) == 0
  {
    var t := PrintEnding(e);
    assert Count(c, t[1..]) == 0 by {
      if e == CRLF { assert t[1..][0] == '\n' && t[1..][1..] == ""; }
    }
  }

  lemma {:induction false} NoSeparators(c: char, lines: seq<Line>, finalNewline: bool)
    requires c !in {',', '\n', '\r'}
    ensures Separators(c, lines, finalNewline) == 0
    decreases |lines|
  {
    if lines != [] {
      NoSeparators(c, lines[1..], finalNewline);
      CountEnding(c, lines[0].ending);
    }
  }

  lemma NoneBare(c: char, t: string, inQuotes: bool)
    requires c !in {',', '\n', '\r'}
    ensures Bare(c, t, inQuotes) == 0
    decreases |t|
  {
  }

  lemma NoStray(c: char, cells: seq<Cell>)
    requires Stray(c, cells) == 0
    ensures forall k | 0 <= k < |cells| :: cells[k].quoted || c !in cells[k].value
  {
    if cells != [] {
      NoStray(c, cells[1..]);
      NoneCounted(c, cells[0].value);
      forall k | 0 <= k < |cells| ensures cells[k].quoted || c !in cells[k].value {
        if k > 0 { assert cells[k] == cells[1..][k - 1]; }
      }
    }
  }

  lemma NoneCounted(c: char, v: string)
    ensures Count(c, v) == 0 <==> c !in v
  {
    if v != "" { NoneCounted(c, v[1..]); }
  }

  lemma {:induction false} NoStrayLines(lines: seq<Line>)
    requires InStep(lines)
    requires StrayLines(',', lines) == StrayLines('\n', lines) == StrayLines('\r', lines) == 0
    ensures LegalFile(lines)
  {
    if lines != [] {
      NoStrayLines(lines[1..]);
      assert lines[0].Legal() by { NoStrayCells(lines[0].cells, lines[0].ending); }
      forall k | 0 <= k < |lines| ensures lines[k].Legal() {
        if k > 0 { assert lines[k] == lines[1..][k - 1]; }
      }
    }
  }

  lemma NoStrayCells(cells: seq<Cell>, ending: Ending)
    requires QuotesInStep(cells)
    requires Stray(',', cells) == Stray('\n', cells) == Stray('\r', cells) == 0
    ensures Line(cells, ending).Legal()
  {
    NoStray(',', cells);
    NoStray('\n', cells);
    NoStray('\r', cells);
  }

  /**
   The round trip, exactly: as long as no unquoted cell holds a double quote, the reader undoes the
   printer if and only if every cell is legally quoted and no U+FEFF of the data stands where a
   byte-order mark would.
   */
  lemma ParseUndoesPrintExactly(lines: seq<Line>, finalNewline: bool, bom: bool)
    requires InStep(lines)
    ensures Parse(Print(lines, finalNewline, bom)) == DropBlank(Grid(lines)) <==>
            LegalFile(lines) && (!bom ==> var t := PrintLines(lines, finalNewline); t == "" || t[0] != BOM)
  {
    var t, text := PrintLines(lines, finalNewline), Print(lines, finalNewline, bom);
    if LegalFile(lines) && (!bom ==> t == "" || t[0] != BOM) {
      ParseUndoesPrint(lines, finalNewline, bom);
    }
    if Parse(text) == DropBlank(Grid(lines)) {
      assert !bom ==> text == t;
      if !bom && t != "" && t[0] == BOM {
        // One U+FEFF went missing: no delimiter can account for it.
        ParseConserves(BOM, text);
        CountLines(BOM, lines, finalNewline);
        NoSeparators(BOM, lines, finalNewline);
        NoneBare(BOM, StripBom(text), false);
        CountDropBlank(BOM, Grid(lines));
        assert false;
      }
      assert StripBom(text) == t;
      forall c: char | c in {',', '\n', '\r'} ensures StrayLines(c, lines) == 0 {
        ParseConserves(c, text);
        BareLines(c, lines, finalNewline);
        CountLines(c, lines, finalNewline);
        CountDropBlank(c, Grid(lines));
      }
      NoStrayLines(lines);
    }
  }
}
