/**
 The CSV printer of the upload assistant (`toCsv`), and the files the declared-income reader reads back.
 */
module UploadCsv {
  import opened Csv

  type Record = map<string, string>

  function Lookup(r: Record, h: string): string {
    if h in r then r[h] else ""
  }

  /** The pattern that decides on quotes: a quote, a comma or an LF, but not a CR. */
  predicate NeedsQuotes(v: string) {
    '"' in v || ',' in v || '\n' in v
  }

  function Esc(v: string): string {
    if NeedsQuotes(v) then "\"" + Doubled(v) + "\"" else v
  }

  function Join(parts: seq<string>, sep: string): string {
    if parts == [] then "" else if |parts| == 1 then parts[0] else parts[0] + (sep + Join(parts[1..], sep))
  }

  /** One cell per header. */
  function CellsOf(headers: seq<string>, r: Record): seq<string> {
    seq(|headers|, j requires 0 <= j < |headers| => Lookup(r, headers[j]))
  }

  /** The grid `ToCsv` is asked to print: the headers, then one row for every record. */
  function Table(headers: seq<string>, rows: seq<Record>): seq<seq<string>> {
    [headers] + seq(|rows|, i requires 0 <= i < |rows| => CellsOf(headers, rows[i]))
  }

  function HeaderCells(headers: seq<string>): seq<Cell> {
    if headers == [] then [] else [Cell(headers[0], false)] + HeaderCells(headers[1..])
  }

  function RecordCells(headers: seq<string>, r: Record): seq<Cell> {
    if headers == [] then []
    else var v := Lookup(r, headers[0]); [Cell(v, NeedsQuotes(v))] + RecordCells(headers[1..], r)
  }

  function RecordLines(headers: seq<string>, rows: seq<Record>): seq<Line> {
    if rows == [] then [] else [Line(RecordCells(headers, rows[0]), LF)] + RecordLines(headers, rows[1..])
  }

  function ToCsvLines(headers: seq<string>, rows: seq<Record>): seq<Line> {
    [Line(HeaderCells(headers), LF)] + RecordLines(headers, rows)
  }

  lemma JoinHeaders(headers: seq<string>)
    ensures Join(headers, ",") == PrintCells(HeaderCells(headers))
    ensures Values(HeaderCells(headers)) == headers
  {
    if headers != [] { JoinHeaders(headers[1..]); }
  }

  function EscapedCells(headers: seq<string>, r: Record): seq<string> {
    seq(|headers|, j requires 0 <= j < |headers| => Esc(Lookup(r, headers[j])))
  }

  lemma JoinRecord(headers: seq<string>, r: Record)
    ensures Join(EscapedCells(headers, r), ",") == PrintCells(RecordCells(headers, r))
    ensures Values(RecordCells(headers, r)) == CellsOf(headers, r)
  {
    if headers != [] {
      JoinRecord(headers[1..], r);
      assert EscapedCells(headers, r)[1..] == EscapedCells(headers[1..], r);
      assert CellsOf(headers, r)[1..] == CellsOf(headers[1..], r);
    }
  }

  /** Appending a line to a text of LF-joined lines. */
  lemma JoinLines(first: string, lines: seq<Line>)
    requires forall i | 0 <= i < |lines| :: lines[i].ending == LF
    ensures Join([first] + PrintedLines(lines), "\n") ==
            first + (if lines == [] then "" else "\n" + PrintLines(lines, false))
    decreases |lines|
  {
    var all := [first] + PrintedLines(lines);
    assert all[1..] == PrintedLines(lines);
    if lines != [] {
      var here := PrintCells(lines[0].cells);
      assert PrintedLines(lines) == [here] + PrintedLines(lines[1..]);
      JoinLines(here, lines[1..]);
      assert |lines| == 1 ==> PrintLines(lines[1..], false) == "";
    }
  }

  function PrintedLines(lines: seq<Line>): seq<string> {
    if lines == [] then [] else [PrintCells(lines[0].cells)] + PrintedLines(lines[1..])
  }

  lemma PrintedAppend(headers: seq<string>, rows: seq<Record>, r: Record)
    ensures PrintedLines(RecordLines(headers, rows + [r])) ==
            PrintedLines(RecordLines(headers, rows)) + [PrintCells(RecordCells(headers, r))]
  {
    if rows != [] {
      assert (rows + [r])[1..] == rows[1..] + [r];
      PrintedAppend(headers, rows[1..], r);
    }
  }

  lemma AllLf(headers: seq<string>, rows: seq<Record>)
    ensures forall i | 0 <= i < |RecordLines(headers, rows)| :: RecordLines(headers, rows)[i].ending == LF
  {
  }

  /** `toCsv`: the printer's lines, LF between them, no final newline, no byte-order mark. */
  method ToCsv(headers: seq<string>, rows: seq<Record>) returns (text: string)
    ensures text == Print(ToCsvLines(headers, rows), false, false)
  {
    var lines := [Join(headers, ",")];
    JoinHeaders(headers);
    for n := 0 to |rows|
      invariant lines == [Join(headers, ",")] + PrintedLines(RecordLines(headers, rows[..n]))
    {
      lines := lines + [Join(EscapedCells(headers, rows[n]), ",")];
      JoinRecord(headers, rows[n]);
      PrintedAppend(headers, rows[..n], rows[n]);
      assert rows[..n] + [rows[n]] == rows[..n + 1];
    }
    assert rows[..|rows|] == rows;
    AllLf(headers, rows);
    JoinLines(Join(headers, ","), RecordLines(headers, rows));
    text := Join(lines, "\n");
    assert ToCsvLines(headers, rows)[1..] == RecordLines(headers, rows);
  }

  /** What a caller can check before printing: the inputs whose CSV reads back as the same table. */
  ghost predicate Printable(headers: seq<string>, rows: seq<Record>) {
    && PlainHeaders(headers)
    && PlainRecords(headers, rows)
    && (var t := PrintLines(ToCsvLines(headers, rows), false); t == "" || t[0] != BOM)
  }

  predicate PlainHeaders(headers: seq<string>) {
    forall h | h in headers :: '"' !in h && ',' !in h && '\n' !in h && '\r' !in h
  }

  /** Every cell holding a carriage return also holds a quote, a comma or an LF. */
  predicate PlainRecord(headers: seq<string>, r: Record) {
    forall h | h in headers :: '\r' !in Lookup(r, h) || NeedsQuotes(Lookup(r, h))
  }

  lemma ToCsvGrid(headers: seq<string>, rows: seq<Record>)
    ensures Grid(ToCsvLines(headers, rows)) == Table(headers, rows)
  {
    JoinHeaders(headers);
    RecordGrid(headers, rows);
    assert ToCsvLines(headers, rows)[1..] == RecordLines(headers, rows);
  }

  lemma RecordGrid(headers: seq<string>, rows: seq<Record>)
    ensures Grid(RecordLines(headers, rows)) == Table(headers, rows)[1..]
  {
    if rows != [] {
      JoinRecord(headers, rows[0]);
      RecordGrid(headers, rows[1..]);
      assert Table(headers, rows)[1..][1..] == Table(headers, rows[1..])[1..];
      assert RecordLines(headers, rows)[1..] == RecordLines(headers, rows[1..]);
    }
  }

  lemma HeaderLegal(headers: seq<string>)
    requires forall h | h in headers :: '"' !in h
    ensures QuotesInStep(HeaderCells(headers))
    ensures Line(HeaderCells(headers), LF).Legal() <==> PlainHeaders(headers)
  {
    if headers != [] {
      var h, more := headers[0], HeaderCells(headers[1..]);
      HeaderLegal(headers[1..]);
      assert h in headers;
      assert PlainHeaders(headers) <==> (',' !in h && '\n' !in h && '\r' !in h) && PlainHeaders(headers[1..]);
      LegalCons(Cell(h, false), more);
    }
  }

  lemma LegalCons(c: Cell, more: seq<Cell>)
    ensures Line([c] + more, LF).Legal() <==> c.Legal() && Line(more, LF).Legal()
    ensures QuotesInStep([c] + more) <==> (c.quoted || '"' !in c.value) && QuotesInStep(more)
  {
    var all := [c] + more;
    assert forall k | 0 < k < |all| :: all[k] == more[k - 1];
    assert forall k | 0 <= k < |more| :: more[k] == all[k + 1];
    assert all[0] == c;
  }

  lemma RecordLegal(headers: seq<string>, r: Record)
    ensures QuotesInStep(RecordCells(headers, r))
    ensures Line(RecordCells(headers, r), LF).Legal() <==> PlainRecord(headers, r)
  {
    if headers != [] {
      var h, more := headers[0], RecordCells(headers[1..], r);
      var v := Lookup(r, h);
      RecordLegal(headers[1..], r);
      assert PlainRecord(headers, r) <==> ('\r' !in v || NeedsQuotes(v)) && PlainRecord(headers[1..], r);
      LegalCons(Cell(v, NeedsQuotes(v)), more);
    }
  }

  predicate PlainRecords(headers: seq<string>, rows: seq<Record>) {
    forall i | 0 <= i < |rows| :: PlainRecord(headers, rows[i])
  }

  lemma RecordLinesLegal(headers: seq<string>, rows: seq<Record>)
    ensures InStep(RecordLines(headers, rows))
    ensures LegalFile(RecordLines(headers, rows)) <==> PlainRecords(headers, rows)
  {
    if rows != [] {
      var l, more := Line(RecordCells(headers, rows[0]), LF), RecordLines(headers, rows[1..]);
      RecordLinesLegal(headers, rows[1..]);
      RecordLegal(headers, rows[0]);
      LegalFileCons(l, more);
      InStepCons(l, more);
      assert PlainRecords(headers, rows) <==> PlainRecord(headers, rows[0]) && PlainRecords(headers, rows[1..]) by {
        assert forall i | 0 < i < |rows| :: rows[i] == rows[1..][i - 1];
        assert forall i | 0 <= i < |rows[1..]| :: rows[1..][i] == rows[i + 1];
      }
    }
  }

  lemma ToCsvLegal(headers: seq<string>, rows: seq<Record>)
    requires forall h | h in headers :: '"' !in h
    ensures InStep(ToCsvLines(headers, rows))
    ensures LegalFile(ToCsvLines(headers, rows)) <==> PlainHeaders(headers) && PlainRecords(headers, rows)
  {
    HeaderLegal(headers);
    RecordLinesLegal(headers, rows);
    LegalFileCons(Line(HeaderCells(headers), LF), RecordLines(headers, rows));
    InStepCons(Line(HeaderCells(headers), LF), RecordLines(headers, rows));
  }

  // ----- a quoted header never reads back ------------------------------------------------------

  /** The double quotes that printing a record cell with this value takes. */
  function Weight(v: string): nat {
    2 * Count('"', v) + if NeedsQuotes(v) then 2 else 0
  }

  function RowWeight(row: seq<string>): nat {
    if row == [] then 0 else Weight(row[0]) + RowWeight(row[1..])
  }

  function GridWeight(rows: seq<seq<string>>): nat {
    if rows == [] then 0 else RowWeight(rows[0]) + GridWeight(rows[1..])
  }

  lemma RowWeightAppend(a: seq<string>, v: string)
    ensures RowWeight(a + [v]) == RowWeight(a) + Weight(v)
  {
    if a != [] {
      assert (a + [v])[1..] == a[1..] + [v];
      RowWeightAppend(a[1..], v);
    }
  }

  lemma GridWeightAppend(a: seq<seq<string>>, row: seq<string>)
    ensures GridWeight(a + [row]) == GridWeight(a) + RowWeight(row)
  {
    if a != [] {
      assert (a + [row])[1..] == a[1..] + [row];
      GridWeightAppend(a[1..], row);
    }
  }

  lemma BlankWeighsNothing(row: seq<string>)
    requires !NonBlank(row)
    ensures RowWeight(row) == 0
  {
    if row != [] {
      assert row[0] == "";
      assert forall k | 0 <= k < |row[1..]| :: row[1..][k] == row[k + 1];
      BlankWeighsNothing(row[1..]);
    }
  }

  lemma DropBlankWeight(rows: seq<seq<string>>)
    ensures GridWeight(DropBlank(rows)) == GridWeight(rows)
  {
    if rows != [] {
      DropBlankWeight(rows[1..]);
      if NonBlank(rows[0]) {
        assert DropBlank(rows)[1..] == DropBlank(rows[1..]);
      } else {
        BlankWeighsNothing(rows[0]);
        assert DropBlank(rows) == DropBlank(rows[1..]);
      }
    }
  }

  /** What the quotes read so far must have paid for; an open quote has paid for one of its cell's two. */
  function Paid(s: Scan): nat {
    GridWeight(s.rows) + RowWeight(s.row) + if s.inQuotes then 2 * Count('"', s.field) + 1 else Weight(s.field)
  }

  lemma PaidAtEnd(s: Scan)
    ensures !s.inQuotes ==> Paid(EndCell(s)) == Paid(s) == Paid(EndRow(s))
    ensures GridWeight(EndRow(s).rows) <= Paid(s) + 1
  {
    var done := s.row + [s.field];
    RowWeightAppend(s.row, s.field);
    if NonBlank(done) { GridWeightAppend(s.rows, done); } else { BlankWeighsNothing(done); }
  }

  lemma PaidByNextChar(s: Scan, c: char)
    ensures s.inQuotes && c != '"' ==> Paid(s.(field := s.field + [c])) == Paid(s)
    ensures s.inQuotes ==> Paid(s.(field := s.field + "\"")) == Paid(s) + 2
    ensures s.inQuotes ==> Paid(s.(inQuotes := false)) <= Paid(s) + 1
    ensures !s.inQuotes ==> Paid(s.(inQuotes := true)) <= Paid(s) + 1
    ensures !s.inQuotes && c !in {'"', ',', '\n'} ==> Paid(s.(field := s.field + [c])) == Paid(s)
  {
    CountAppend('"', s.field, [c]);
    CountAppend('"', s.field, "\"");
    NoneCounted('\"', s.field);
  }

  lemma {:induction false} QuotesPay(t: string, s: Scan)
    ensures Paid(Run(t, s)) <= Paid(s) + Count('"', t)
    decreases |t|
  {
    if t != "" {
      hide Paid;
      PaidByNextChar(s, t[0]);
      PaidAtEnd(s);
      if s.inQuotes {
        if t[0] == '"' {
          if |t| > 1 && t[1] == '"' {
            assert t[1..][1..] == t[2..];
            QuotesPay(t[2..], s.(field := s.field + "\""));
          } else {
            QuotesPay(t[1..], s.(inQuotes := false));
          }
        } else {
          QuotesPay(t[1..], s.(field := s.field + [t[0]]));
        }
      } else if t[0] == '"' {
        QuotesPay(t[1..], s.(inQuotes := true));
      } else if t[0] == ',' {
        QuotesPay(t[1..], EndCell(s));
      } else if t[0] == '\r' && |t| > 1 && t[1] == '\n' {
        assert t[1..][1..] == t[2..];
        QuotesPay(t[2..], EndRow(s));
      } else if t[0] == '\n' || t[0] == '\r' {
        QuotesPay(t[1..], EndRow(s));
      } else {
        QuotesPay(t[1..], s.(field := s.field + [t[0]]));
      }
    }
  }

  /** Whatever the text, each quote it holds pays for one unit of what is read, bar one never closed. */
  lemma ParsedWeight(text: string)
    ensures GridWeight(Parse(text)) <= Count('"', text) + 1
  {
    var t := StripBom(text);
    QuotesPay(t, START);
    PaidAtEnd(Run(t, START));
  }

  lemma QuotesOfCell(v: string)
    ensures Count('"', PrintCell(Cell(v, NeedsQuotes(v)))) == Weight(v)
  {
    NoneCounted('\"', v);
    if NeedsQuotes(v) {
      QuotesDoubled(v);
      CountAppend('"', "\"" + Doubled(v), "\"");
      CountAppend('"', "\"", Doubled(v));
    }
  }

  lemma QuotesDoubled(v: string)
    ensures Count('"', Doubled(v)) == 2 * Count('"', v)
  {
    if v != "" {
      var d := if v[0] == '"' then "\"\"" else [v[0]];
      CountAppend('"', d, Doubled(v[1..]));
      QuotesDoubled(v[1..]);
    }
  }

  lemma QuotesOfHeaders(headers: seq<string>)
    ensures Count('"', PrintCells(HeaderCells(headers))) == CountRow('"', headers)
  {
    if headers != [] {
      QuotesOfHeaders(headers[1..]);
      if |headers| > 1 {
        var more := PrintCells(HeaderCells(headers[1..]));
        CountAppend('"', headers[0], "," + more);
        CountAppend('"', ",", more);
      }
    }
  }

  lemma QuotesOfRecord(headers: seq<string>, r: Record)
    ensures Count('"', PrintCells(RecordCells(headers, r))) == RowWeight(Values(RecordCells(headers, r)))
  {
    if headers != [] {
      var v := Lookup(r, headers[0]);
      QuotesOfCell(v);
      QuotesOfRecord(headers[1..], r);
      if |headers| > 1 {
        var more := PrintCells(RecordCells(headers[1..], r));
        CountAppend('"', PrintCell(Cell(v, NeedsQuotes(v))), "," + more);
        CountAppend('"', ",", more);
      }
    }
  }

  lemma QuotesOfRecords(headers: seq<string>, rows: seq<Record>)
    ensures Count('"', PrintLines(RecordLines(headers, rows), false)) == GridWeight(Grid(RecordLines(headers, rows)))
  {
    if rows != [] {
      var cells, more := RecordCells(headers, rows[0]), PrintLines(RecordLines(headers, rows[1..]), false);
      var e := EndingAt(RecordLines(headers, rows), false);
      QuotesOfRecord(headers, rows[0]);
      QuotesOfRecords(headers, rows[1..]);
      CountAppend('"', PrintCells(cells), e + more);
      CountAppend('"', e, more);
    }
  }

  /** The printer spends one quote for each of a header's where reading it back would take at least two. */
  lemma HeadersUnderpaid(headers: seq<string>)
    ensures RowWeight(headers) >= 2 * CountRow('"', headers)
    ensures (exists h | h in headers :: '"' in h) ==> RowWeight(headers) >= CountRow('"', headers) + 3
  {
    if headers != [] {
      HeadersUnderpaid(headers[1..]);
      NoneCounted('\"', headers[0]);
    }
  }

  lemma QuotesPrinted(headers: seq<string>, rows: seq<Record>)
    ensures Count('"', Print(ToCsvLines(headers, rows), false, false)) ==
            CountRow('"', headers) + GridWeight(Grid(RecordLines(headers, rows)))
  {
    hide Count, CountRow, GridWeight;
    var records := RecordLines(headers, rows);
    var first, e := PrintCells(HeaderCells(headers)), EndingAt(ToCsvLines(headers, rows), false);
    var more := PrintLines(records, false);
    assert ToCsvLines(headers, rows)[1..] == records;
    assert Print(ToCsvLines(headers, rows), false, false) == first + (e + more);
    CountAppend('"', first, e + more);
    CountAppend('"', e, more);
    NoneCounted('\"', e);
    QuotesOfHeaders(headers);
    QuotesOfRecords(headers, rows);
  }

  lemma QuotedHeaderNeverReadsBack(headers: seq<string>, rows: seq<Record>)
    requires exists h | h in headers :: '"' in h
    ensures Parse(Print(ToCsvLines(headers, rows), false, false)) != DropBlank(Table(headers, rows))
  {
    QuotesPrinted(headers, rows);
    HeadersUnderpaid(headers);
    ToCsvGrid(headers, rows);
    ParsedWeight(Print(ToCsvLines(headers, rows), false, false));
    DropBlankWeight(Table(headers, rows));
    hide Parse, Print, DropBlank, CountRow, RowWeight;
    assert Grid(ToCsvLines(headers, rows))[1..] == Grid(RecordLines(headers, rows));
  }

  /** `parseCsv` undoes `toCsv` on exactly the printable inputs. */
  lemma ParseUndoesToCsv(headers: seq<string>, rows: seq<Record>)
    ensures Parse(Print(ToCsvLines(headers, rows), false, false)) == DropBlank(Table(headers, rows)) <==>
            Printable(headers, rows)
  {
    if exists h | h in headers :: '"' in h {
      QuotedHeaderNeverReadsBack(headers, rows);
    } else {
      ToCsvGrid(headers, rows);
      ToCsvLegal(headers, rows);
      ParseUndoesPrintExactly(ToCsvLines(headers, rows), false, false);
    }
  }

  /** A carriage return alone does not trigger the quotes, and the printed row reads back as two. */
  lemma CarriageReturnSplitsARow()
    ensures var rows := [map["a" := "x\ry"]];
            Parse(Print(ToCsvLines(["a"], rows), false, false)) != DropBlank(Table(["a"], rows))
  {
    var rows: seq<Record> := [map["a" := "x\ry"]];
    ParseUndoesToCsv(["a"], rows);
    var v := Lookup(rows[0], "a");
    assert v == "x\ry" && v[1] == '\r' && !NeedsQuotes(v);
    assert "a" in ["a"] && !PlainRecord(["a"], rows[0]);
  }
}
