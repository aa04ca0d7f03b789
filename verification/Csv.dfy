/**
 The report CSV of scripts/categorise-products.ts: the writer, the character-level parser, and the round trip
 between them. The format is that of RFC 4180, section 2.
 */
module Csv {
  import opened Text

  const CSV_COLUMNS: seq<string> := [
    "product_id", "product_code", "product_name", "brand", "unit", "old_category_id", "old_category",
    "old_department", "proposed_category", "proposed_subcategory", "new_category", "decision", "score", "reason"]

  /** A record by column name; the source's rows have every column, the writer takes a missing one as empty. */
  type ReportRow = map<string, string>

  function Get(row: ReportRow, column: string): string {
    if column in row then row[column] else ""
  }

  /* ---- writing ---- */

  predicate NeedsQuotes(v: string) {
    '"' in v || ',' in v || '\n' in v || '\r' in v
  }

  function DoubleQuotes(v: string): string {
    if v == "" then "" else (if v[0] == '"' then "\"\"" else [v[0]]) + DoubleQuotes(v[1..])
  }

  function Cell(v: string): string {
    if NeedsQuotes(v) then "\"" + DoubleQuotes(v) + "\"" else v
  }

  function Cells(row: ReportRow): seq<string> {
    seq(|CSV_COLUMNS|, i requires 0 <= i < |CSV_COLUMNS| => Get(row, CSV_COLUMNS[i]))
  }

  function Written(cells: seq<string>): seq<string> {
    seq(|cells|, i requires 0 <= i < |cells| => Cell(cells[i]))
  }

  function Lines(rows: seq<ReportRow>): seq<string> {
    [Join(CSV_COLUMNS, ',')] + seq(|rows|, i requires 0 <= i < |rows| => Join(Written(Cells(rows[i])), ','))
  }

  function ToCsv(rows: seq<ReportRow>): string {
    Join(Lines(rows), '\n') + "\n"
  }

  /** The same report with every record, the last one too, ended by the given line ending. */
  function Ended(lines: seq<string>, ending: string): string {
    if lines == [] then "" else lines[0] + ending + Ended(lines[1..], ending)
  }

  /* ---- parsing ---- */

  datatype Scanner = Scanner(records: seq<seq<string>>, record: seq<string>, field: string, quoted: bool)

  const START := Scanner([], [], "", false)

  /** The parser's loop from a state on, over the text still to be read. */
  function Scan(text: string, st: Scanner): Scanner {
    if text == "" then st
    else
      var ch := text[0];
      if st.quoted then
        if ch == '"' && |text| > 1 && text[1] == '"' then Scan(text[2..], st.(field := st.field + ['"']))
        else if ch == '"' then Scan(text[1..], st.(quoted := false))
        else Scan(text[1..], st.(field := st.field + [ch]))
      else if ch == '"' then Scan(text[1..], st.(quoted := true))
      else if ch == ',' then Scan(text[1..], st.(record := st.record + [st.field], field := ""))
      else if ch == '\n' then Scan(text[1..], Scanner(st.records + [st.record + [st.field]], [], "", false))
      else if ch != '\r' then Scan(text[1..], st.(field := st.field + [ch]))
      else Scan(text[1..], st)
  }

  function Finish(st: Scanner): seq<seq<string>> {
    if st.field != "" || st.record != [] then st.records + [st.record + [st.field]] else st.records
  }

  method ReadRecords(text: string) returns (records: seq<seq<string>>)
    ensures records == Finish(Scan(text, START))
  {
    records := [];
    var field := "";
    var record: seq<string> := [];
    var quoted := false;
    var i := 0;
    while i < |text|
      invariant 0 <= i <= |text|
      invariant Scan(text[i..], Scanner(records, record, field, quoted)) == Scan(text, START)
    {
      var ch := text[i];
      ghost var left := text[i..];
      assert text[i + 1..] == left[1..];
      if quoted {
        if ch == '"' && i + 1 < |text| && text[i + 1] == '"' {
          assert text[i + 2..] == left[2..];
          field := field + ['"'];
          i := i + 1;
        } else if ch == '"' {
          quoted := false;
        } else {
          field := field + [ch];
        }
      } else if ch == '"' {
        quoted := true;
      } else if ch == ',' {
        record := record + [field];
        field := "";
      } else if ch == '\n' {
        record := record + [field];
        records := records + [record];
        record := [];
        field := "";
      } else if ch != '\r' {
        field := field + [ch];
      }
      i := i + 1;
    }
    if field != "" || record != [] {
      record := record + [field];
      records := records + [record];
    }
  }

  predicate SomeCell(cells: seq<string>) {
    exists i :: 0 <= i < |cells| && !Blank(cells[i])
  }

  function CellAt(cells: seq<string>, i: nat): string {
    if i < |cells| then cells[i] else ""
  }

  /** `Object.fromEntries` over the header: a repeated name keeps the last cell. */
  function ToRow(header: seq<string>, cells: seq<string>, n: nat): ReportRow
    requires n <= |header|
  {
    if n == 0 then map[] else ToRow(header, cells, n - 1)[header[n - 1] := CellAt(cells, n - 1)]
  }

  function Body(header: seq<string>, records: seq<seq<string>>): seq<ReportRow> {
    if records == [] then []
    else (if SomeCell(records[0]) then [ToRow(header, records[0], |header|)] else []) + Body(header, records[1..])
  }

  /** The parsed report; None where the source stops because a column is missing. */
  function Table(records: seq<seq<string>>): Option<seq<ReportRow>> {
    if records == [] || exists c :: c in CSV_COLUMNS && c !in records[0] then None
    else Some(Body(records[0], records[1..]))
  }

  function Parse(text: string): Option<seq<ReportRow>> {
    Table(Finish(Scan(text, START)))
  }

  method ParseCsv(text: string) returns (rows: Option<seq<ReportRow>>)
    ensures rows == Parse(text)
  {
    var records := ReadRecords(text);
    rows := Table(records);
  }

  /* ---- one cell ---- */

  lemma {:induction false} ScanPlain(v: string, rest: string, st: Scanner)
    requires !NeedsQuotes(v) && !st.quoted
    ensures Scan(v + rest, st) == Scan(rest, st.(field := st.field + v))
  {
    if v == "" {
      assert v + rest == rest && st.field + v == st.field;
    } else {
      assert (v + rest)[1..] == v[1..] + rest;
      ScanPlain(v[1..], rest, st.(field := st.field + [v[0]]));
      assert st.field + [v[0]] + v[1..] == st.field + v;
    }
  }

  lemma {:induction false} ScanQuoted(v: string, rest: string, st: Scanner)
    requires st.quoted
    requires rest == "" || rest[0] != '"'
    ensures Scan(DoubleQuotes(v) + "\"" + rest, st) == Scan(rest, st.(field := st.field + v, quoted := false))
  {
    var text := DoubleQuotes(v) + "\"" + rest;
    if v == "" {
      assert text == "\"" + rest && text[1..] == rest;
      assert st.field + v == st.field;
    } else {
      var next := DoubleQuotes(v[1..]) + "\"" + rest;
      if v[0] == '"' {
        assert text == "\"\"" + next;
        assert text[2..] == next;
      } else {
        assert text == [v[0]] + next;
        assert text[1..] == next;
      }
      ScanQuoted(v[1..], rest, st.(field := st.field + [v[0]]));
      assert st.field + [v[0]] + v[1..] == st.field + v;
    }
  }

  lemma OpenQuote(rest: string, st: Scanner)
    requires !st.quoted
    ensures Scan(['"'] + rest, st) == Scan(rest, st.(quoted := true))
  {
    assert (['"'] + rest)[1..] == rest;
  }

  lemma ScanCell(v: string, rest: string, st: Scanner)
    requires !st.quoted && st.field == ""
    requires rest == "" || rest[0] != '"'
    ensures Scan(Cell(v) + rest, st) == Scan(rest, st.(field := v))
  {
    if NeedsQuotes(v) {
      var quoted := DoubleQuotes(v) + "\"" + rest;
      assert Cell(v) + rest == ['"'] + quoted;
      OpenQuote(quoted, st);
      ScanQuoted(v, rest, st.(quoted := true));
      assert "" + v == v;
      hide Scan, DoubleQuotes;
    } else {
      ScanPlain(v, rest, st);
      assert "" + v == v;
    }
  }

  /* ---- one record, then all of them ---- */

  predicate LineEnding(ending: string) {
    ending == "\n" || ending == "\r\n"
  }

  lemma ScanEnding(ending: string, rest: string, st: Scanner)
    requires LineEnding(ending) && !st.quoted
    ensures Scan(ending + rest, st) == Scan(rest, Scanner(st.records + [st.record + [st.field]], [], "", false))
  {
    if ending == "\n" {
      assert (ending + rest)[1..] == rest;
    } else {
      assert (ending + rest)[1..] == "\n" + rest;
      assert ("\n" + rest)[1..] == rest;
    }
  }

  lemma {:induction false} ScanRecord(cells: seq<string>, ending: string, rest: string, st: Scanner)
    requires |cells| > 0 && LineEnding(ending) && !st.quoted && st.field == ""
    ensures Scan(Join(Written(cells), ',') + ending + rest, st)
            == Scan(rest, Scanner(st.records + [st.record + cells], [], "", false))
  {
    hide Cell;
    var written := Written(cells);
    var line := Join(written, ',');
    if |cells| == 1 {
      assert line + ending + rest == Cell(cells[0]) + (ending + rest);
      ScanCell(cells[0], ending + rest, st);
      ScanEnding(ending, rest, st.(field := cells[0]));
      assert [cells[0]] == cells;
    } else {
      assert written[1..] == Written(cells[1..]);
      var tail := Join(Written(cells[1..]), ',') + ending + rest;
      assert line + ending + rest == Cell(cells[0]) + ("," + tail);
      ScanCell(cells[0], "," + tail, st);
      assert ("," + tail)[1..] == tail;
      var next := st.(record := st.record + [cells[0]]);
      ScanRecord(cells[1..], ending, rest, next);
      assert next.record + cells[1..] == st.record + cells;
    }
  }

  lemma {:induction false} ScanRecords(records: seq<seq<string>>, lines: seq<string>, ending: string,
      done: seq<seq<string>>)
    requires LineEnding(ending) && |lines| == |records|
    requires forall i :: 0 <= i < |records| ==> |records[i]| > 0 && lines[i] == Join(Written(records[i]), ',')
    ensures Scan(Ended(lines, ending), Scanner(done, [], "", false)) == Scanner(done + records, [], "", false)
  {
    if records == [] {
      assert done + records == done;
    } else {
      ScanRecord(records[0], ending, Ended(lines[1..], ending), Scanner(done, [], "", false));
      assert [] + records[0] == records[0];
      ScanRecords(records[1..], lines[1..], ending, done + [records[0]]);
      assert done + [records[0]] + records[1..] == done + records;
    }
  }

  /* ---- the round trip ---- */

  function Chosen(row: ReportRow, columns: seq<string>): ReportRow {
    map c | c in columns :: Get(row, c)
  }

  /** A row with every column present. */
  function Complete(row: ReportRow): ReportRow {
    Chosen(row, CSV_COLUMNS)
  }

  /** The rows that have something in them, in order. */
  function Kept(rows: seq<ReportRow>): seq<ReportRow> {
    if rows == [] then []
    else (if SomeCell(Cells(rows[0])) then [Complete(rows[0])] else []) + Kept(rows[1..])
  }

  lemma ChosenMore(row: ReportRow, columns: seq<string>, n: nat)
    requires 0 < n <= |columns|
    ensures Chosen(row, columns[..n]) == Chosen(row, columns[..n - 1])[columns[n - 1] := Get(row, columns[n - 1])]
  {
    hide Get;
    assert columns[..n] == columns[..n - 1] + [columns[n - 1]];
  }

  lemma {:induction false} RowOfColumns(row: ReportRow, columns: seq<string>, cells: seq<string>, n: nat)
    requires |cells| == |columns| && n <= |columns|
    requires forall i :: 0 <= i < |columns| ==> cells[i] == Get(row, columns[i])
    ensures ToRow(columns, cells, n) == Chosen(row, columns[..n])
  {
    if n > 0 {
      RowOfColumns(row, columns, cells, n - 1);
      ChosenMore(row, columns, n);
      hide Chosen, Get;
    }
  }

  lemma RowOfCells(row: ReportRow)
    ensures ToRow(CSV_COLUMNS, Cells(row), |CSV_COLUMNS|) == Complete(row)
  {
    hide CSV_COLUMNS;
    RowOfColumns(row, CSV_COLUMNS, Cells(row), |CSV_COLUMNS|);
    assert CSV_COLUMNS[..|CSV_COLUMNS|] == CSV_COLUMNS;
  }

  function AllCells(rows: seq<ReportRow>): seq<seq<string>> {
    seq(|rows|, i requires 0 <= i < |rows| => Cells(rows[i]))
  }

  lemma {:induction false} BodyOfRows(rows: seq<ReportRow>)
    ensures Body(CSV_COLUMNS, AllCells(rows)) == Kept(rows)
  {
    if rows != [] {
      assert AllCells(rows)[1..] == AllCells(rows[1..]);
      BodyOfRows(rows[1..]);
      RowOfCells(rows[0]);
      hide CSV_COLUMNS;
    }
  }

  lemma PlainNames0()
    ensures !NeedsQuotes("product_id") && !NeedsQuotes("product_code") && !NeedsQuotes("product_name")
            && !NeedsQuotes("brand")
  {
  }

  lemma PlainNames1()
    ensures !NeedsQuotes("unit") && !NeedsQuotes("old_category_id") && !NeedsQuotes("old_category")
  {
  }

  lemma PlainNames2()
    ensures !NeedsQuotes("old_department") && !NeedsQuotes("proposed_category")
  {
  }

  lemma PlainNames3()
    ensures !NeedsQuotes("proposed_subcategory") && !NeedsQuotes("new_category")
  {
  }

  lemma PlainNames4()
    ensures !NeedsQuotes("decision") && !NeedsQuotes("score") && !NeedsQuotes("reason")
  {
  }

  lemma HeaderIsPlain()
    ensures Written(CSV_COLUMNS) == CSV_COLUMNS
  {
    PlainNames0();
    PlainNames1();
    PlainNames2();
    PlainNames3();
    PlainNames4();
    hide NeedsQuotes;
    forall i | 0 <= i < |CSV_COLUMNS| ensures !NeedsQuotes(CSV_COLUMNS[i]) {
      assert CSV_COLUMNS[i] in CSV_COLUMNS;
    }
  }

  lemma {:induction false} JoinIsEnded(lines: seq<string>)
    requires |lines| > 0
    ensures Join(lines, '\n') + "\n" == Ended(lines, "\n")
  {
    if |lines| > 1 {
      JoinIsEnded(lines[1..]);
    }
  }

  lemma ReadBack(header: seq<string>, records: seq<seq<string>>, lines: seq<string>, ending: string)
    requires LineEnding(ending) && |lines| == |records|
    requires |header| > 0 && Written(header) == header
    requires forall i :: 0 <= i < |records| ==> |records[i]| > 0 && lines[i] == Join(Written(records[i]), ',')
    ensures Finish(Scan(Ended([Join(header, ',')] + lines, ending), START)) == [header] + records
  {
    ScanRecords([header] + records, [Join(header, ',')] + lines, ending, []);
    assert [] + ([header] + records) == [header] + records;
  }

  lemma TableOfRows(rows: seq<ReportRow>)
    ensures Table([CSV_COLUMNS] + AllCells(rows)) == Some(Kept(rows))
  {
    var records := [CSV_COLUMNS] + AllCells(rows);
    assert records[0] == CSV_COLUMNS && records[1..] == AllCells(rows);
    BodyOfRows(rows);
  }

  /**
   Reading a report back gives its rows, whichever way the records end; only rows with no content at all are dropped.
   */
  lemma RoundTripEnding(rows: seq<ReportRow>, ending: string)
    requires LineEnding(ending)
    ensures Parse(Ended(Lines(rows), ending)) == Some(Kept(rows))
  {
    HeaderIsPlain();
    ReadBack(CSV_COLUMNS, AllCells(rows), Lines(rows)[1..], ending);
    assert Lines(rows) == [Join(CSV_COLUMNS, ',')] + Lines(rows)[1..];
    TableOfRows(rows);
  }

  lemma RoundTrip(rows: seq<ReportRow>)
    ensures Parse(ToCsv(rows)) == Some(Kept(rows))
  {
    JoinIsEnded(Lines(rows));
    RoundTripEnding(rows, "\n");
  }

  /** A report in which every row is complete and has a non-blank cell comes back unchanged. */
  lemma {:induction false} NothingDropped(rows: seq<ReportRow>)
    requires forall i :: 0 <= i < |rows| ==> rows[i].Keys == (set c | c in CSV_COLUMNS) && SomeCell(Cells(rows[i]))
    ensures Kept(rows) == rows
  {
    hide CSV_COLUMNS, Cells, SomeCell;
    if rows != [] {
      NothingDropped(rows[1..]);
      assert Complete(rows[0]) == rows[0];
    }
  }

  /* ---- one cell ---- */

  /** A cell is written as it is, unless it holds a quote, comma or line end: then quoted, its own quotes doubled. */
  lemma CellExactly(v: string)
    ensures (forall c :: c in v ==> c != '"' && c != ',' && c != '\n' && c != '\r') ==> Cell(v) == v
    ensures (exists c :: c in v && (c == '"' || c == ',' || c == '\n' || c == '\r')) ==>
              Cell(v) == ['"'] + DoubleQuotes(v) + ['"']
  {
  }

  /* ---- the last line ---- */

  /** One turn of the parser's loop: what it leaves to read and the state it is in. */
  function Turn(text: string, st: Scanner): (string, Scanner)
    requires text != ""
  {
    var ch := text[0];
    if st.quoted then
      if ch == '"' && |text| > 1 && text[1] == '"' then (text[2..], st.(field := st.field + ['"']))
      else (text[1..], if ch == '"' then st.(quoted := false) else st.(field := st.field + [ch]))
    else if ch == '"' then (text[1..], st.(quoted := true))
    else if ch == ',' then (text[1..], st.(record := st.record + [st.field], field := ""))
    else if ch == '\n' then (text[1..], Scanner(st.records + [st.record + [st.field]], [], "", false))
    else (text[1..], if ch == '\r' then st else st.(field := st.field + [ch]))
  }

  lemma TurnScans(text: string, st: Scanner)
    requires text != ""
    ensures Scan(text, st) == Scan(Turn(text, st).0, Turn(text, st).1) && |Turn(text, st).0| < |text|
  {
  }

  lemma TurnBefore(text: string, more: string, st: Scanner)
    requires text != "" && (more == "" || more[0] != '"')
    ensures Turn(text + more, st) == (Turn(text, st).0 + more, Turn(text, st).1)
  {
    assert (text + more)[0] == text[0] && (text + more)[1..] == text[1..] + more;
    if |text| > 1 {
      assert (text + more)[1] == text[1] && (text + more)[2..] == text[2..] + more;
    }
  }

  /** Text that does not start with a quote is scanned from where the text before it leaves the scanner. */
  lemma {:induction false} ScanBehind(text: string, more: string, st: Scanner)
    requires more == "" || more[0] != '"'
    ensures Scan(text + more, st) == Scan(more, Scan(text, st))
    decreases |text|
  {
    if text == "" {
      assert text + more == more;
    } else {
      TurnBefore(text, more, st);
      TurnScans(text, st);
      TurnScans(text + more, st);
      hide Turn, Scan;
      ScanBehind(Turn(text, st).0, more, Turn(text, st).1);
    }
  }

  lemma {:induction false} BlankLast(header: seq<string>, records: seq<seq<string>>)
    ensures Body(header, records + [[""]]) == Body(header, records)
  {
    if records == [] {
      assert !SomeCell([""]);
      assert ([] + [[""]])[1..] == [];
      assert records + [[""]] == [[""]];
    } else {
      BlankLast(header, records[1..]);
      assert (records + [[""]])[1..] == records[1..] + [[""]];
    }
  }

  lemma BlankTable(records: seq<seq<string>>)
    ensures Table(records + [[""]]) == Table(records)
  {
    if records == [] {
      assert CSV_COLUMNS[0] == "product_id" && "product_id" !in [""];
      assert [] + [[""]] == [[""]];
    } else {
      hide CSV_COLUMNS, Body;
      BlankLast(records[0], records[1..]);
      assert (records + [[""]])[1..] == records[1..] + [[""]];
    }
  }

  /** A line end at the end of a report makes no difference, unless the report ends inside quotes. */
  lemma LastLineEnd(text: string)
    requires !Scan(text, START).quoted
    ensures Parse(text + "\n") == Parse(text)
  {
    var st := Scan(text, START);
    ScanBehind(text, "\n", START);
    TurnScans("\n", st);
    assert "\n"[1..] == "";
    hide Table;
    if st.field == "" && st.record == [] {
      BlankTable(st.records);
      assert [] + [""] == [""];
      assert Finish(Scan(text + "\n", START)) == st.records + [[""]];
    }
  }

  lemma LineEndKeepsQuotes(text: string)
    ensures Scan(text + "\n", START).quoted == Scan(text, START).quoted
  {
    ScanBehind(text, "\n", START);
    TurnScans("\n", Scan(text, START));
    assert "\n"[1..] == "";
  }

  lemma ReportIsUnquoted(header: seq<string>, records: seq<seq<string>>, lines: seq<string>)
    requires |header| > 0 && Written(header) == header && |lines| == |records|
    requires forall i :: 0 <= i < |records| ==> |records[i]| > 0 && lines[i] == Join(Written(records[i]), ',')
    ensures !Scan(Ended([Join(header, ',')] + lines, "\n"), START).quoted
  {
    ScanRecords([header] + records, [Join(header, ',')] + lines, "\n", []);
  }

  lemma UnquotedAtEnd(rows: seq<ReportRow>)
    ensures !Scan(Join(Lines(rows), '\n'), START).quoted
  {
    HeaderIsPlain();
    assert Lines(rows) == [Join(CSV_COLUMNS, ',')] + Lines(rows)[1..];
    hide Scan, Ended;
    ReportIsUnquoted(CSV_COLUMNS, AllCells(rows), Lines(rows)[1..]);
    JoinIsEnded(Lines(rows));
    LineEndKeepsQuotes(Join(Lines(rows), '\n'));
  }

  /** So a report whose last record has no line end is read like the one that was written. */
  lemma RoundTripOpen(rows: seq<ReportRow>)
    ensures Parse(Join(Lines(rows), '\n')) == Some(Kept(rows))
  {
    RoundTrip(rows);
    var text := Join(Lines(rows), '\n');
    UnquotedAtEnd(rows);
    LastLineEnd(text);
  }
}
