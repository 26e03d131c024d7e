/**
 * The CSV printer and the separate CSV parser (section 2 of RFC 4180): the parser as a
 * loop over characters, and the round trip through both.
 */
module Csv {
  /** Text as typed, or the shown form of a number, a share or nothing. */
  datatype Cell = Text(text: string) | Shown(text: string)

  datatype Failure = InvalidQuote | UnclosedQuote
  datatype Parsed = Table(rows: seq<seq<string>>) | Failed(why: Failure)

  // ---- Printing ---------------------------------------------------------------------

  const FORMULA_STARTS := "=+-@\t\r"
  const SPECIALS := "\",\n\r"

  predicate Formula(c: Cell) {
    c.Text? && c.text != "" && c.text[0] in FORMULA_STARTS
  }

  /** The text a reader is to see: a cell a spreadsheet would run is marked as text. */
  function Seen(c: Cell): string {
    if Formula(c) then "'" + c.text else c.text
  }

  predicate NeedsQuotes(s: string) {
    exists i :: 0 <= i < |s| && s[i] in SPECIALS
  }

  function DoubleQuotes(s: string): string {
    if s == "" then "" else (if s[0] == '"' then "\"\"" else [s[0]]) + DoubleQuotes(s[1..])
  }

  function Field(c: Cell): string {
    if NeedsQuotes(Seen(c)) then "\"" + DoubleQuotes(Seen(c)) + "\"" else Seen(c)
  }

  function Join(fields: seq<string>): string {
    if fields == [] then "" else if |fields| == 1 then fields[0] else fields[0] + "," + Join(fields[1..])
  }

  function Fields(row: seq<Cell>): seq<string> {
    seq(|row|, i requires 0 <= i < |row| => Field(row[i]))
  }

  function PrintRow(row: seq<Cell>): string {
    Join(Fields(row)) + "\r\n"
  }

  function Print(table: seq<seq<Cell>>): string {
    if table == [] then "" else PrintRow(table[0]) + Print(table[1..])
  }

  // ---- Parsing ----------------------------------------------------------------------

  datatype State = State(rows: seq<seq<string>>, row: seq<string>, cell: string, quote: bool)

  const INITIAL := State([], [], "", false)

  predicate Starts(s: string, c: char) {
    s != "" && s[0] == c
  }

  function EndCell(st: State): State {
    st.(row := st.row + [st.cell], cell := "")
  }

  function EndRow(st: State): State {
    st.(rows := st.rows + [st.row + [st.cell]], row := [], cell := "")
  }

  function Finish(st: State): Parsed {
    if st.quote then Failed(UnclosedQuote)
    else if st.cell != "" || st.row != [] then Table(EndRow(st).rows)
    else Table(st.rows)
  }

  /** The parser on the rest of its input. */
  function Scan(s: string, st: State): Parsed
    decreases |s|
  {
    if s == "" then Finish(st)
    else if s[0] == '"' then
      if st.quote && Starts(s[1..], '"') then Scan(s[2..], st.(cell := st.cell + "\""))
      else if st.quote || st.cell == "" then Scan(s[1..], st.(quote := !st.quote))
      else Failed(InvalidQuote)
    else if s[0] == ',' && !st.quote then Scan(s[1..], EndCell(st))
    else if (s[0] == '\n' || s[0] == '\r') && !st.quote then
      Scan(if s[0] == '\r' && Starts(s[1..], '\n') then s[2..] else s[1..], EndRow(st))
    else Scan(s[1..], st.(cell := st.cell + [s[0]]))
  }

  method CsvRows(source: string) returns (parsed: Parsed)
    ensures parsed == Scan(source, INITIAL)
  {
    var rows: seq<seq<string>>, row: seq<string>, cell, quote := [], [], "", false;
    var i := 0;
    while i < |source|
      invariant 0 <= i <= |source|
      invariant Scan(source[i..], State(rows, row, cell, quote)) == Scan(source, INITIAL)
    {
      var c := source[i];
      var followed := if i + 1 < |source| then [source[i + 1]] else "";
      assert source[i..][1..] == source[i + 1..] && (followed != "" ==> source[i..][2..] == source[i + 2..]);
      if c == '"' {
        if quote && followed == "\"" { cell := cell + "\""; i := i + 1; }
        else if quote || cell == "" { quote := !quote; }
        else { return Failed(InvalidQuote); }
      } else if c == ',' && !quote {
        row := row + [cell];
        cell := "";
      } else if (c == '\n' || c == '\r') && !quote {
        if c == '\r' && followed == "\n" { i := i + 1; }
        row := row + [cell];
        rows := rows + [row];
        row := [];
        cell := "";
      } else {
        cell := cell + [c];
      }
      i := i + 1;
    }
    if quote { return Failed(UnclosedQuote); }
    if cell != "" || |row| > 0 {
      row := row + [cell];
      rows := rows + [row];
    }
    parsed := Table(rows);
  }

  // ---- Round trip -------------------------------------------------------------------

  /** Text without special characters is read as it stands. */
  lemma {:induction false} ScanPlain(s: string, rest: string, st: State)
    requires !NeedsQuotes(s) && !st.quote
    ensures Scan(s + rest, st) == Scan(rest, st.(cell := st.cell + s))
    decreases |s|
  {
    if s == "" {
      assert s + rest == rest && st.cell + s == st.cell;
    } else {
      assert s[0] in SPECIALS ==> NeedsQuotes(s);
      assert forall i :: 0 <= i < |s[1..]| ==> s[1..][i] == s[i + 1];
      assert (s + rest)[1..] == s[1..] + rest;
      ScanPlain(s[1..], rest, st.(cell := st.cell + [s[0]]));
      assert (st.cell + [s[0]]) + s[1..] == st.cell + s;
    }
  }

  lemma DoubledQuote(more: string, st: State)
    requires st.quote
    ensures Scan("\"\"" + more, st) == Scan(more, st.(cell := st.cell + "\""))
  {
    var all := "\"\"" + more;
    assert all[1..] == "\"" + more && all[2..] == more;
  }

  lemma QuotedChar(c: char, more: string, st: State)
    requires st.quote && c != '"'
    ensures Scan([c] + more, st) == Scan(more, st.(cell := st.cell + [c]))
  {
    assert ([c] + more)[1..] == more;
  }

  /** Inside quotes everything is taken as it is, and a doubled quote once. */
  lemma {:induction false} ScanQuoted(s: string, rest: string, st: State)
    requires st.quote && !Starts(rest, '"')
    ensures Scan(DoubleQuotes(s) + ("\"" + rest), st) == Scan(rest, st.(cell := st.cell + s, quote := false))
    decreases |s|
  {
    if s == "" {
      assert DoubleQuotes(s) + ("\"" + rest) == "\"" + rest && ("\"" + rest)[1..] == rest && st.cell + s == st.cell;
    } else {
      var more := DoubleQuotes(s[1..]) + ("\"" + rest);
      var read := st.(cell := st.cell + [s[0]]);
      if s[0] == '"' {
        DoubledQuote(more, st);
        Regroup("\"\"", DoubleQuotes(s[1..]), "\"" + rest, "");
      } else {
        QuotedChar(s[0], more, st);
        Regroup([s[0]], DoubleQuotes(s[1..]), "\"" + rest, "");
      }
      ScanQuoted(s[1..], rest, read);
      assert read.cell + s[1..] == st.cell + s;
    }
  }

  /** A printed field is read as the text a reader is to see. */
  lemma ScanField(c: Cell, rest: string, st: State)
    requires !st.quote && st.cell == "" && !Starts(rest, '"')
    ensures Scan(Field(c) + rest, st) == Scan(rest, st.(cell := Seen(c)))
  {
    var s := Seen(c);
    assert "" + s == s;
    if NeedsQuotes(s) {
      var body := DoubleQuotes(s) + ("\"" + rest);
      Regroup("\"", DoubleQuotes(s), "\"", rest);
      Regroup(DoubleQuotes(s), "\"", rest, "");
      assert ("\"" + body)[1..] == body;
      ScanQuoted(s, rest, st.(quote := true));
    } else {
      ScanPlain(s, rest, st);
    }
  }

  function SeenRow(row: seq<Cell>): seq<string> {
    seq(|row|, i requires 0 <= i < |row| => Seen(row[i]))
  }

  lemma LineEnd(rest: string, st: State)
    requires !st.quote
    ensures Scan("\r\n" + rest, st) == Scan(rest, EndRow(st)) && !Starts("\r\n" + rest, '"')
  {
    var tail := "\r\n" + rest;
    assert tail[2..] == rest && Starts(tail[1..], '\n');
  }

  lemma CellEnd(rest: string, st: State)
    requires !st.quote
    ensures Scan("," + rest, st) == Scan(rest, EndCell(st)) && !Starts("," + rest, '"')
  {
    assert ("," + rest)[1..] == rest;
  }

  lemma PrintRowCons(row: seq<Cell>, rest: string)
    requires row != []
    ensures PrintRow(row) + rest ==
            Field(row[0]) + (if |row| == 1 then "\r\n" + rest else "," + (PrintRow(row[1..]) + rest))
  {
    if |row| == 1 {
      Regroup(Field(row[0]), "", "\r\n", rest);
      assert Field(row[0]) + "" == Field(row[0]);
    } else {
      assert Fields(row)[1..] == Fields(row[1..]);
      Regroup(Field(row[0]) + ",", Join(Fields(row[1..])), "\r\n", rest);
      Regroup(Field(row[0]), ",", PrintRow(row[1..]), rest);
    }
  }

  lemma Regroup(a: string, b: string, c: string, d: string)
    ensures ((a + b) + c) + d == a + ((b + c) + d) && a + (b + c) + d == (a + b) + (c + d)
    ensures (a + b) + c == a + (b + c)
  { }

  lemma {:induction false} ScanRow(row: seq<Cell>, rest: string, st: State)
    requires !st.quote && st.cell == "" && row != []
    ensures Scan(PrintRow(row) + rest, st) == Scan(rest, State(st.rows + [st.row + SeenRow(row)], [], "", false))
    decreases |row|
  {
    PrintRowCons(row, rest);
    var read := st.(cell := Seen(row[0]));
    if |row| == 1 {
      LineEnd(rest, read);
      ScanField(row[0], "\r\n" + rest, st);
      assert SeenRow(row) == [Seen(row[0])];
    } else {
      var tail := PrintRow(row[1..]) + rest;
      CellEnd(tail, read);
      ScanField(row[0], "," + tail, st);
      ScanRow(row[1..], rest, EndCell(read));
      assert EndCell(read).row + SeenRow(row[1..]) == st.row + SeenRow(row);
    }
  }

  /** What comes back: an empty row prints like a row of one empty cell. */
  function SeenTable(table: seq<seq<Cell>>): seq<seq<string>> {
    seq(|table|, i requires 0 <= i < |table| => SeenOrBlank(table[i]))
  }

  function SeenOrBlank(row: seq<Cell>): seq<string> {
    if row == [] then [""] else SeenRow(row)
  }

  lemma ScanAnyRow(row: seq<Cell>, rest: string, st: State)
    requires !st.quote && st.cell == "" && st.row == []
    ensures Scan(PrintRow(row) + rest, st) == Scan(rest, State(st.rows + [SeenOrBlank(row)], [], "", false))
  {
    if row == [] {
      assert PrintRow(row) + rest == "\r\n" + rest;
      LineEnd(rest, st);
      assert [] + [""] == [""];
    } else {
      ScanRow(row, rest, st);
      assert [] + SeenRow(row) == SeenRow(row);
    }
  }

  lemma {:induction false} ScanTable(table: seq<seq<Cell>>, st: State)
    requires !st.quote && st.cell == "" && st.row == []
    ensures Scan(Print(table), st) == Table(st.rows + SeenTable(table))
    decreases |table|
  {
    if table == [] {
      assert st.rows + SeenTable(table) == st.rows;
    } else {
      var first := SeenOrBlank(table[0]);
      ScanAnyRow(table[0], Print(table[1..]), st);
      ScanTable(table[1..], State(st.rows + [first], [], "", false));
      assert (st.rows + [first]) + SeenTable(table[1..]) == st.rows + SeenTable(table);
    }
  }

  /** Parsing what was printed gives the table back as a reader is to see it, whatever its cells hold. */
  lemma PrintedTableParses(table: seq<seq<Cell>>)
    ensures Scan(Print(table), INITIAL) == Table(SeenTable(table))
  {
    ScanTable(table, INITIAL);
    assert [] + SeenTable(table) == SeenTable(table);
  }

  function Texts(table: seq<seq<Cell>>): seq<seq<string>> {
    seq(|table|, i requires 0 <= i < |table| => seq(|table[i]|, j requires 0 <= j < |table[i]| => table[i][j].text))
  }

  /** It is the very same table exactly when no row is empty and no cell looks like a formula. */
  lemma RoundTripIff(table: seq<seq<Cell>>)
    ensures Scan(Print(table), INITIAL) == Table(Texts(table)) <==>
      forall i :: 0 <= i < |table| ==> table[i] != [] && forall j :: 0 <= j < |table[i]| ==> !Formula(table[i][j])
  {
    PrintedTableParses(table);
    var seen, texts := SeenTable(table), Texts(table);
    if seen == texts {
      forall i | 0 <= i < |table| ensures table[i] != [] && forall j :: 0 <= j < |table[i]| ==> !Formula(table[i][j]) {
        assert seen[i] == texts[i];
        forall j | 0 <= j < |table[i]| ensures !Formula(table[i][j]) {
          assert seen[i][j] == texts[i][j];
        }
      }
    } else {
      var i :| 0 <= i < |table| && seen[i] != texts[i];
      if table[i] != [] {
        var j :| 0 <= j < |table[i]| && seen[i][j] != texts[i][j];
        assert Formula(table[i][j]);
      }
    }
  }

  // ---- Formulas ---------------------------------------------------------------------

  /** Text a spreadsheet would run. */
  predicate RunsAsFormula(text: string) {
    text != "" && (text[0] == '=' || text[0] == '+' || text[0] == '-' || text[0] == '@' || text[0] == '\t'
        || text[0] == '\r')
  }

  /**
   * Of what was typed nothing is read back that a spreadsheet would run: such a text comes
   * back behind an apostrophe, and every other text, and every number, as it was.
   */
  lemma NoFormulaReadBack(table: seq<seq<Cell>>, i: nat, j: nat)
    requires i < |table| && j < |table[i]|
    ensures var parsed := Scan(Print(table), INITIAL); var c := table[i][j];
      && parsed.Table? && i < |parsed.rows| && j < |parsed.rows[i]|
      && (c.Text? ==> !RunsAsFormula(parsed.rows[i][j]))
      && parsed.rows[i][j] == if c.Text? && RunsAsFormula(c.text) then "'" + c.text else c.text
  {
    PrintedTableParses(table);
    assert SeenTable(table)[i][j] == Seen(table[i][j]);
    FormulaStarts(table[i][j]);
  }

  lemma FormulaStarts(c: Cell)
    ensures Formula(c) <==> c.Text? && RunsAsFormula(c.text)
  {
    var all := FORMULA_STARTS;
    assert forall x: char :: x in all <==> x in {'=', '+', '-', '@', '\t', '\r'};
  }

  // ---- Tables written elsewhere -----------------------------------------------------

  /** Text with no quote, comma or line end. */
  predicate Plain(s: string) {
    forall i :: 0 <= i < |s| ==> s[i] != '"' && s[i] != ',' && s[i] != '\n' && s[i] != '\r'
  }

  lemma PlainNeedsNone(s: string)
    requires Plain(s)
    ensures !NeedsQuotes(s)
  {
    assert forall x: char :: x in SPECIALS <==> x in {'"', ',', '\n', '\r'};
  }

  /** A row and the line end it was given. */
  datatype Line = Line(cells: seq<string>, end: string)

  ghost predicate Written(l: Line) {
    && l.cells != [] && l.cells[0] != "" && (l.end == "\n" || l.end == "\r" || l.end == "\r\n")
    && forall i :: 0 <= i < |l.cells| ==> Plain(l.cells[i])
  }

  function Lines(lines: seq<Line>): string {
    if lines == [] then "" else Join(lines[0].cells) + (lines[0].end + Lines(lines[1..]))
  }

  function Cells(lines: seq<Line>): seq<seq<string>> {
    seq(|lines|, i requires 0 <= i < |lines| => lines[i].cells)
  }

  lemma EndsLine(end: string, rest: string, st: State)
    requires !st.quote && (end == "\n" || end == "\r" || end == "\r\n") && !Starts(rest, '\n')
    ensures Scan(end + rest, st) == Scan(rest, EndRow(st))
  {
    assert (end + rest)[|end|..] == rest;
    if end == "\r\n" {
      LineEnd(rest, st);
    } else {
      assert (end + rest)[1..] == rest;
    }
  }

  lemma PlainCell(cell: string, more: string, st: State)
    requires Plain(cell) && !st.quote && st.cell == ""
    ensures Scan(cell + more, st) == Scan(more, st.(cell := cell))
  {
    PlainNeedsNone(cell);
    ScanPlain(cell, more, st);
    assert "" + cell == cell;
  }

  lemma JoinMore(cells: seq<string>, rest: string)
    requires |cells| > 1
    ensures Join(cells) + rest == cells[0] + ("," + (Join(cells[1..]) + rest))
  { }

  lemma {:induction false} ScanPlainCells(cells: seq<string>, rest: string, st: State) returns (read: State)
    requires cells != [] && !st.quote && st.cell == "" && forall i :: 0 <= i < |cells| ==> Plain(cells[i])
    ensures Scan(Join(cells) + rest, st) == Scan(rest, read)
    ensures EndRow(read) == State(st.rows + [st.row + cells], [], "", false) && !read.quote
      && read.cell == cells[|cells| - 1]
    decreases |cells|
  {
    if |cells| == 1 {
      read := st.(cell := cells[0]);
      PlainCell(cells[0], rest, st);
      assert cells == [cells[0]];
    } else {
      var more := Join(cells[1..]) + rest;
      var first := st.(cell := cells[0]);
      JoinMore(cells, rest);
      PlainCell(cells[0], "," + more, st);
      CellEnd(more, first);
      read := ScanPlainCells(cells[1..], rest, EndCell(first));
      assert (st.row + [cells[0]]) + cells[1..] == st.row + cells;
    }
  }

  lemma NoNewlineFirst(lines: seq<Line>, rest: string)
    requires (forall i :: 0 <= i < |lines| ==> Written(lines[i])) && !Starts(rest, '\n')
    ensures !Starts(Lines(lines) + rest, '\n')
  {
    if lines != [] {
      var l := lines[0];
      assert Written(l) && Plain(l.cells[0]);
      assert Join(l.cells)[0] == l.cells[0][0];
    }
  }

  lemma {:induction false} LinesScan(lines: seq<Line>, rest: string, st: State)
    requires !st.quote && st.cell == "" && st.row == [] && forall i :: 0 <= i < |lines| ==> Written(lines[i])
    requires !Starts(rest, '\n')
    ensures Scan(Lines(lines) + rest, st) == Scan(rest, st.(rows := st.rows + Cells(lines)))
    decreases |lines|
  {
    if lines == [] {
      assert st.rows + Cells(lines) == st.rows && Lines(lines) + rest == rest;
    } else {
      var l, later := lines[0], lines[1..];
      assert Written(l);
      var more := Lines(later) + rest;
      assert Lines(lines) + rest == Join(l.cells) + (l.end + more);
      var read := ScanPlainCells(l.cells, l.end + more, st);
      NoNewlineFirst(later, rest);
      EndsLine(l.end, more, read);
      assert [] + l.cells == l.cells;
      LinesScan(later, rest, EndRow(read));
      assert (st.rows + [l.cells]) + Cells(later) == st.rows + Cells(lines);
    }
  }

  /**
   * Rows of plain cells are read whichever of the three line ends each of them has, and the
   * last one even without.
   */
  lemma AnyLineEnd(lines: seq<Line>, last: seq<string>)
    requires forall i :: 0 <= i < |lines| ==> Written(lines[i])
    requires last != [] && last[0] != "" && forall i :: 0 <= i < |last| ==> Plain(last[i])
    ensures Scan(Lines(lines), INITIAL) == Table(Cells(lines))
    ensures Scan(Lines(lines) + Join(last), INITIAL) == Table(Cells(lines) + [last])
  {
    LinesScan(lines, "", INITIAL);
    assert Lines(lines) + "" == Lines(lines) && [] + Cells(lines) == Cells(lines);
    assert Plain(last[0]) && Join(last)[0] == last[0][0];
    LinesScan(lines, Join(last), INITIAL);
    LastLine(last, INITIAL.(rows := Cells(lines)));
  }

  lemma SomethingLeft(row: seq<string>, cell: string, cells: seq<string>)
    requires row + [cell] == cells && cells[0] != ""
    ensures cell != "" || row != []
  {
    assert row == [] ==> cells[0] == cell;
  }

  lemma FinishesRow(read: State)
    requires !read.quote && (read.cell != "" || read.row != [])
    ensures Scan("", read) == Table(EndRow(read).rows)
  { }

  lemma LastLine(last: seq<string>, st: State)
    requires !st.quote && st.cell == "" && st.row == []
    requires last != [] && last[0] != "" && forall i :: 0 <= i < |last| ==> Plain(last[i])
    ensures Scan(Join(last), st) == Table(st.rows + [last])
  {
    var read := ScanPlainCells(last, "", st);
    assert Join(last) + "" == Join(last) && [] + last == last;
    var end := EndRow(read);
    assert end.rows == st.rows + [last];
    assert end.rows[|st.rows|] == read.row + [read.cell] by {
      assert |end.rows| == |read.rows| + 1;
    }
    SomethingLeft(read.row, read.cell, last);
    FinishesRow(read);
  }

  /** A quote inside plain text is refused, and so is a quoted text that is never closed. */
  lemma BadQuotes(s: string, rest: string)
    requires Plain(s)
    ensures s != "" ==> Scan(s + ("\"" + rest), INITIAL) == Failed(InvalidQuote)
    ensures Scan("\"" + s, INITIAL) == Failed(UnclosedQuote)
  {
    PlainNeedsNone(s);
    ScanPlain(s, "\"" + rest, INITIAL);
    assert "" + s == s;
    assert ("\"" + s)[1..] == s;
    OpenQuote(s, INITIAL.(quote := true));
  }

  lemma {:induction false} OpenQuote(s: string, st: State)
    requires Plain(s) && st.quote
    ensures Scan(s, st) == Failed(UnclosedQuote)
    decreases |s|
  {
    if s != "" {
      OpenQuote(s[1..], st.(cell := st.cell + [s[0]]));
    }
  }
}
