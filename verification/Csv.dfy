/**
 The bookings CSV parser: a character loop over text with normalised line breaks,
 and the printer of RFC 4180, section 2, that it inverts.
 */
module Csv {
  import opened Common

  const ByteOrderMark: char := '\U{FEFF}'

  // ---- Normalising -------------------------------------------------------------------

  function StripMark(s: string): string {
    if s != "" && s[0] == ByteOrderMark then s[1..] else s
  }

  function ReplaceCrLf(s: string): string {
    if s == "" then ""
    else if |s| > 1 && s[0] == '\r' && s[1] == '\n' then "\n" + ReplaceCrLf(s[2..])
    else [s[0]] + ReplaceCrLf(s[1..])
  }

  function ReplaceCr(s: string): string {
    if s == "" then "" else [if s[0] == '\r' then '\n' else s[0]] + ReplaceCr(s[1..])
  }

  /** Every line break as a line feed, in one pass. */
  function Breaks(s: string): (t: string)
    ensures |t| <= |s|
  {
    if s == "" then ""
    else if s[0] == '\r' then "\n" + Breaks(if |s| > 1 && s[1] == '\n' then s[2..] else s[1..])
    else [s[0]] + Breaks(s[1..])
  }

  lemma {:induction false} ReplacingIsBreaks(s: string)
    ensures ReplaceCr(ReplaceCrLf(s)) == Breaks(s)
  {
    if s != "" {
      if |s| > 1 && s[0] == '\r' && s[1] == '\n' {
        ReplacingIsBreaks(s[2..]);
        assert ("\n" + ReplaceCrLf(s[2..]))[1..] == ReplaceCrLf(s[2..]);
      } else {
        ReplacingIsBreaks(s[1..]);
        assert ([s[0]] + ReplaceCrLf(s[1..]))[1..] == ReplaceCrLf(s[1..]);
      }
    }
  }

  // ---- Parsing -------------------------------------------------------------------------

  type Table = seq<seq<string>>

  datatype State = State(rows: Table, row: seq<string>, field: string, inQuotes: bool)

  /** The state after the rest of the text. */
  function Feed(st: State, text: string): State
    decreases |text|
  {
    if text == "" then st
    else if st.inQuotes then
      if text[0] == '"' then
        if |text| > 1 && text[1] == '"' then Feed(st.(field := st.field + "\""), text[2..])
        else Feed(st.(inQuotes := false), text[1..])
      else Feed(st.(field := st.field + [text[0]]), text[1..])
    else if text[0] == '"' then Feed(st.(inQuotes := true), text[1..])
    else if text[0] == ',' then Feed(st.(row := st.row + [st.field], field := ""), text[1..])
    else if text[0] == '\n' then Feed(State(st.rows + [st.row + [st.field]], [], "", false), text[1..])
    else Feed(st.(field := st.field + [text[0]]), text[1..])
  }

  function Finish(st: State): Table {
    if st.field != "" || st.row != [] then st.rows + [st.row + [st.field]] else st.rows
  }

  const Start := State([], [], "", false)

  function ParseText(text: string): Table {
    Finish(Feed(Start, text))
  }

  function Parse(content: string): Table {
    ParseText(Breaks(StripMark(content)))
  }

  method ParseCsvRows(content: string) returns (rows: Table)
    ensures rows == Parse(content)
  {
    var text := ReplaceCr(ReplaceCrLf(StripMark(content)));
    ReplacingIsBreaks(StripMark(content));
    rows := [];
    var row: seq<string> := [];
    var field := "";
    var inQuotes := false;
    var i := 0;
    while i < |text|
      invariant i <= |text|
      invariant Feed(Start, text) == Feed(State(rows, row, field, inQuotes), text[i..])
    {
      var c := text[i];
      ghost var rest := text[i..];
      assert rest[0] == c && rest[1..] == text[i + 1..];
      assert |rest| > 1 ==> rest[1] == text[i + 1] && rest[2..] == text[i + 2..];
      if inQuotes {
        if c == '"' {
          if i + 1 < |text| && text[i + 1] == '"' {
            field := field + "\"";
            i := i + 1;
          } else {
            inQuotes := false;
          }
        } else {
          field := field + [c];
        }
      } else if c == '"' {
        inQuotes := true;
      } else if c == ',' {
        row := row + [field];
        field := "";
      } else if c == '\n' {
        row := row + [field];
        rows := rows + [row];
        row := [];
        field := "";
      } else {
        field := field + [c];
      }
      i := i + 1;
    }
    if |field| > 0 || |row| > 0 {
      row := row + [field];
      rows := rows + [row];
    }
  }

  // ---- Printing -------------------------------------------------------------------------

  /** A cell is printed in quotes, or plain when it has no character that needs them. */
  datatype Cell = Cell(text: string, quoted: bool)

  datatype Line = Line(cells: seq<Cell>, crlf: bool)

  predicate IsPlain(s: string) {
    ',' !in s && '"' !in s && '\n' !in s && '\r' !in s
  }

  predicate IsLine(line: Line) {
    line.cells != [] && forall c | c in line.cells :: c.quoted || IsPlain(c.text)
  }

  predicate AreLines(lines: seq<Line>) {
    forall l | l in lines :: IsLine(l)
  }

  /** Quotes doubled. */
  function Escape(s: string): string {
    if s == "" then "" else (if s[0] == '"' then "\"\"" else [s[0]]) + Escape(s[1..])
  }

  function PrintCell(c: Cell): string {
    if c.quoted then "\"" + (Escape(c.text) + "\"") else c.text
  }

  function PrintCells(cells: seq<Cell>): string {
    if cells == [] then ""
    else if |cells| == 1 then PrintCell(cells[0])
    else PrintCell(cells[0]) + ("," + PrintCells(cells[1..]))
  }

  function LineEnd(line: Line): string {
    if line.crlf then "\r\n" else "\n"
  }

  /** The last line end may be left out. */
  function Print(lines: seq<Line>, terminated: bool): string {
    if lines == [] then ""
    else if |lines| == 1 && !terminated then PrintCells(lines[0].cells)
    else PrintCells(lines[0].cells) + (LineEnd(lines[0]) + Print(lines[1..], terminated))
  }

  function Texts(cells: seq<Cell>): (texts: seq<string>)
    ensures |texts| == |cells| && forall i | 0 <= i < |cells| :: texts[i] == cells[i].text
  {
    if cells == [] then [] else [cells[0].text] + Texts(cells[1..])
  }

  function TableOf(lines: seq<Line>): (table: Table)
    ensures |table| == |lines| && forall i | 0 <= i < |lines| :: table[i] == Texts(lines[i].cells)
  {
    if lines == [] then [] else [Texts(lines[0].cells)] + TableOf(lines[1..])
  }

  // ---- Parsing what was printed, with line feeds only ----------------------------------------

  predicate EndsCell(rest: string) {
    rest == "" || rest[0] == ',' || rest[0] == '\n'
  }

  lemma {:induction false} FeedPlain(st: State, text: string, rest: string)
    requires !st.inQuotes && IsPlain(text)
    ensures Feed(st, text + rest) == Feed(st.(field := st.field + text), rest)
    decreases |text|
  {
    if text == "" {
      assert text + rest == rest && st.field + text == st.field;
    } else {
      assert (text + rest)[0] == text[0] && (text + rest)[1..] == text[1..] + rest;
      assert text[0] in text;
      FeedPlain(st.(field := st.field + [text[0]]), text[1..], rest);
      assert st.field + [text[0]] + text[1..] == st.field + text;
    }
  }

  lemma {:induction false} FeedQuoted(st: State, text: string, rest: string)
    requires st.inQuotes && EndsCell(rest)
    ensures Feed(st, Escape(text) + ("\"" + rest)) == Feed(st.(field := st.field + text, inQuotes := false), rest)
    decreases |text|
  {
    var all := Escape(text) + ("\"" + rest);
    if text == "" {
      assert all == "\"" + rest && all[0] == '"' && all[1..] == rest;
      assert st.field + text == st.field;
    } else {
      var tail := Escape(text[1..]) + ("\"" + rest);
      FeedQuoted(st.(field := st.field + [text[0]]), text[1..], rest);
      assert st.field + [text[0]] + text[1..] == st.field + text;
      if text[0] == '"' {
        assert all == "\"\"" + tail && all[2..] == tail;
      } else {
        assert all == [text[0]] + tail && all[1..] == tail;
      }
    }
  }

  lemma {:induction false} FeedCell(st: State, c: Cell, rest: string)
    requires !st.inQuotes && st.field == "" && EndsCell(rest) && (c.quoted || IsPlain(c.text))
    ensures Feed(st, PrintCell(c) + rest) == Feed(st.(field := c.text), rest)
  {
    assert "" + c.text == c.text;
    if c.quoted {
      var inner := Escape(c.text) + ("\"" + rest);
      var all := PrintCell(c) + rest;
      assert all == "\"" + inner && all[1..] == inner;
      FeedQuoted(st.(inQuotes := true), c.text, rest);
    } else {
      FeedPlain(st, c.text, rest);
    }
  }

  /** The state once a printed row was read: its last cell in the field, the others in the row. */
  function RowInto(st: State, cells: seq<Cell>): State
    decreases |cells|
  {
    if cells == [] then st
    else if |cells| == 1 then st.(field := cells[0].text)
    else RowInto(st.(row := st.row + [cells[0].text], field := ""), cells[1..])
  }

  lemma {:induction false} RowIntoIs(st: State, cells: seq<Cell>)
    requires cells != []
    ensures var after := RowInto(st, cells);
      && after.rows == st.rows && after.inQuotes == st.inQuotes
      && after.row + [after.field] == st.row + Texts(cells)
      && |after.row| == |st.row| + |cells| - 1
      && (|cells| == 1 ==> after.field == cells[0].text)
    decreases |cells|
  {
    if |cells| > 1 {
      var next := st.(row := st.row + [cells[0].text], field := "");
      RowIntoIs(next, cells[1..]);
      assert next.row + Texts(cells[1..]) == st.row + Texts(cells);
    }
  }

  lemma {:induction false} FeedFirstCell(st: State, c: Cell, tail: string)
    requires !st.inQuotes && st.field == "" && (c.quoted || IsPlain(c.text))
    ensures Feed(st, PrintCell(c) + ("," + tail)) == Feed(st.(row := st.row + [c.text], field := ""), tail)
  {
    FeedCell(st, c, "," + tail);
    assert ("," + tail)[1..] == tail;
  }

  lemma {:induction false} PrintFirstCell(cells: seq<Cell>, rest: string)
    requires |cells| > 1
    ensures PrintCells(cells) + rest == PrintCell(cells[0]) + ("," + (PrintCells(cells[1..]) + rest))
  {
  }

  lemma {:induction false} FeedCells(st: State, cells: seq<Cell>, rest: string)
    requires !st.inQuotes && st.field == "" && EndsCell(rest) && IsLine(Line(cells, false))
    ensures Feed(st, PrintCells(cells) + rest) == Feed(RowInto(st, cells), rest)
    decreases |cells|
  {
    assert cells[0] in cells;
    if |cells| == 1 {
      FeedCell(st, cells[0], rest);
    } else {
      PrintFirstCell(cells, rest);
      FeedFirstCell(st, cells[0], PrintCells(cells[1..]) + rest);
      FeedCells(st.(row := st.row + [cells[0].text], field := ""), cells[1..], rest);
    }
  }

  predicate LineFeedsOnly(lines: seq<Line>) {
    forall l | l in lines :: !l.crlf
  }

  lemma {:induction false} FeedLine(rows: Table, line: Line, rest: string)
    requires IsLine(line) && !line.crlf
    ensures Feed(State(rows, [], "", false), PrintCells(line.cells) + ("\n" + rest))
         == Feed(State(rows + [Texts(line.cells)], [], "", false), rest)
  {
    var before := State(rows, [], "", false);
    FeedCells(before, line.cells, "\n" + rest);
    RowIntoIs(before, line.cells);
    assert ("\n" + rest)[1..] == rest;
    assert [] + Texts(line.cells) == Texts(line.cells);
  }

  /** The last row is lost when it is a single empty cell without a line end. */
  predicate LosesLastRow(lines: seq<Line>, terminated: bool) {
    lines != [] && !terminated && |lines[|lines| - 1].cells| == 1 && lines[|lines| - 1].cells[0].text == ""
  }

  function Kept(lines: seq<Line>, terminated: bool): Table {
    if LosesLastRow(lines, terminated) then TableOf(lines[..|lines| - 1]) else TableOf(lines)
  }

  lemma {:induction false} FeedLastLine(rows: Table, line: Line)
    requires IsLine(line)
    ensures Finish(Feed(State(rows, [], "", false), PrintCells(line.cells)))
         == if |line.cells| == 1 && line.cells[0].text == "" then rows else rows + [Texts(line.cells)]
  {
    var before := State(rows, [], "", false);
    FeedCells(before, line.cells, "");
    RowIntoIs(before, line.cells);
    assert PrintCells(line.cells) + "" == PrintCells(line.cells);
    assert [] + Texts(line.cells) == Texts(line.cells);
  }

  lemma {:induction false} KeptLast(rows: Table, line: Line)
    ensures (if |line.cells| == 1 && line.cells[0].text == "" then rows else rows + [Texts(line.cells)])
         == rows + Kept([line], false)
  {
    assert TableOf([line][..0]) == [] && TableOf([line]) == [Texts(line.cells)];
  }

  lemma {:induction false} FeedFirstLine(rows: Table, lines: seq<Line>, terminated: bool)
    requires AreLines(lines) && LineFeedsOnly(lines) && lines != [] && (|lines| > 1 || terminated)
    ensures Feed(State(rows, [], "", false), Print(lines, terminated))
         == Feed(State(rows + [Texts(lines[0].cells)], [], "", false), Print(lines[1..], terminated))
  {
    assert lines[0] in lines;
    FeedLine(rows, lines[0], Print(lines[1..], terminated));
  }

  /** The table read when these lines follow the rows. */
  function ReadAfter(rows: Table, lines: seq<Line>, terminated: bool): Table {
    Finish(Feed(State(rows, [], "", false), Print(lines, terminated)))
  }

  lemma {:induction false} ReadLastLine(rows: Table, lines: seq<Line>)
    requires |lines| == 1 && IsLine(lines[0])
    ensures ReadAfter(rows, lines, false) == rows + Kept(lines, false)
  {
    assert lines == [lines[0]];
    FeedLastLine(rows, lines[0]);
    KeptLast(rows, lines[0]);
  }

  lemma {:induction false} ReadFirstLine(rows: Table, lines: seq<Line>, terminated: bool)
    requires AreLines(lines) && LineFeedsOnly(lines) && lines != [] && (|lines| > 1 || terminated)
    ensures ReadAfter(rows, lines, terminated) == ReadAfter(rows + [Texts(lines[0].cells)], lines[1..], terminated)
  {
    FeedFirstLine(rows, lines, terminated);
  }

  lemma {:induction false} KeptAfter(rows: Table, lines: seq<Line>, terminated: bool)
    requires lines != [] && (|lines| > 1 || terminated)
    ensures rows + Kept(lines, terminated) == rows + [Texts(lines[0].cells)] + Kept(lines[1..], terminated)
  {
    KeptHead(lines, terminated);
  }

  lemma {:induction false} FeedLines(rows: Table, lines: seq<Line>, terminated: bool)
    requires AreLines(lines) && LineFeedsOnly(lines)
    ensures ReadAfter(rows, lines, terminated) == rows + Kept(lines, terminated)
    decreases |lines|
  {
    if lines == [] {
      assert rows + [] == rows;
    } else if |lines| == 1 && !terminated {
      assert lines[0] in lines;
      ReadLastLine(rows, lines);
    } else {
      ReadFirstLine(rows, lines, terminated);
      KeptAfter(rows, lines, terminated);
      FeedLines(rows + [Texts(lines[0].cells)], lines[1..], terminated);
    }
  }

  lemma {:induction false} KeptHead(lines: seq<Line>, terminated: bool)
    requires lines != [] && (|lines| > 1 || terminated)
    ensures Kept(lines, terminated) == [Texts(lines[0].cells)] + Kept(lines[1..], terminated)
  {
    if LosesLastRow(lines, terminated) {
      assert lines[..|lines| - 1][1..] == lines[1..][..|lines| - 2];
    }
  }

  // ---- Line breaks of a printed table ------------------------------------------------------------

  predicate SplitsCrLf(a: string, b: string) {
    a != "" && b != "" && a[|a| - 1] == '\r' && b[0] == '\n'
  }

  lemma {:induction false} BreaksConcat(a: string, b: string)
    requires !SplitsCrLf(a, b)
    ensures Breaks(a + b) == Breaks(a) + Breaks(b)
    decreases |a|
  {
    if a == "" {
      assert a + b == b;
    } else if |a| == 1 {
      assert (a + b)[1..] == b && a[1..] == "";
    } else {
      assert (a + b)[1..] == a[1..] + b && (a + b)[2..] == a[2..] + b;
      if a[0] == '\r' && a[1] == '\n' {
        BreaksConcat(a[2..], b);
      } else {
        BreaksConcat(a[1..], b);
      }
    }
  }

  lemma {:induction false} BreaksOfPlain(s: string)
    ensures Breaks(s) == s <==> '\r' !in s
    ensures '\r' !in Breaks(s)
  {
    if s != "" {
      assert s == [s[0]] + s[1..];
      if s[0] == '\r' {
        var rest := if |s| > 1 && s[1] == '\n' then s[2..] else s[1..];
        BreaksOfPlain(rest);
        assert Breaks(s)[0] == '\n';
      } else {
        BreaksOfPlain(s[1..]);
        assert Breaks(s)[1..] == Breaks(s[1..]);
      }
    }
  }

  lemma {:induction false} FirstOfBreaks(c: char, s: string)
    ensures c != '\r' ==> Breaks([c] + s) == [c] + Breaks(s)
    ensures c == '\r' && (s == "" || s[0] != '\n') ==> Breaks([c] + s) == "\n" + Breaks(s)
    ensures c == '\r' ==> Breaks([c] + ("\n" + s)) == "\n" + Breaks(s)
  {
    assert ([c] + s)[1..] == s && ([c] + ("\n" + s))[2..] == s;
  }

  lemma {:induction false} FirstOfEscape(c: char, s: string)
    ensures Escape([c] + s) == if c == '"' then ['"'] + (['"'] + Escape(s)) else [c] + Escape(s)
  {
    assert ([c] + s)[1..] == s;
  }

  lemma {:induction false} BreaksOfEscape(s: string)
    ensures Breaks(Escape(s)) == Escape(Breaks(s))
  {
    if s != "" {
      var c, rest := s[0], s[1..];
      assert s == [c] + rest;
      FirstOfEscape(c, rest);
      if c == '\r' && rest != "" && rest[0] == '\n' {
        var more := rest[1..];
        assert rest == "\n" + more;
        BreaksOfEscape(more);
        FirstOfEscape('\n', more);
        FirstOfBreaks(c, more);
        FirstOfBreaks(c, Escape(more));
        FirstOfEscape('\n', Breaks(more));
      } else {
        BreaksOfEscape(rest);
        EscapeOfFirst(c, rest);
      }
    }
  }

  lemma {:induction false} EscapeOfFirst(c: char, rest: string)
    requires Breaks(Escape(rest)) == Escape(Breaks(rest))
    requires c != '\r' || rest == "" || rest[0] != '\n'
    ensures Breaks(Escape([c] + rest)) == Escape(Breaks([c] + rest))
  {
    FirstOfEscape(c, rest);
    FirstOfBreaks(c, rest);
    if c == '"' {
      FirstOfBreaks(c, Escape(rest));
      FirstOfBreaks(c, ['"'] + Escape(rest));
      FirstOfEscape(c, Breaks(rest));
    } else {
      EscapeStart(rest);
      FirstOfBreaks(c, Escape(rest));
      FirstOfEscape(if c == '\r' then '\n' else c, Breaks(rest));
    }
  }

  lemma {:induction false} EscapeStart(s: string)
    ensures Escape(s) == "" <==> s == ""
    ensures s != "" ==> Escape(s)[0] == s[0]
  {
  }

  function NormalCell(c: Cell): Cell {
    c.(text := Breaks(c.text))
  }

  function NormalCells(cells: seq<Cell>): (normal: seq<Cell>)
    ensures |normal| == |cells| && forall i | 0 <= i < |cells| :: normal[i] == NormalCell(cells[i])
  {
    if cells == [] then [] else [NormalCell(cells[0])] + NormalCells(cells[1..])
  }

  function NormalLines(lines: seq<Line>): (normal: seq<Line>)
    ensures |normal| == |lines| && forall i | 0 <= i < |lines| :: normal[i] == Line(NormalCells(lines[i].cells), false)
  {
    if lines == [] then [] else [Line(NormalCells(lines[0].cells), false)] + NormalLines(lines[1..])
  }

  predicate EndsInCr(s: string) {
    s != "" && s[|s| - 1] == '\r'
  }

  lemma {:induction false} BreaksOfCell(c: Cell)
    requires c.quoted || IsPlain(c.text)
    ensures Breaks(PrintCell(c)) == PrintCell(NormalCell(c)) && !EndsInCr(PrintCell(c))
    ensures c.quoted || IsPlain(NormalCell(c).text)
  {
    BreaksOfPlain(c.text);
    if c.quoted {
      BreaksOfEscape(c.text);
      BreaksConcat("\"", Escape(c.text) + "\"");
      BreaksConcat(Escape(c.text), "\"");
      BreaksOfPlain("\"");
    }
  }

  lemma {:induction false} BreaksOfCells(cells: seq<Cell>)
    requires IsLine(Line(cells, false))
    ensures Breaks(PrintCells(cells)) == PrintCells(NormalCells(cells)) && !EndsInCr(PrintCells(cells))
    ensures IsLine(Line(NormalCells(cells), false))
  {
    var normal := NormalCells(cells);
    assert cells[0] in cells;
    forall c | c in normal
      ensures c.quoted || IsPlain(c.text)
    {
      var i :| 0 <= i < |normal| && normal[i] == c;
      assert cells[i] in cells;
      BreaksOfCell(cells[i]);
    }
    BreaksOfCell(cells[0]);
    if |cells| > 1 {
      var rest := PrintCells(cells[1..]);
      BreaksOfCells(cells[1..]);
      BreaksConcat(PrintCell(cells[0]), "," + rest);
      BreaksConcat(",", rest);
      BreaksOfPlain(",");
      assert normal[1..] == NormalCells(cells[1..]);
    }
  }

  lemma {:induction false} BreaksOfLine(line: Line, rest: string)
    requires IsLine(line)
    ensures Breaks(PrintCells(line.cells) + (LineEnd(line) + rest))
         == PrintCells(NormalCells(line.cells)) + ("\n" + Breaks(rest))
  {
    BreaksOfCells(line.cells);
    BreaksConcat(PrintCells(line.cells), LineEnd(line) + rest);
    assert (LineEnd(line) + rest)[|LineEnd(line)|..] == rest;
  }

  lemma {:induction false} BreaksOfPrint(lines: seq<Line>, terminated: bool)
    requires AreLines(lines)
    ensures Breaks(Print(lines, terminated)) == Print(NormalLines(lines), terminated)
    ensures AreLines(NormalLines(lines)) && LineFeedsOnly(NormalLines(lines))
  {
    if lines != [] {
      assert lines[0] in lines;
      BreaksOfCells(lines[0].cells);
      BreaksOfPrint(lines[1..], terminated);
      assert NormalLines(lines)[1..] == NormalLines(lines[1..]);
      if |lines| > 1 || terminated {
        BreaksOfLine(lines[0], Print(lines[1..], terminated));
      }
    }
  }

  // ---- Main results --------------------------------------------------------------------------------

  /** Only a plain first cell can put a byte order mark at the start of the text. */
  predicate StartsWithMark(lines: seq<Line>) {
    lines != [] && lines[0].cells != [] && !lines[0].cells[0].quoted
    && lines[0].cells[0].text != "" && lines[0].cells[0].text[0] == ByteOrderMark
  }

  lemma {:induction false} PrintedMark(lines: seq<Line>, terminated: bool)
    requires AreLines(lines)
    ensures StartsWithMark(lines) <==> Print(lines, terminated) != "" && Print(lines, terminated)[0] == ByteOrderMark
  {
    if lines != [] {
      var cells := lines[0].cells;
      assert lines[0] in lines && cells[0] in cells;
      assert PrintCell(cells[0]) != "" ==> PrintCells(cells) != "" && PrintCells(cells)[0] == PrintCell(cells[0])[0];
      assert PrintCells(cells) != "" ==> Print(lines, terminated)[0] == PrintCells(cells)[0];
    }
  }

  /** Parsing a printed table gives its cells with normalised line breaks, but for a lost last row. */
  lemma {:induction false} ParsePrinted(lines: seq<Line>, terminated: bool)
    requires AreLines(lines) && !StartsWithMark(lines)
    ensures Parse(Print(lines, terminated)) == Kept(NormalLines(lines), terminated)
  {
    PrintedMark(lines, terminated);
    BreaksOfPrint(lines, terminated);
    FeedLines([], NormalLines(lines), terminated);
    assert [] + Kept(NormalLines(lines), terminated) == Kept(NormalLines(lines), terminated);
  }

  predicate HasCr(lines: seq<Line>) {
    exists l | l in lines :: exists c | c in l.cells :: '\r' in c.text
  }

  lemma {:induction false} NormalTexts(lines: seq<Line>)
    ensures TableOf(NormalLines(lines)) == TableOf(lines) <==> !HasCr(lines)
  {
    forall i, j | 0 <= i < |lines| && 0 <= j < |lines[i].cells|
      ensures TableOf(NormalLines(lines))[i][j] == Breaks(lines[i].cells[j].text)
      ensures Breaks(lines[i].cells[j].text) == TableOf(lines)[i][j] <==> '\r' !in lines[i].cells[j].text
    {
      BreaksOfPlain(lines[i].cells[j].text);
    }
    if !HasCr(lines) {
      forall i | 0 <= i < |lines|
        ensures TableOf(NormalLines(lines))[i] == TableOf(lines)[i]
      {
        forall j | 0 <= j < |lines[i].cells|
          ensures TableOf(NormalLines(lines))[i][j] == TableOf(lines)[i][j]
        {
          assert lines[i] in lines && lines[i].cells[j] in lines[i].cells;
        }
      }
    } else {
      var l :| l in lines && exists c | c in l.cells :: '\r' in c.text;
      var c :| c in l.cells && '\r' in c.text;
      var i :| 0 <= i < |lines| && lines[i] == l;
      var j :| 0 <= j < |l.cells| && l.cells[j] == c;
      assert TableOf(NormalLines(lines))[i][j] != TableOf(lines)[i][j];
    }
  }

  lemma {:induction false} NormalLoses(lines: seq<Line>, terminated: bool)
    ensures LosesLastRow(NormalLines(lines), terminated) <==> LosesLastRow(lines, terminated)
  {
    if lines != [] && lines[|lines| - 1].cells != [] {
      var text := lines[|lines| - 1].cells[0].text;
      assert Breaks(text) == "" <==> text == "";
    }
  }

  /**
   Printing a table of non-empty rows and parsing it gives the table back exactly
   when no cell has a carriage return and the last row is not a single empty cell
   without a line end. Cells may each be quoted or, where allowed, plain; each row
   may end in LF or CRLF; the text must not begin with a byte order mark.
   */
  lemma {:induction false} RoundTripIff(lines: seq<Line>, terminated: bool)
    requires AreLines(lines) && !StartsWithMark(lines)
    ensures Parse(Print(lines, terminated)) == TableOf(lines) <==> !HasCr(lines) && !LosesLastRow(lines, terminated)
  {
    ParsePrinted(lines, terminated);
    NormalTexts(lines);
    NormalLoses(lines, terminated);
    if LosesLastRow(lines, terminated) {
      assert |Kept(NormalLines(lines), terminated)| < |TableOf(lines)|;
    }
  }

  /** The table without the mark at its start. */
  function Unmarked(lines: seq<Line>): seq<Line>
    requires StartsWithMark(lines)
  {
    var first := lines[0].cells[0];
    [lines[0].(cells := [first.(text := first.text[1..])] + lines[0].cells[1..])] + lines[1..]
  }

  lemma {:induction false} UnmarkedIsValid(lines: seq<Line>)
    requires AreLines(lines) && StartsWithMark(lines)
    ensures AreLines(Unmarked(lines))
  {
    var cells, after := lines[0].cells, Unmarked(lines)[0].cells;
    assert lines[0] in lines && cells[0] in cells;
    forall c | c in after
      ensures c.quoted || IsPlain(c.text)
    {
      assert c == after[0] || c in cells[1..];
    }
    assert forall l | l in Unmarked(lines) :: l == Unmarked(lines)[0] || l in lines[1..];
  }

  lemma {:induction false} UnmarkedCells(cells: seq<Cell>, after: seq<Cell>)
    requires cells != [] && !cells[0].quoted && cells[0].text != ""
    requires after == [cells[0].(text := cells[0].text[1..])] + cells[1..]
    ensures PrintCells(cells) != "" && PrintCells(cells)[1..] == PrintCells(after)
  {
    assert after[1..] == cells[1..];
  }

  /** What is printed after the cells of the first line. */
  function AfterFirst(crlf: bool, rest: seq<Line>, terminated: bool): string {
    if rest == [] && !terminated then "" else LineEnd(Line([], crlf)) + Print(rest, terminated)
  }

  lemma {:induction false} PrintedFirst(lines: seq<Line>, terminated: bool)
    requires lines != []
    ensures Print(lines, terminated) == PrintCells(lines[0].cells) + AfterFirst(lines[0].crlf, lines[1..], terminated)
  {
  }

  lemma {:induction false} DropFirst(a: string, b: string, rest: string)
    requires a != "" && a[1..] == b
    ensures a + rest != "" && (a + rest)[0] == a[0] && (a + rest)[1..] == b + rest
  {
  }

  lemma {:induction false} UnmarkedPrints(lines: seq<Line>, terminated: bool)
    requires AreLines(lines) && StartsWithMark(lines)
    ensures StripMark(Print(lines, terminated)) == Print(Unmarked(lines), terminated)
  {
    var after := Unmarked(lines);
    var rest := AfterFirst(lines[0].crlf, lines[1..], terminated);
    UnmarkedCells(lines[0].cells, after[0].cells);
    PrintedMark(lines, terminated);
    PrintedFirst(lines, terminated);
    PrintedFirst(after, terminated);
    assert after[1..] == lines[1..] && after[0].crlf == lines[0].crlf;
    DropFirst(PrintCells(lines[0].cells), PrintCells(after[0].cells), rest);
  }

  /** A byte order mark at the start is dropped, so a table that begins with one never comes back. */
  lemma {:induction false} MarkIsLost(lines: seq<Line>, terminated: bool)
    requires AreLines(lines) && StartsWithMark(lines)
    ensures Parse(Print(lines, terminated)) == Kept(NormalLines(Unmarked(lines)), terminated) != TableOf(lines)
  {
    var after := Unmarked(lines);
    UnmarkedPrints(lines, terminated);
    UnmarkedIsValid(lines);
    BreaksOfPrint(after, terminated);
    FeedLines([], NormalLines(after), terminated);
    PrintedMark(lines, terminated);
    var kept := Kept(NormalLines(after), terminated);
    assert [] + kept == kept;
    if kept != [] {
      assert |kept[0][0]| < |TableOf(lines)[0][0]|;
    }
  }
}
