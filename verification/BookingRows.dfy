/**
 From a parsed CSV table to booking rows: lining a row up with the header, and
 keeping only the first row of each PNR.
 */
module BookingRows {
  import opened Common
  import opened Planner
  import Csv

  // ---- Text helpers ----------------------------------------------------------------

  /** One more character before text that splits into these parts. */
  function AddChar(c: char, parts: seq<string>): (more: seq<string>)
    requires |parts| > 0
    ensures |more| > 0
  {
    if c == ',' then [""] + parts else [[c] + parts[0]] + parts[1..]
  }

  /** Parts between commas; there is always at least one. */
  function Split(s: string): (parts: seq<string>)
    ensures |parts| > 0
  {
    if s == "" then [""] else AddChar(s[0], Split(s[1..]))
  }

  lemma {:induction false} SplitFirst(c: char, s: string)
    ensures Split([c] + s) == AddChar(c, Split(s))
  {
    assert ([c] + s)[1..] == s;
  }

  lemma {:induction false} AddCharAppend(c: char, a: seq<string>, b: seq<string>)
    requires |a| > 0
    ensures AddChar(c, a + b) == AddChar(c, a) + b
  {
  }

  lemma {:induction false} SplitAppend(a: string, b: string)
    requires Split(b)[0] == ""
    ensures Split(a + b) == Split(a) + Split(b)[1..]
  {
    if a == "" {
      assert a + b == b && [""] + Split(b)[1..] == Split(b);
    } else {
      SplitAppend(a[1..], b);
      SplitFirst(a[0], a[1..] + b);
      AddCharAppend(a[0], Split(a[1..]), Split(b)[1..]);
      assert a + b == [a[0]] + (a[1..] + b);
    }
  }

  lemma {:induction false} SplitJoined(a: string, b: string)
    ensures Split(a + ("," + b)) == Split(a) + Split(b)
  {
    SplitFirst(',', b);
    SplitAppend(a, [','] + b);
    assert ([""] + Split(b))[1..] == Split(b);
  }

  function Join(parts: seq<string>, separator: string): string {
    if parts == [] then "" else if |parts| == 1 then parts[0]
    else Join(parts[..|parts| - 1], separator) + separator + parts[|parts| - 1]
  }

  function NonBlank(parts: seq<string>): seq<string> {
    if parts == [] then [] else
      NonBlank(parts[..|parts| - 1]) + if parts[|parts| - 1] == "" then [] else [parts[|parts| - 1]]
  }

  function TrimAll(parts: seq<string>, trim: string -> string): (trimmed: seq<string>)
    ensures |trimmed| == |parts| && forall i | 0 <= i < |parts| :: trimmed[i] == trim(parts[i])
  {
    if parts == [] then [] else TrimAll(parts[..|parts| - 1], trim) + [trim(parts[|parts| - 1])]
  }

  predicate IsWhole(s: string) {
    s != "" && forall i | 0 <= i < |s| :: '0' <= s[i] <= '9'
  }

  function WholeValue(s: string): nat
    requires forall i | 0 <= i < |s| :: '0' <= s[i] <= '9'
  {
    if s == "" then 0 else
      10 * WholeValue(s[..|s| - 1]) + (s[|s| - 1] as int - '0' as int)
  }

  // ---- fitRowToHeader -----------------------------------------------------------------

  /** Where the columns are; `agesAt` and `notesAt` are set when those columns exist. */
  datatype Layout = Layout(headerLength: nat, childrenAt: nat, agesAt: Option<nat>, notesAt: Option<nat>)

  datatype Fitted = Fitted(cells: seq<string>, tooLong: bool)

  function CellAt(row: seq<string>, i: nat): string {
    if i < |row| then row[i] else ""
  }

  predicate AgesThenNotes(layout: Layout) {
    layout.headerLength >= 2 && layout.agesAt == Some(layout.headerLength - 2)
    && layout.notesAt == Some(layout.headerLength - 1)
  }

  function FlatMap<A, B>(f: A -> seq<B>, xs: seq<A>): seq<B> {
    if xs == [] then [] else f(xs[0]) + FlatMap(f, xs[1..])
  }

  /** All values from the Child Ages column on, one by one. */
  function TailParts(tail: seq<string>, trim: string -> string): seq<string> {
    FlatMap(cell => TrimAll(Split(cell), trim), tail)
  }

  predicate CanBeAge(part: string) {
    part == "" || IsWhole(part)
  }

  /** The longest run of leading ages, at most `max` of them. */
  function LeadingAges(parts: seq<string>, max: nat): (k: nat)
    ensures k <= max && k <= |parts|
    ensures forall i | 0 <= i < k :: CanBeAge(parts[i])
    ensures k == max || k == |parts| || !CanBeAge(parts[k])
  {
    if max == 0 || parts == [] || !CanBeAge(parts[0]) then 0 else 1 + LeadingAges(parts[1..], max - 1)
  }

  lemma {:induction false} LongestRun(parts: seq<string>, max: nat, k: nat)
    requires k <= max && k <= |parts| && forall i | 0 <= i < k :: CanBeAge(parts[i])
    requires k == max || k == |parts| || !CanBeAge(parts[k])
    ensures LeadingAges(parts, max) == k
  {
    if k > 0 {
      assert forall i | 0 <= i < k - 1 :: parts[1..][i] == parts[i + 1];
      LongestRun(parts[1..], max - 1, k - 1);
    }
  }

  /** The cells before Child Ages, then the ages and the notes. */
  function FitTail(head: seq<string>, parts: seq<string>, children: nat): seq<string> {
    var k := LeadingAges(parts, Max(children, 1));
    head + [Join(NonBlank(parts[..k]), ","), Join(NonBlank(parts[k..]), ", ")]
  }

  function DropBlankEnd(cells: seq<string>, length: nat, trim: string -> string): seq<string> {
    if |cells| > length && trim(cells[|cells| - 1]) == "" then DropBlankEnd(cells[..|cells| - 1], length, trim) else cells
  }

  function CutRow(row: seq<string>, length: nat, trim: string -> string): Fitted {
    var cells := DropBlankEnd(row, length, trim);
    if |cells| <= length then Fitted(cells, false) else Fitted(cells[..length], true)
  }

  function FitRow(row: seq<string>, layout: Layout, trim: string -> string): Fitted {
    var children := trim(CellAt(row, layout.childrenAt));
    if AgesThenNotes(layout) && IsWhole(children) then
      var at := Min(layout.headerLength - 2, |row|);
      Fitted(FitTail(row[..at], TailParts(row[at..], trim), WholeValue(children)), false)
    else CutRow(row, layout.headerLength, trim)
  }

  method FitAgesAndNotes(head: seq<string>, parts: seq<string>, children: nat) returns (cells: seq<string>)
    ensures cells == FitTail(head, parts, children)
  {
    var maxAges := Max(children, 1);
    var agesCount := 0;
    while agesCount < maxAges && agesCount < |parts| && CanBeAge(parts[agesCount])
      invariant agesCount <= maxAges && agesCount <= |parts|
      invariant forall i | 0 <= i < agesCount :: CanBeAge(parts[i])
    {
      agesCount := agesCount + 1;
    }
    LongestRun(parts, maxAges, agesCount);
    cells := head + [Join(NonBlank(parts[..agesCount]), ","), Join(NonBlank(parts[agesCount..]), ", ")];
  }

  method CutToHeader(row: seq<string>, length: nat, trim: string -> string) returns (fitted: Fitted)
    ensures fitted == CutRow(row, length, trim)
  {
    var cells := row;
    while |cells| > length && trim(cells[|cells| - 1]) == ""
      invariant DropBlankEnd(row, length, trim) == DropBlankEnd(cells, length, trim)
      decreases |cells|
    {
      cells := cells[..|cells| - 1];
    }
    fitted := if |cells| <= length then Fitted(cells, false) else Fitted(cells[..length], true);
  }

  method FitRowToHeader(row: seq<string>, layout: Layout, trim: string -> string) returns (fitted: Fitted)
    ensures fitted == FitRow(row, layout, trim)
  {
    var children := trim(CellAt(row, layout.childrenAt));
    if AgesThenNotes(layout) && IsWhole(children) {
      var at := Min(layout.headerLength - 2, |row|);
      var cells := FitAgesAndNotes(row[..at], TailParts(row[at..], trim), WholeValue(children));
      return Fitted(cells, false);
    }
    fitted := CutToHeader(row, layout.headerLength, trim);
  }

  lemma {:induction false} FlatMapFirst<A, B>(f: A -> seq<B>, x: A, rest: seq<A>)
    ensures FlatMap(f, [x] + rest) == f(x) + FlatMap(f, rest)
  {
    assert ([x] + rest)[1..] == rest;
  }

  lemma {:induction false} FlatMapAppend<A, B>(f: A -> seq<B>, a: seq<A>, b: seq<A>)
    ensures FlatMap(f, a + b) == FlatMap(f, a) + FlatMap(f, b)
  {
    if a == [] {
      assert a + b == b;
    } else {
      var first, rest := a[0], a[1..];
      FlatMapAppend(f, rest, b);
      FlatMapFirst(f, first, rest + b);
      assert a + b == [first] + (rest + b);
      Associative(f(first), FlatMap(f, rest), FlatMap(f, b));
    }
  }

  lemma {:induction false} Associative<B>(a: seq<B>, b: seq<B>, c: seq<B>)
    ensures a + (b + c) == (a + b) + c
  {
  }

  lemma {:induction false} FlatMapOfTwo<A, B>(f: A -> seq<B>, joined: A, a: A, b: A, rest: seq<A>)
    requires f(joined) == f(a) + f(b)
    ensures FlatMap(f, [joined] + rest) == FlatMap(f, [a] + ([b] + rest))
  {
    FlatMapFirst(f, joined, rest);
    FlatMapFirst(f, b, rest);
    FlatMapFirst(f, a, [b] + rest);
  }

  lemma {:induction false} TailPartsAppend(a: seq<string>, b: seq<string>, trim: string -> string)
    ensures TailParts(a + b, trim) == TailParts(a, trim) + TailParts(b, trim)
  {
    FlatMapAppend(cell => TrimAll(Split(cell), trim), a, b);
  }

  lemma {:induction false} TrimAppend(a: seq<string>, b: seq<string>, trim: string -> string)
    ensures TrimAll(a + b, trim) == TrimAll(a, trim) + TrimAll(b, trim)
  {
  }

  lemma {:induction false} JoinedParts(a: string, b: string, rest: seq<string>, trim: string -> string)
    ensures TailParts([a + ("," + b)] + rest, trim) == TailParts([a] + ([b] + rest), trim)
  {
    SplitJoined(a, b);
    TrimAppend(Split(a), Split(b), trim);
    FlatMapOfTwo(cell => TrimAll(Split(cell), trim), a + ("," + b), a, b, rest);
  }

  /** Only the cells before Child Ages and the parts after them matter. */
  lemma {:induction false} FitOfTail(row: seq<string>, head: seq<string>, parts: seq<string>, children: string, layout: Layout, trim: string -> string)
    requires AgesThenNotes(layout) && |head| == layout.headerLength - 2 <= |row| && layout.childrenAt < |head|
    requires row[..|head|] == head && parts == TailParts(row[|head|..], trim)
    requires children == trim(head[layout.childrenAt]) && IsWhole(children)
    ensures FitRow(row, layout, trim) == Fitted(FitTail(head, parts, WholeValue(children)), false)
  {
    assert row[..|head|][layout.childrenAt] == row[layout.childrenAt];
  }

  /**
   Ages and notes read the same whether commas split them into cells or a quoted
   cell holds them: "4,9" in one cell is 4 and 9 in two.
   */
  lemma {:induction false} QuotingTheTailDoesNotMatter(
    head: seq<string>, a: string, b: string, rest: seq<string>, layout: Layout, trim: string -> string)
    requires AgesThenNotes(layout) && |head| >= layout.headerLength - 2 && layout.childrenAt < layout.headerLength - 2
    requires IsWhole(trim(head[layout.childrenAt]))
    ensures FitRow(head + ([a + ("," + b)] + rest), layout, trim) == FitRow(head + ([a] + ([b] + rest)), layout, trim)
  {
    var at := layout.headerLength - 2;
    var joined, apart := [a + ("," + b)] + rest, [a] + ([b] + rest);
    TailPartsAppend(head[at..], joined, trim);
    TailPartsAppend(head[at..], apart, trim);
    JoinedParts(a, b, rest, trim);
    SliceOfAppend(head, joined, at);
    SliceOfAppend(head, apart, at);
    var parts, children := TailParts(head[at..], trim) + TailParts(apart, trim), trim(head[layout.childrenAt]);
    FitOfTail(head + joined, head[..at], parts, children, layout, trim);
    FitOfTail(head + apart, head[..at], parts, children, layout, trim);
  }

  lemma {:induction false} SliceOfAppend(a: seq<string>, b: seq<string>, at: nat)
    requires at <= |a|
    ensures (a + b)[at..] == a[at..] + b && (a + b)[..at] == a[..at]
  {
  }

  // ---- One importable row per PNR ---------------------------------------------------------

  /** The details of a valid row, as they are saved. */
  datatype Booking = Booking(
    pnr: string,
    firstName: string,
    lastName: string,
    email: string,
    phone: string,
    residency: string,
    travelClass: string,
    adults: nat,
    children: nat,
    childAges: seq<nat>,
    specialNotes: Option<string>)

  datatype RowError = RowTooLong | DuplicatePnr(firstRow: nat) | FieldError(field: string) | SavedDifferently

  /** What one row's cells say: its values as text, their problems, and the booking they stand for. */
  datatype Reading = Reading(pnr: string, values: seq<string>, problems: seq<RowError>, booking: Booking)

  datatype ParsedRow = ParsedRow(
    rowNumber: nat, pnr: string, values: seq<string>, errors: seq<RowError>, booking: Option<Booking>)

  /** Reading a row's cells is a function of its own; the PNR it gives is normalised, and required. */
  ghost predicate ReadsPnrs(read: seq<string> -> Reading, normalPnr: string -> string) {
    forall cells: seq<string> ::
      var r := read(cells);
      normalPnr(r.pnr) == r.pnr && (r.problems == [] ==> r.pnr != "" && r.booking.pnr == r.pnr)
  }

  datatype DataRow = DataRow(cells: seq<string>, rowNumber: nat)

  function ReadRow(row: DataRow, layout: Layout, trim: string -> string, read: seq<string> -> Reading): ParsedRow {
    var fitted := FitRow(row.cells, layout, trim);
    var r := read(fitted.cells);
    ParsedRow(row.rowNumber, r.pnr, r.values,
      (if fitted.tooLong then [RowTooLong] else []) + r.problems,
      if r.problems == [] && !fitted.tooLong then Some(r.booking) else None)
  }

  function FirstRowOf(rows: seq<ParsedRow>, pnr: string): Option<nat> {
    if rows == [] then None
    else if rows[0].pnr == pnr then Some(rows[0].rowNumber)
    else FirstRowOf(rows[1..], pnr)
  }

  function WithoutDuplicate(row: ParsedRow, earlier: seq<ParsedRow>): ParsedRow {
    var first := FirstRowOf(earlier, row.pnr);
    if row.pnr != "" && first.Some? then
      row.(errors := [DuplicatePnr(first.value)] + row.errors, booking := None)
    else row
  }

  function ParseRows(rows: seq<DataRow>, layout: Layout, trim: string -> string, read: seq<string> -> Reading)
    : (parsed: seq<ParsedRow>)
    ensures |parsed| == |rows|
  {
    if rows == [] then [] else
      var before := ParseRows(rows[..|rows| - 1], layout, trim, read);
      before + [WithoutDuplicate(ReadRow(rows[|rows| - 1], layout, trim, read), before)]
  }

  lemma {:induction false} FirstRowAppend(rows: seq<ParsedRow>, row: ParsedRow, pnr: string)
    ensures FirstRowOf(rows + [row], pnr) ==
      if FirstRowOf(rows, pnr).Some? then FirstRowOf(rows, pnr)
      else if row.pnr == pnr then Some(row.rowNumber) else None
  {
    if rows == [] {
      assert rows + [row] == [row];
    } else {
      assert (rows + [row])[1..] == rows[1..] + [row];
      FirstRowAppend(rows[1..], row, pnr);
    }
  }

  ghost predicate Records(firstRowByPnr: map<string, nat>, parsed: seq<ParsedRow>) {
    forall pnr: string | pnr != "" ::
      FirstRowOf(parsed, pnr) == if pnr in firstRowByPnr then Some(firstRowByPnr[pnr]) else None
  }

  method ParseDataRows(rows: seq<DataRow>, layout: Layout, trim: string -> string, read: seq<string> -> Reading)
    returns (parsed: seq<ParsedRow>)
    ensures parsed == ParseRows(rows, layout, trim, read)
  {
    parsed := [];
    var firstRowByPnr: map<string, nat> := map[];
    for n := 0 to |rows|
      invariant parsed == ParseRows(rows[..n], layout, trim, read)
      invariant Records(firstRowByPnr, parsed)
    {
      assert rows[..n + 1][..n] == rows[..n];
      var fitted := FitRowToHeader(rows[n].cells, layout, trim);
      var r := read(fitted.cells);
      var row := ParsedRow(rows[n].rowNumber, r.pnr, r.values, r.problems, if r.problems == [] then Some(r.booking) else None);
      if fitted.tooLong {
        row := row.(errors := [RowTooLong] + row.errors, booking := None);
      }
      assert [] + r.problems == r.problems;
      assert row == ReadRow(rows[n], layout, trim, read);
      ghost var before := parsed;
      if row.pnr != "" {
        if row.pnr in firstRowByPnr {
          row := row.(errors := [DuplicatePnr(firstRowByPnr[row.pnr])] + row.errors, booking := None);
        } else {
          firstRowByPnr := firstRowByPnr[row.pnr := row.rowNumber];
        }
      }
      parsed := parsed + [row];
      forall pnr: string | pnr != ""
        ensures FirstRowOf(parsed, pnr) == if pnr in firstRowByPnr then Some(firstRowByPnr[pnr]) else None
      {
        FirstRowAppend(before, row, pnr);
      }
    }
    assert rows[..|rows|] == rows;
  }

  // ---- The whole file ------------------------------------------------------------------------

  datatype FileResult = FileRows(rows: seq<ParsedRow>) | EmptyFile | BadColumns | NoDataRows

  function IsBlankRow(row: seq<string>, trim: string -> string): bool {
    forall cell | cell in row :: trim(cell) == ""
  }

  /** Rows below the header that say anything, numbered as a spreadsheet does. */
  function DataRows(table: Csv.Table, trim: string -> string): seq<DataRow> {
    if |table| <= 1 then [] else
      DataRows(table[..|table| - 1], trim)
      + if IsBlankRow(table[|table| - 1], trim) then [] else [DataRow(table[|table| - 1], |table|)]
  }

  /** `columns` maps the header to its columns, or refuses the file. */
  type Columns = (seq<string>, seq<DataRow>) -> Option<Layout>

  function FileOf(table: Csv.Table, columns: Columns, trim: string -> string, read: seq<string> -> Reading): FileResult {
    if table == [] || IsBlankRow(table[0], trim) then EmptyFile
    else
      var data := DataRows(table, trim);
      match columns(table[0], data)
      case None => BadColumns
      case Some(layout) => if data == [] then NoDataRows else FileRows(ParseRows(data, layout, trim, read))
  }

  method ParseBookingCsv(content: string, columns: Columns, trim: string -> string, read: seq<string> -> Reading)
    returns (result: FileResult)
    ensures result == FileOf(Csv.Parse(content), columns, trim, read)
  {
    var table := Csv.ParseCsvRows(content);
    if table == [] || IsBlankRow(table[0], trim) {
      return EmptyFile;
    }
    var data := DataRows(table, trim);
    var layout := columns(table[0], data);
    if layout.None? {
      return BadColumns;
    }
    if data == [] {
      return NoDataRows;
    }
    var rows := ParseDataRows(data, layout.value, trim, read);
    result := FileRows(rows);
  }

  // ---- What the rows promise --------------------------------------------------------------------

  /** A parsed file: importable rows are those without errors, and each PNR has at most one. */
  ghost predicate WellParsed(rows: seq<ParsedRow>, normalPnr: string -> string) {
    && (forall i | 0 <= i < |rows| :: normalPnr(rows[i].pnr) == rows[i].pnr)
    && (forall i | 0 <= i < |rows| :: rows[i].booking.Some? <==> rows[i].errors == [])
    && (forall i | 0 <= i < |rows| && rows[i].booking.Some? ::
          rows[i].pnr != "" && rows[i].booking.value.pnr == rows[i].pnr)
    && (forall i, j | 0 <= i < j < |rows| && rows[j].booking.Some? :: rows[i].pnr != rows[j].pnr)
  }

  lemma {:induction false} NotFoundMeansAbsent(rows: seq<ParsedRow>, pnr: string)
    ensures FirstRowOf(rows, pnr).None? <==> forall i | 0 <= i < |rows| :: rows[i].pnr != pnr
  {
    if rows != [] {
      NotFoundMeansAbsent(rows[1..], pnr);
      assert forall i | 0 < i < |rows| :: rows[i] == rows[1..][i - 1];
    }
  }

  predicate RowIsConsistent(row: ParsedRow) {
    && (row.booking.Some? <==> row.errors == [])
    && (row.booking.Some? ==> row.pnr != "" && row.booking.value.pnr == row.pnr)
  }

  lemma {:induction false} OneMoreRow(before: seq<ParsedRow>, row: ParsedRow, normalPnr: string -> string)
    requires WellParsed(before, normalPnr) && RowIsConsistent(row) && normalPnr(row.pnr) == row.pnr
    ensures WellParsed(before + [WithoutDuplicate(row, before)], normalPnr)
  {
    NotFoundMeansAbsent(before, row.pnr);
  }

  /** A row can be imported exactly when it has no errors, and only the first row of a PNR can. */
  lemma {:induction false} RowsAreWellParsed(
    rows: seq<DataRow>, layout: Layout, trim: string -> string, read: seq<string> -> Reading, normalPnr: string -> string)
    requires ReadsPnrs(read, normalPnr)
    ensures WellParsed(ParseRows(rows, layout, trim, read), normalPnr)
  {
    if rows != [] {
      var last := rows[|rows| - 1];
      RowsAreWellParsed(rows[..|rows| - 1], layout, trim, read, normalPnr);
      var r := read(FitRow(last.cells, layout, trim).cells);
      assert normalPnr(r.pnr) == r.pnr;
      OneMoreRow(ParseRows(rows[..|rows| - 1], layout, trim, read), ReadRow(last, layout, trim, read), normalPnr);
    }
  }

  /** The data rows are exactly the non-blank rows below the header, each once, in order, with its row number. */
  lemma {:induction false} DataRowsAre(table: Csv.Table, trim: string -> string, row: DataRow)
    ensures row in DataRows(table, trim) <==>
      2 <= row.rowNumber <= |table| && row.cells == table[row.rowNumber - 1] && !IsBlankRow(row.cells, trim)
    ensures forall i, j | 0 <= i < j < |DataRows(table, trim)| ::
              DataRows(table, trim)[i].rowNumber < DataRows(table, trim)[j].rowNumber
  {
    DataRowsAreNumbered(table, trim);
    if |table| > 1 {
      DataRowsAre(table[..|table| - 1], trim, row);
    }
  }

  lemma {:induction false} DataRowsAreNumbered(table: Csv.Table, trim: string -> string)
    ensures forall i | 0 <= i < |DataRows(table, trim)| :: DataRows(table, trim)[i].rowNumber <= |table|
    ensures forall i, j | 0 <= i < j < |DataRows(table, trim)| ::
              DataRows(table, trim)[i].rowNumber < DataRows(table, trim)[j].rowNumber
  {
    if |table| > 1 {
      DataRowsAreNumbered(table[..|table| - 1], trim);
    }
  }

  /**
   A file written by any RFC 4180 printer is read as the table it was printed from;
   and of a file that is accepted, a row can be imported exactly when it has no
   errors, and only the first row of a PNR can.
   */
  lemma {:induction false} PrintedFileIsRead(
    lines: seq<Csv.Line>, terminated: bool, columns: Columns, trim: string -> string, read: seq<string> -> Reading,
    normalPnr: string -> string)
    requires Csv.AreLines(lines) && !Csv.StartsWithMark(lines)
    requires !Csv.HasCr(lines) && !Csv.LosesLastRow(lines, terminated)
    requires ReadsPnrs(read, normalPnr)
    ensures var result := FileOf(Csv.Parse(Csv.Print(lines, terminated)), columns, trim, read);
      && result == FileOf(Csv.TableOf(lines), columns, trim, read)
      && (result.FileRows? ==>
            WellParsed(result.rows, normalPnr) && |result.rows| == |DataRows(Csv.TableOf(lines), trim)| > 0)
  {
    Csv.RoundTripIff(lines, terminated);
    var table := Csv.TableOf(lines);
    if FileOf(table, columns, trim, read).FileRows? {
      var data := DataRows(table, trim);
      RowsAreWellParsed(data, columns(table[0], data).value, trim, read, normalPnr);
    }
  }
}
