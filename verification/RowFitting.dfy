/**
 What fitting a row to the header does to its values, told from the row itself:
 what is cut, where ages and notes end up, and that no value of the tail is lost.
 */
module RowFitting {
  import opened Common
  import opened Planner
  import opened BookingRows

  // ---- Numbers and commas ---------------------------------------------------------------

  const DIGITS: string := "0123456789"

  /** A whole number is one digit, or a whole number and one more digit, which is worth ten times the rest and itself. */
  lemma {:induction false} WholeNumbersAre(s: string, c: char)
    ensures !IsWhole("")
    ensures IsWhole(s + [c]) <==> c in DIGITS && (s == "" || IsWhole(s))
    ensures forall d | 0 <= d < 10 && DIGITS[d] == c && IsWhole(s + [c]) ::
              WholeValue(s + [c]) == d + if s == "" then 0 else 10 * WholeValue(s)
  {
    var more := s + [c];
    assert more[..|s|] == s && more[|s|] == c;
    assert forall i | 0 <= i < |s| :: more[i] == s[i];
    assert c in DIGITS <==> '0' <= c <= '9' by {
      if '0' <= c <= '9' { assert DIGITS[c as int - '0' as int] == c; }
    }
  }

  predicate NoComma(s: string) {
    forall i | 0 <= i < |s| :: s[i] != ','
  }

  lemma {:induction false} SplitHasNoCommas(s: string)
    ensures forall i | 0 <= i < |Split(s)| :: NoComma(Split(s)[i])
    ensures NoComma(s) ==> Split(s) == [s]
  {
    if s != "" {
      SplitHasNoCommas(s[1..]);
      assert s == [s[0]] + s[1..];
      assert NoComma(s) ==> NoComma(s[1..]) && s[0] != ',';
    }
  }

  lemma {:induction false} JoinLast(parts: seq<string>, last: string, separator: string)
    requires parts != []
    ensures Join(parts + [last], separator) == Join(parts, separator) + separator + last
  {
    assert (parts + [last])[..|parts|] == parts;
  }

  /** Splitting text that was joined by commas gives the parts back. */
  lemma {:induction false} SplitOfJoin(parts: seq<string>)
    requires parts != [] && forall i | 0 <= i < |parts| :: NoComma(parts[i])
    ensures Split(Join(parts, ",")) == parts
  {
    var front, last := parts[..|parts| - 1], parts[|parts| - 1];
    SplitHasNoCommas(last);
    if front != [] {
      SplitOfJoin(front);
      SplitJoined(Join(front, ","), last);
      assert Join(front, ",") + "," + last == Join(front, ",") + ("," + last);
      assert front + [last] == parts;
    } else {
      assert parts == [last];
    }
  }

  // ---- Blank parts ---------------------------------------------------------------------------

  predicate HasNoBlank(parts: seq<string>) {
    forall i | 0 <= i < |parts| :: parts[i] != ""
  }

  lemma {:induction false} NonBlankAppend(a: seq<string>, b: seq<string>)
    ensures NonBlank(a + b) == NonBlank(a) + NonBlank(b)
  {
    if b == [] {
      assert a + b == a;
    } else {
      NonBlankAppend(a, b[..|b| - 1]);
      assert (a + b)[..|a + b| - 1] == a + b[..|b| - 1];
    }
  }

  lemma {:induction false} NonBlankOne(part: string)
    ensures NonBlank([part]) == if part == "" then [] else [part]
  {
    assert [part][..0] == [];
    assert NonBlank([]) == [];
  }

  /** The non-blank parts, in their order, each as often as before. */
  lemma {:induction false} NonBlankIs(parts: seq<string>)
    ensures HasNoBlank(NonBlank(parts))
    ensures HasNoBlank(parts) ==> NonBlank(parts) == parts
    ensures forall part | part != "" :: multiset(NonBlank(parts))[part] == multiset(parts)[part]
    ensures forall part :: part in NonBlank(parts) <==> part in parts && part != ""
  {
    if parts != [] {
      var front, last := parts[..|parts| - 1], parts[|parts| - 1];
      NonBlankIs(front);
      assert parts == front + [last];
      assert HasNoBlank(parts) ==> HasNoBlank(front) && last != "";
    }
  }

  // ---- Values are not lost -----------------------------------------------------------------------

  /** Trimming takes spaces off both ends: once is enough, a leading space does not matter, commas stay out. */
  ghost predicate IsTrim(trim: string -> string) {
    trim("") == "" && forall s: string :: TrimsAs(trim, s)
  }

  predicate TrimsAs(trim: string -> string, s: string) {
    trim(trim(s)) == trim(s) && trim(" " + s) == trim(s) && (NoComma(s) ==> NoComma(trim(s)))
  }

  ghost predicate Trimmed(parts: seq<string>, trim: string -> string) {
    forall i | 0 <= i < |parts| :: NoComma(parts[i]) && trim(parts[i]) == parts[i]
  }

  lemma {:induction false} TrimmedStays(parts: seq<string>, trim: string -> string)
    requires Trimmed(parts, trim)
    ensures TrimAll(parts, trim) == parts
  {
  }

  lemma {:induction false} NonBlankTrimmed(parts: seq<string>, trim: string -> string)
    requires Trimmed(parts, trim)
    ensures Trimmed(NonBlank(parts), trim)
  {
    NonBlankIs(parts);
    forall i | 0 <= i < |NonBlank(parts)|
      ensures NoComma(NonBlank(parts)[i]) && trim(NonBlank(parts)[i]) == NonBlank(parts)[i]
    {
      assert NonBlank(parts)[i] in parts;
    }
  }

  lemma {:induction false} JoinNote(front: seq<string>, last: string)
    requires front != []
    ensures Join(front + [last], ", ") == Join(front, ", ") + ("," + (" " + last))
  {
    JoinLast(front, last, ", ");
    var text := Join(front, ", ");
    assert text + ", " + last == text + ("," + (" " + last));
  }

  predicate ReadsBack(parts: seq<string>, trim: string -> string) {
    TrimAll(Split(Join(parts, ", ")), trim) == parts
  }

  lemma {:induction false} ReadBackNote(front: seq<string>, last: string, trim: string -> string)
    requires IsTrim(trim) && front != [] && NoComma(last) && trim(last) == last
    requires ReadsBack(front, trim)
    ensures ReadsBack(front + [last], trim)
  {
    var text := Join(front, ", ");
    JoinNote(front, last);
    SplitJoined(text, " " + last);
    SplitHasNoCommas(" " + last);
    TrimAppend(Split(text), [" " + last], trim);
    assert TrimsAs(trim, last);
    assert TrimAll([" " + last], trim) == [trim(" " + last)];
  }

  lemma {:induction false} ReadBackOne(part: string, trim: string -> string)
    requires NoComma(part) && trim(part) == part
    ensures ReadsBack([part], trim)
  {
    SplitHasNoCommas(part);
    assert TrimAll([part], trim) == [trim(part)];
  }

  /** Reading back text joined with commas and spaces gives the parts. */
  lemma {:induction false} ReadBackNotes(parts: seq<string>, n: nat, trim: string -> string)
    requires IsTrim(trim) && Trimmed(parts, trim) && 0 < n <= |parts|
    ensures ReadsBack(parts[..n], trim)
  {
    if n == 1 {
      assert parts[..1] == [parts[0]];
      ReadBackOne(parts[0], trim);
    } else {
      ReadBackNotes(parts, n - 1, trim);
      var front, last := parts[..n - 1], parts[n - 1];
      assert parts[..n] == front + [last];
      ReadBackNote(front, last, trim);
    }
  }

  /** The non-blank values of one cell. */
  function ValuesOf(cell: string, trim: string -> string): seq<string> {
    NonBlank(TrimAll(Split(cell), trim))
  }

  lemma {:induction false} CellValues(parts: seq<string>, trim: string -> string)
    requires IsTrim(trim) && Trimmed(parts, trim)
    ensures ValuesOf(Join(NonBlank(parts), ","), trim) == NonBlank(parts)
    ensures ValuesOf(Join(NonBlank(parts), ", "), trim) == NonBlank(parts)
  {
    NonBlankTrimmed(parts, trim);
    NonBlankIs(parts);
    NonBlankIs(NonBlank(parts));
    var values := NonBlank(parts);
    if values == [] {
      SplitHasNoCommas("");
      assert TrimAll([""], trim) == [""];
      NonBlankOne("");
    } else {
      SplitOfJoin(values);
      TrimmedStays(values, trim);
      ReadBackNotes(values, |values|, trim);
      assert values[..|values|] == values;
    }
  }

  lemma {:induction false} PartsAreTrimmed(cell: string, trim: string -> string)
    requires IsTrim(trim)
    ensures Trimmed(TrimAll(Split(cell), trim), trim)
  {
    SplitHasNoCommas(cell);
    forall i | 0 <= i < |Split(cell)| ensures TrimsAs(trim, Split(cell)[i]) {
    }
  }

  lemma {:induction false} TailIsTrimmed(tail: seq<string>, trim: string -> string)
    requires IsTrim(trim)
    ensures Trimmed(TailParts(tail, trim), trim)
  {
    if tail != [] {
      PartsAreTrimmed(tail[0], trim);
      TailIsTrimmed(tail[1..], trim);
    }
  }

  /** The values from a column on, cell by cell. */
  function ValuesFrom(cells: seq<string>, trim: string -> string): seq<string> {
    if cells == [] then [] else ValuesOf(cells[0], trim) + ValuesFrom(cells[1..], trim)
  }

  lemma {:induction false} ValuesAreParts(tail: seq<string>, trim: string -> string)
    ensures ValuesFrom(tail, trim) == NonBlank(TailParts(tail, trim))
  {
    if tail != [] {
      ValuesAreParts(tail[1..], trim);
      NonBlankAppend(TrimAll(Split(tail[0]), trim), TailParts(tail[1..], trim));
    }
  }

  // ---- A fitted row -------------------------------------------------------------------------------------

  /** The last two columns are Child Ages and Special Notes, and Children is a whole number. */
  predicate ReadsTail(row: seq<string>, layout: Layout, trim: string -> string) {
    && layout.headerLength >= 2
    && layout.agesAt.Some? && layout.agesAt.value == layout.headerLength - 2
    && layout.notesAt.Some? && layout.notesAt.value == layout.headerLength - 1
    && IsWhole(trim(if layout.childrenAt < |row| then row[layout.childrenAt] else ""))
  }

  /** Ages are at most `children` numbers, or one when there are none; the first note is no age, unless that many were read. */
  predicate AgesFirst(ages: seq<string>, notes: seq<string>, parts: seq<string>, children: nat) {
    exists k: nat | k <= |parts| ::
      && k <= (if children == 0 then 1 else children)
      && ages == NonBlank(parts[..k]) && notes == NonBlank(parts[k..])
      && (forall i | 0 <= i < k :: parts[i] == "" || IsWhole(parts[i]))
      && (k < |parts| && k < (if children == 0 then 1 else children) ==> parts[k] != "" && !IsWhole(parts[k]))
  }

  /**
   A row whose tail is read: the cells before Child Ages stay, the Child Ages cell
   holds the leading ages and the Special Notes cell the rest, and reading those two
   cells gives exactly the values the tail had, in their order.
   */
  lemma {:induction false} TailIsKept(row: seq<string>, layout: Layout, trim: string -> string)
    requires IsTrim(trim) && ReadsTail(row, layout, trim)
    ensures var fitted, at := FitRow(row, layout, trim), Min(layout.headerLength - 2, |row|);
      && !fitted.tooLong && |fitted.cells| == at + 2 && fitted.cells[..at] == row[..at]
      && ValuesOf(fitted.cells[at], trim) + ValuesOf(fitted.cells[at + 1], trim) == ValuesFrom(row[at..], trim)
      && AgesFirst(ValuesOf(fitted.cells[at], trim), ValuesOf(fitted.cells[at + 1], trim),
           TailParts(row[at..], trim), WholeValue(trim(row[layout.childrenAt])))
  {
    var at := Min(layout.headerLength - 2, |row|);
    ChildrenCell(row, layout, trim);
    var children := trim(row[layout.childrenAt]);
    TailFits(row, layout, trim, at, children);
    TailIsTrimmed(row[at..], trim);
    TailCells(row[..at], TailParts(row[at..], trim), WholeValue(children), trim);
    ValuesAreParts(row[at..], trim);
  }

  /** The two cells of a fitted tail. */
  lemma {:induction false} TailCells(head: seq<string>, parts: seq<string>, children: nat, trim: string -> string)
    requires IsTrim(trim) && Trimmed(parts, trim)
    ensures var cells := FitTail(head, parts, children);
      && |cells| == |head| + 2 && cells[..|head|] == head
      && ValuesOf(cells[|head|], trim) + ValuesOf(cells[|head| + 1], trim) == NonBlank(parts)
      && AgesFirst(ValuesOf(cells[|head|], trim), ValuesOf(cells[|head| + 1], trim), parts, children)
  {
    var k := LeadingAges(parts, Max(children, 1));
    CellsAre(head, parts, children, k);
    TwoCells(parts, k, trim);
    PartsOfTwo(parts, k);
    AgesComeFirst(parts, children, k);
  }

  lemma {:induction false} PartsOfTwo(parts: seq<string>, k: nat)
    requires k <= |parts|
    ensures NonBlank(parts[..k]) + NonBlank(parts[k..]) == NonBlank(parts)
  {
    assert parts[..k] + parts[k..] == parts;
    NonBlankAppend(parts[..k], parts[k..]);
  }

  lemma {:induction false} ChildrenCell(row: seq<string>, layout: Layout, trim: string -> string)
    requires IsTrim(trim) && ReadsTail(row, layout, trim)
    ensures layout.childrenAt < |row| && IsWhole(trim(row[layout.childrenAt]))
  {
    assert trim("") == "" && !IsWhole("");
  }

  lemma {:induction false} CellsAre(head: seq<string>, parts: seq<string>, children: nat, k: nat)
    requires k == LeadingAges(parts, Max(children, 1))
    ensures var cells, at := FitTail(head, parts, children), |head|;
      && |cells| == at + 2 && cells[..at] == head
      && cells[at] == Join(NonBlank(parts[..k]), ",") && cells[at + 1] == Join(NonBlank(parts[k..]), ", ")
  {
  }

  lemma {:induction false} TailFits(row: seq<string>, layout: Layout, trim: string -> string, at: nat, children: string)
    requires AgesThenNotes(layout) && at == Min(layout.headerLength - 2, |row|)
    requires children == trim(CellAt(row, layout.childrenAt)) && IsWhole(children)
    ensures FitRow(row, layout, trim) == Fitted(FitTail(row[..at], TailParts(row[at..], trim), WholeValue(children)), false)
  {
  }

  lemma {:induction false} AgesComeFirst(parts: seq<string>, children: nat, k: nat)
    requires k == LeadingAges(parts, Max(children, 1))
    ensures AgesFirst(NonBlank(parts[..k]), NonBlank(parts[k..]), parts, children)
  {
    assert Max(children, 1) == if children == 0 then 1 else children;
  }

  lemma {:induction false} TwoCells(parts: seq<string>, k: nat, trim: string -> string)
    requires IsTrim(trim) && Trimmed(parts, trim) && k <= |parts|
    ensures ValuesOf(Join(NonBlank(parts[..k]), ","), trim) == NonBlank(parts[..k])
    ensures ValuesOf(Join(NonBlank(parts[k..]), ", "), trim) == NonBlank(parts[k..])
  {
    assert Trimmed(parts[..k], trim) && Trimmed(parts[k..], trim);
    CellValues(parts[..k], trim);
    CellValues(parts[k..], trim);
  }

  lemma {:induction false} CutIs(row: seq<string>, length: nat, trim: string -> string)
    ensures CutRow(row, length, trim)
         == Fitted(row[..Min(length, |row|)], exists i | length <= i < |row| :: trim(row[i]) != "")
  {
    if |row| > length && trim(row[|row| - 1]) == "" {
      var front := row[..|row| - 1];
      CutIs(front, length, trim);
      assert front[..Min(length, |front|)] == row[..Min(length, |row|)];
      assert forall i | length <= i < |front| :: front[i] == row[i];
    }
  }

  /** Any other row is cut at the header, and is too long exactly if a value beyond it is not blank. */
  lemma {:induction false} OtherRowsAreCut(row: seq<string>, layout: Layout, trim: string -> string)
    requires !ReadsTail(row, layout, trim)
    ensures FitRow(row, layout, trim)
         == Fitted(row[..Min(layout.headerLength, |row|)],
                   exists i | layout.headerLength <= i < |row| :: trim(row[i]) != "")
  {
    CutIs(row, layout.headerLength, trim);
  }

  // ---- Errors of a row ----------------------------------------------------------------------------------------

  /** The row before `i` that first has its PNR. */
  predicate IsFirstOfPnr(parsed: seq<ParsedRow>, i: nat, first: nat)
    requires i < |parsed|
  {
    first < i && parsed[first].pnr == parsed[i].pnr && forall j | 0 <= j < first :: parsed[j].pnr != parsed[i].pnr
  }

  lemma {:induction false} FirstRowOfIs(rows: seq<ParsedRow>, pnr: string, first: nat)
    requires first < |rows| && rows[first].pnr == pnr && forall j | 0 <= j < first :: rows[j].pnr != pnr
    ensures FirstRowOf(rows, pnr) == Some(rows[first].rowNumber)
  {
    if first > 0 {
      assert forall j | 0 <= j < |rows| - 1 :: rows[1..][j] == rows[j + 1];
      FirstRowOfIs(rows[1..], pnr, first - 1);
    }
  }

  lemma {:induction false} ParsedLast(rows: seq<DataRow>, layout: Layout, trim: string -> string, read: seq<string> -> Reading)
    requires rows != []
    ensures var n, parsed := |rows| - 1, ParseRows(rows, layout, trim, read);
      && parsed[..n] == ParseRows(rows[..n], layout, trim, read)
      && parsed[n] == WithoutDuplicate(ReadRow(rows[n], layout, trim, read), parsed[..n])
  {
  }

  lemma {:induction false} ParsePrefix(rows: seq<DataRow>, layout: Layout, trim: string -> string, read: seq<string> -> Reading, i: nat)
    requires i <= |rows|
    ensures ParseRows(rows, layout, trim, read)[..i] == ParseRows(rows[..i], layout, trim, read)
    decreases |rows|
  {
    if i == |rows| {
      assert rows[..i] == rows;
    } else {
      var n := |rows| - 1;
      ParsedLast(rows, layout, trim, read);
      ParsePrefix(rows[..n], layout, trim, read, i);
      assert rows[..n][..i] == rows[..i];
      SlicesAgree(ParseRows(rows, layout, trim, read), n, i);
    }
  }

  lemma {:induction false} ParsedAt(rows: seq<DataRow>, layout: Layout, trim: string -> string, read: seq<string> -> Reading, i: nat)
    requires i < |rows|
    ensures var parsed := ParseRows(rows, layout, trim, read);
      parsed[i] == WithoutDuplicate(ReadRow(rows[i], layout, trim, read), parsed[..i])
  {
    var parsed, upTo := ParseRows(rows, layout, trim, read), rows[..i + 1];
    ParsePrefix(rows, layout, trim, read, i + 1);
    ParsedLast(upTo, layout, trim, read);
    assert parsed[..i + 1][..i] == parsed[..i] && parsed[..i + 1][i] == parsed[i];
  }

  lemma {:induction false} SlicesAgree(parsed: seq<ParsedRow>, n: nat, i: nat)
    requires i <= n <= |parsed|
    ensures parsed[..n][..i] == parsed[..i]
  {
  }

  /**
   Each row keeps its number, PNR and values. Its errors are, in this order: that its
   PNR was used before, with the first row that did; that it is too long; and what
   its values say. Without errors it has the booking its values stand for.
   */
  lemma {:induction false} RowSays(
    rows: seq<DataRow>, layout: Layout, trim: string -> string, read: seq<string> -> Reading, i: nat)
    requires i < |rows|
    ensures var parsed, fitted := ParseRows(rows, layout, trim, read), FitRow(rows[i].cells, layout, trim);
      var r := read(fitted.cells);
      var own := (if fitted.tooLong then [RowTooLong] else []) + r.problems;
      && parsed[i].rowNumber == rows[i].rowNumber && parsed[i].pnr == r.pnr && parsed[i].values == r.values
      && ((r.pnr == "" || forall j | 0 <= j < i :: parsed[j].pnr != r.pnr) ==>
            parsed[i].errors == own && parsed[i].booking == if own == [] then Some(r.booking) else None)
      && (forall first: nat | r.pnr != "" && IsFirstOfPnr(parsed, i, first) ::
            parsed[i].errors == [DuplicatePnr(parsed[first].rowNumber)] + own && parsed[i].booking == None)
  {
    var parsed := ParseRows(rows, layout, trim, read);
    var row := ReadRow(rows[i], layout, trim, read);
    ParsedAt(rows, layout, trim, read, i);
    NotFoundMeansAbsent(parsed[..i], row.pnr);
    forall first: nat | row.pnr != "" && IsFirstOfPnr(parsed, i, first)
      ensures parsed[i].errors == [DuplicatePnr(parsed[first].rowNumber)] + row.errors && parsed[i].booking == None
    {
      FirstRowOfIs(parsed[..i], row.pnr, first);
    }
  }

  // ---- The whole file ------------------------------------------------------------------------------------------------

  predicate SaysNothing(row: seq<string>, trim: string -> string) {
    forall i | 0 <= i < |row| :: trim(row[i]) == ""
  }

  lemma {:induction false} BlankIff(row: seq<string>, trim: string -> string)
    ensures IsBlankRow(row, trim) <==> SaysNothing(row, trim)
  {
    forall i | 0 <= i < |row| ensures row[i] in row {
    }
  }

  /**
   A file is refused as empty exactly if it has no header that says anything, for its
   columns exactly if those are refused, and as without data exactly if no row below
   the header says anything.
   */
  lemma {:induction false} FileIsRefusedIff(
    table: seq<seq<string>>, columns: Columns, trim: string -> string, read: seq<string> -> Reading)
    ensures var result := FileOf(table, columns, trim, read);
      var header := table != [] && !SaysNothing(table[0], trim);
      && (result == EmptyFile <==> !header)
      && (result == BadColumns <==> header && columns(table[0], DataRows(table, trim)).None?)
      && (result == NoDataRows <==>
            && header && columns(table[0], DataRows(table, trim)).Some?
            && forall n | 1 <= n < |table| :: SaysNothing(table[n], trim))
      && (result.FileRows? ==>
            result.rows == ParseRows(DataRows(table, trim), columns(table[0], DataRows(table, trim)).value, trim, read))
  {
    if table != [] {
      BlankIff(table[0], trim);
    }
    forall n | 1 <= n < |table|
      ensures DataRow(table[n], n + 1) in DataRows(table, trim) <==> !SaysNothing(table[n], trim)
    {
      BlankIff(table[n], trim);
      DataRowsAre(table, trim, DataRow(table[n], n + 1));
    }
    if DataRows(table, trim) != [] {
      var row := DataRows(table, trim)[0];
      DataRowsAre(table, trim, row);
      BlankIff(row.cells, trim);
    }
  }
}
