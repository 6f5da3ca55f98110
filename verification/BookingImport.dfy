/**
 Importing parsed booking rows into a flight: new PNRs are saved, rows that
 match what is saved are skipped, and the rest is kept as failed rows.
 */
module BookingImport {
  import opened Common
  import opened Planner
  import opened BookingRows

  /** How texts are compared; all of them ignore surrounding space. */
  datatype Comparison = Comparison(
    pnr: string -> string,
    text: string -> string,
    email: string -> string,
    country: string -> string,
    notes: Option<string> -> Option<string>)

  predicate MatchesSaved(same: Comparison, row: Booking, saved: Booking) {
    && same.pnr(row.pnr) == same.pnr(saved.pnr)
    && same.text(row.firstName) == same.text(saved.firstName)
    && same.text(row.lastName) == same.text(saved.lastName)
    && same.email(row.email) == same.email(saved.email)
    && same.text(row.phone) == same.text(saved.phone)
    && same.country(row.residency) == same.country(saved.residency)
    && row.travelClass == saved.travelClass
    && row.adults == saved.adults
    && row.children == saved.children
    && row.childAges == saved.childAges
    && same.notes(row.specialNotes) == same.notes(saved.specialNotes)
  }

  datatype FailedRow = FailedRow(rowNumber: nat, pnr: string, values: seq<string>, errors: seq<RowError>)

  /** The two tables of a flight that an import writes. */
  datatype Tables = Tables(bookings: seq<Booking>, failures: seq<FailedRow>)

  // ---- What happens to each row -----------------------------------------------------

  /** The saved booking of a PNR; of several, the last. */
  function SavedBooking(same: Comparison, bookings: seq<Booking>, pnr: string): (r: Option<Booking>)
    ensures r.Some? ==> r.value in bookings && same.pnr(r.value.pnr) == pnr
    ensures r.None? ==> forall i | 0 <= i < |bookings| :: same.pnr(bookings[i].pnr) != pnr
  {
    if bookings == [] then None
    else if same.pnr(bookings[|bookings| - 1].pnr) == pnr then Some(bookings[|bookings| - 1])
    else SavedBooking(same, bookings[..|bookings| - 1], pnr)
  }

  datatype Fate = Imported(booking: Booking) | Skipped | FailedWith(errors: seq<RowError>)

  function FateOf(same: Comparison, bookings: seq<Booking>, row: ParsedRow): Fate {
    if row.booking.None? then FailedWith(row.errors)
    else
      match SavedBooking(same, bookings, row.booking.value.pnr)
      case None => Imported(row.booking.value)
      case Some(saved) =>
        if MatchesSaved(same, row.booking.value, saved) then Skipped else FailedWith(row.errors + [SavedDifferently])
  }

  function NewBookings(same: Comparison, bookings: seq<Booking>, rows: seq<ParsedRow>): seq<Booking> {
    if rows == [] then [] else
      var fate := FateOf(same, bookings, rows[|rows| - 1]);
      NewBookings(same, bookings, rows[..|rows| - 1]) + if fate.Imported? then [fate.booking] else []
  }

  function FailedRows(same: Comparison, bookings: seq<Booking>, rows: seq<ParsedRow>): seq<FailedRow> {
    if rows == [] then [] else
      var row := rows[|rows| - 1];
      var fate := FateOf(same, bookings, row);
      FailedRows(same, bookings, rows[..|rows| - 1])
      + if fate.FailedWith? then [FailedRow(row.rowNumber, row.pnr, row.values, fate.errors)] else []
  }

  function CountSkipped(same: Comparison, bookings: seq<Booking>, rows: seq<ParsedRow>): nat {
    if rows == [] then 0 else
      CountSkipped(same, bookings, rows[..|rows| - 1])
      + if FateOf(same, bookings, rows[|rows| - 1]).Skipped? then 1 else 0
  }

  function FilePnrs(rows: seq<ParsedRow>): set<string> {
    set row | row in rows && row.pnr != "" :: row.pnr
  }

  /** Earlier failed rows that this file does not replace. */
  function KeptFailures(same: Comparison, failures: seq<FailedRow>, pnrs: set<string>): seq<FailedRow> {
    Filter((f: FailedRow) => same.pnr(f.pnr) !in pnrs, failures)
  }

  function Import(same: Comparison, tables: Tables, rows: seq<ParsedRow>): Tables {
    Tables(
      tables.bookings + NewBookings(same, tables.bookings, rows),
      KeptFailures(same, tables.failures, FilePnrs(rows)) + FailedRows(same, tables.bookings, rows))
  }

  datatype Summary = Summary(total: nat, imported: nat, skipped: nat, failed: nat)

  class FlightImports {
    var bookings: seq<Booking>
    var failures: seq<FailedRow>

    ghost function Value(): Tables
      reads this
    {
      Tables(bookings, failures)
    }

    method SaveBookingImport(same: Comparison, replacePnrs: set<string>, newBookings: seq<Booking>, newFailures: seq<FailedRow>)
      modifies this
      ensures bookings == old(bookings) + newBookings
      ensures failures == KeptFailures(same, old(failures), replacePnrs) + newFailures
    {
      failures := KeptFailures(same, failures, replacePnrs) + newFailures;
      bookings := bookings + newBookings;
    }

    method ImportBookings(same: Comparison, rows: seq<ParsedRow>) returns (summary: Summary)
      modifies this
      ensures Value() == Import(same, old(Value()), rows)
      ensures summary == Summary(|rows|, |NewBookings(same, old(bookings), rows)|,
                                 CountSkipped(same, old(bookings), rows), |FailedRows(same, old(bookings), rows)|)
    {
      var valid: seq<Booking> := [];
      var failed: seq<FailedRow> := [];
      var skipped := 0;
      for n := 0 to |rows|
        invariant bookings == old(bookings) && failures == old(failures)
        invariant valid == NewBookings(same, bookings, rows[..n])
        invariant failed == FailedRows(same, bookings, rows[..n])
        invariant skipped == CountSkipped(same, bookings, rows[..n])
      {
        assert rows[..n + 1][..n] == rows[..n];
        var row := rows[n];
        if row.booking.Some? {
          var current := SavedBooking(same, bookings, row.booking.value.pnr);
          if current.Some? && !MatchesSaved(same, row.booking.value, current.value) {
            row := row.(errors := row.errors + [SavedDifferently], booking := None);
          } else if current.Some? {
            skipped := skipped + 1;
          } else {
            valid := valid + [row.booking.value];
          }
        }
        if row.booking.None? {
          failed := failed + [FailedRow(row.rowNumber, row.pnr, row.values, row.errors)];
        }
      }
      assert rows[..|rows|] == rows;
      SaveBookingImport(same, FilePnrs(rows), valid, failed);
      summary := Summary(|rows|, |valid|, skipped, |failed|);
    }
  }

  // ---- Every row has one fate -----------------------------------------------------------

  /** Imported, skipped and failed rows add up to the rows of the file. */
  lemma {:induction false} RowsArePartitioned(same: Comparison, bookings: seq<Booking>, rows: seq<ParsedRow>)
    ensures |NewBookings(same, bookings, rows)| + CountSkipped(same, bookings, rows)
            + |FailedRows(same, bookings, rows)| == |rows|
  {
    if rows != [] {
      RowsArePartitioned(same, bookings, rows[..|rows| - 1]);
    }
  }

  ghost predicate OneBookingPerPnr(same: Comparison, bookings: seq<Booking>) {
    forall i, j | 0 <= i < j < |bookings| :: same.pnr(bookings[i].pnr) != same.pnr(bookings[j].pnr)
  }

  lemma {:induction false} NewBookingsAre(same: Comparison, bookings: seq<Booking>, rows: seq<ParsedRow>, b: Booking)
    ensures b in NewBookings(same, bookings, rows) <==>
            exists i | 0 <= i < |rows| :: FateOf(same, bookings, rows[i]) == Imported(b)
  {
    if rows != [] {
      NewBookingsAre(same, bookings, rows[..|rows| - 1], b);
      assert forall i | 0 <= i < |rows| - 1 :: rows[..|rows| - 1][i] == rows[i];
    }
  }

  lemma {:induction false} NewBookingsAreDistinct(same: Comparison, bookings: seq<Booking>, rows: seq<ParsedRow>)
    requires WellParsed(rows, same.pnr)
    ensures OneBookingPerPnr(same, NewBookings(same, bookings, rows))
    ensures forall b | b in NewBookings(same, bookings, rows) ::
              same.pnr(b.pnr) == b.pnr && SavedBooking(same, bookings, b.pnr).None?
  {
    if rows != [] {
      var front := rows[..|rows| - 1];
      NewBookingsAreDistinct(same, bookings, front);
      var before := NewBookings(same, bookings, front);
      forall i | 0 <= i < |before| && rows[|rows| - 1].booking.Some?
        ensures before[i].pnr != rows[|rows| - 1].pnr
      {
        NewBookingsAre(same, bookings, front, before[i]);
        var k :| 0 <= k < |front| && FateOf(same, bookings, front[k]) == Imported(before[i]);
        assert front[k] == rows[k];
      }
      forall i | 0 <= i < |before|
        ensures same.pnr(before[i].pnr) == before[i].pnr
      {
        assert before[i] in before;
      }
    }
  }

  /** An import never gives a flight two bookings of one PNR. */
  lemma {:induction false} ImportKeepsPnrsUnique(same: Comparison, tables: Tables, rows: seq<ParsedRow>)
    requires OneBookingPerPnr(same, tables.bookings) && WellParsed(rows, same.pnr)
    ensures OneBookingPerPnr(same, Import(same, tables, rows).bookings)
  {
    var added := NewBookings(same, tables.bookings, rows);
    NewBookingsAreDistinct(same, tables.bookings, rows);
    forall i, j | 0 <= i < |tables.bookings| && 0 <= j < |added|
      ensures same.pnr(tables.bookings[i].pnr) != same.pnr(added[j].pnr)
    {
      assert added[j] in added;
    }
  }

  lemma {:induction false} FailedRowsOf(same: Comparison, bookings: seq<Booking>, rows: seq<ParsedRow>, f: FailedRow)
    ensures f in FailedRows(same, bookings, rows) <==>
      exists i | 0 <= i < |rows| ::
        f == FailedRow(rows[i].rowNumber, rows[i].pnr, rows[i].values, f.errors)
        && FateOf(same, bookings, rows[i]) == FailedWith(f.errors)
  {
    if rows != [] {
      FailedRowsOf(same, bookings, rows[..|rows| - 1], f);
      assert forall i | 0 <= i < |rows| - 1 :: rows[..|rows| - 1][i] == rows[i];
    }
  }

  /**
   The failed rows after an import are exactly the failed rows of this file, with
   their errors, and the earlier ones whose PNR the file does not mention.
   */
  lemma {:induction false} FailuresAreReplaced(same: Comparison, tables: Tables, rows: seq<ParsedRow>, f: FailedRow)
    ensures f in Import(same, tables, rows).failures <==>
      || (f in tables.failures && same.pnr(f.pnr) !in FilePnrs(rows))
      || exists i | 0 <= i < |rows| ::
           f == FailedRow(rows[i].rowNumber, rows[i].pnr, rows[i].values, f.errors)
           && FateOf(same, tables.bookings, rows[i]) == FailedWith(f.errors)
  {
    FailedRowsOf(same, tables.bookings, rows, f);
  }

  // ---- What decides a row's fate ---------------------------------------------------------------

  /** Some detail of the row is not what is saved. */
  predicate Differs(same: Comparison, row: Booking, saved: Booking) {
    || same.text(row.firstName) != same.text(saved.firstName) || same.text(row.lastName) != same.text(saved.lastName)
    || same.email(row.email) != same.email(saved.email) || same.text(row.phone) != same.text(saved.phone)
    || same.country(row.residency) != same.country(saved.residency) || row.travelClass != saved.travelClass
    || row.adults != saved.adults || row.children != saved.children || row.childAges != saved.childAges
    || same.notes(row.specialNotes) != same.notes(saved.specialNotes)
  }

  /** Some booking is saved under this PNR. */
  predicate IsSaved(same: Comparison, bookings: seq<Booking>, pnr: string) {
    exists i | 0 <= i < |bookings| :: same.pnr(bookings[i].pnr) == pnr
  }

  /**
   A row with errors fails with them. A valid row is imported if and only if its PNR
   is not saved; otherwise it is skipped if it says what is saved in every detail,
   and fails if it differs in any.
   */
  lemma {:induction false} FateIsDecidedBy(same: Comparison, bookings: seq<Booking>, row: ParsedRow)
    requires OneBookingPerPnr(same, bookings)
    requires row.booking.Some? ==> same.pnr(row.booking.value.pnr) == row.booking.value.pnr
    ensures var fate := FateOf(same, bookings, row);
      && (row.booking.None? ==> fate == FailedWith(row.errors))
      && (row.booking.Some? ==>
            && (fate == Imported(row.booking.value) <==> !IsSaved(same, bookings, row.booking.value.pnr))
            && forall i | 0 <= i < |bookings| && same.pnr(bookings[i].pnr) == row.booking.value.pnr ::
                 fate == if Differs(same, row.booking.value, bookings[i])
                         then FailedWith(row.errors + [SavedDifferently]) else Skipped)
  {
    if row.booking.Some? {
      var b := row.booking.value;
      forall i | 0 <= i < |bookings| && same.pnr(bookings[i].pnr) == b.pnr
        ensures SavedBooking(same, bookings, b.pnr) == Some(bookings[i])
      {
        SavedIsUnique(same, bookings, bookings[i]);
      }
    }
  }

  /** The new bookings are those of the imported rows, in the order of the file. */
  lemma {:induction false} ImportedInOrder(same: Comparison, bookings: seq<Booking>, rows: seq<ParsedRow>, n: nat)
    requires n < |rows|
    ensures var before, after := NewBookings(same, bookings, rows[..n]), NewBookings(same, bookings, rows[..n + 1]);
      var fate := FateOf(same, bookings, rows[n]);
      after == before + if fate.Imported? then [fate.booking] else []
  {
    assert rows[..n + 1][..n] == rows[..n];
  }

  // ---- Importing again ---------------------------------------------------------------------

  lemma {:induction false} SavedBookingAppend(same: Comparison, a: seq<Booking>, b: seq<Booking>, pnr: string)
    ensures SavedBooking(same, a + b, pnr) ==
      if SavedBooking(same, b, pnr).Some? then SavedBooking(same, b, pnr) else SavedBooking(same, a, pnr)
  {
    if b == [] {
      assert a + b == a;
    } else {
      assert (a + b)[..|a + b| - 1] == a + b[..|b| - 1];
      SavedBookingAppend(same, a, b[..|b| - 1], pnr);
    }
  }

  lemma {:induction false} SavedIsUnique(same: Comparison, bookings: seq<Booking>, b: Booking)
    requires OneBookingPerPnr(same, bookings) && b in bookings
    ensures SavedBooking(same, bookings, same.pnr(b.pnr)) == Some(b)
  {
    var i :| 0 <= i < |bookings| && bookings[i] == b;
    var j :| 0 <= j < |bookings| && Some(bookings[j]) == SavedBooking(same, bookings, same.pnr(b.pnr));
  }

  /** Once imported, a row's fate is settled: new bookings are skipped, everything else is as before. */
  lemma {:induction false} FateAfterImport(same: Comparison, bookings: seq<Booking>, rows: seq<ParsedRow>, i: nat)
    requires WellParsed(rows, same.pnr) && i < |rows|
    ensures var after := bookings + NewBookings(same, bookings, rows);
      FateOf(same, after, rows[i]) ==
        if FateOf(same, bookings, rows[i]).Imported? then Skipped else FateOf(same, bookings, rows[i])
  {
    var row, added := rows[i], NewBookings(same, bookings, rows);
    if row.booking.Some? {
      var b := row.booking.value;
      NewBookingsAreDistinct(same, bookings, rows);
      SavedBookingAppend(same, bookings, added, b.pnr);
      if SavedBooking(same, bookings, b.pnr).None? {
        NewBookingsAre(same, bookings, rows, b);
        SavedIsUnique(same, added, b);
      }
    }
  }

  lemma {:induction false} FatesDecide(
    same: Comparison, before: seq<Booking>, after: seq<Booking>, rows: seq<ParsedRow>)
    requires forall i | 0 <= i < |rows| :: FateOf(same, after, rows[i]) ==
               if FateOf(same, before, rows[i]).Imported? then Skipped else FateOf(same, before, rows[i])
    ensures NewBookings(same, after, rows) == []
    ensures FailedRows(same, after, rows) == FailedRows(same, before, rows)
  {
    if rows != [] {
      assert forall i | 0 <= i < |rows| - 1 :: rows[..|rows| - 1][i] == rows[i];
      FatesDecide(same, before, after, rows[..|rows| - 1]);
    }
  }

  /** Uploading the same file again changes no booking, whatever was saved before. */
  lemma {:induction false} ImportingAgainKeepsBookings(same: Comparison, tables: Tables, rows: seq<ParsedRow>)
    requires WellParsed(rows, same.pnr)
    ensures var once := Import(same, tables, rows);
      && Import(same, once, rows).bookings == once.bookings
      && FailedRows(same, once.bookings, rows) == FailedRows(same, tables.bookings, rows)
  {
    var once := Import(same, tables, rows);
    forall i | 0 <= i < |rows|
      ensures FateOf(same, once.bookings, rows[i]) ==
        if FateOf(same, tables.bookings, rows[i]).Imported? then Skipped else FateOf(same, tables.bookings, rows[i])
    {
      FateAfterImport(same, tables.bookings, rows, i);
    }
    FatesDecide(same, tables.bookings, once.bookings, rows);
  }

  predicate EveryRowHasPnr(rows: seq<ParsedRow>) {
    forall i | 0 <= i < |rows| :: rows[i].pnr != ""
  }

  function Nameless(failures: seq<FailedRow>): seq<FailedRow> {
    Filter((f: FailedRow) => f.pnr == "", failures)
  }

  lemma {:induction false} FilterAppend(a: seq<FailedRow>, b: seq<FailedRow>, keep: FailedRow -> bool)
    ensures Filter(keep, a + b) == Filter(keep, a) + Filter(keep, b)
  {
    if a == [] {
      assert a + b == b;
    } else {
      assert (a + b)[1..] == a[1..] + b;
      FilterAppend(a[1..], b, keep);
    }
  }

  lemma {:induction false} FilterSame(xs: seq<FailedRow>, f: FailedRow -> bool, g: FailedRow -> bool)
    requires forall x | x in xs :: f(x) == g(x)
    ensures Filter(f, xs) == Filter(g, xs)
  {
    if xs != [] { FilterSame(xs[1..], f, g); }
  }

  lemma {:induction false} FilterIdem(xs: seq<FailedRow>, f: FailedRow -> bool)
    ensures Filter(f, Filter(f, xs)) == Filter(f, xs)
  {
    if xs != [] { FilterIdem(xs[1..], f); }
  }

  lemma {:induction false} FailedRowsAre(same: Comparison, bookings: seq<Booking>, rows: seq<ParsedRow>, f: FailedRow)
    requires WellParsed(rows, same.pnr) && f in FailedRows(same, bookings, rows)
    ensures same.pnr(f.pnr) == f.pnr && exists i | 0 <= i < |rows| :: rows[i].pnr == f.pnr
  {
    var front := rows[..|rows| - 1];
    if f in FailedRows(same, bookings, front) {
      FailedRowsAre(same, bookings, front, f);
      var i :| 0 <= i < |front| && front[i].pnr == f.pnr;
      assert rows[i].pnr == f.pnr;
    } else {
      assert rows[|rows| - 1].pnr == f.pnr;
    }
  }

  /** Of a file's own failed rows, the same file uploaded again replaces exactly those with a PNR. */
  lemma {:induction false} OwnFailuresReplaced(same: Comparison, bookings: seq<Booking>, rows: seq<ParsedRow>)
    requires WellParsed(rows, same.pnr)
    ensures KeptFailures(same, FailedRows(same, bookings, rows), FilePnrs(rows))
         == Nameless(FailedRows(same, bookings, rows))
  {
    var failed := FailedRows(same, bookings, rows);
    forall f | f in failed
      ensures same.pnr(f.pnr) !in FilePnrs(rows) <==> f.pnr == ""
    {
      FailedRowsAre(same, bookings, rows, f);
      var i :| 0 <= i < |rows| && rows[i].pnr == f.pnr;
      assert rows[i] in rows;
    }
    FilterSame(failed, (f: FailedRow) => same.pnr(f.pnr) !in FilePnrs(rows), (f: FailedRow) => f.pnr == "");
  }

  lemma {:induction false} NamelessIff(same: Comparison, bookings: seq<Booking>, rows: seq<ParsedRow>)
    requires WellParsed(rows, same.pnr)
    ensures Nameless(FailedRows(same, bookings, rows)) == [] <==> EveryRowHasPnr(rows)
  {
    if rows != [] {
      var front, row := rows[..|rows| - 1], rows[|rows| - 1];
      NamelessIff(same, bookings, front);
      var before, all := FailedRows(same, bookings, front), FailedRows(same, bookings, rows);
      FilterAppend(before, all[|before|..], (f: FailedRow) => f.pnr == "");
      assert all == before + all[|before|..];
      assert rows == front + [row];
    }
  }

  /**
   Uploading the same file again keeps the failed rows as they are, except that
   failed rows without a PNR are added once more. So the second upload changes
   nothing at all exactly when every row of the file has a PNR.
   */
  lemma {:induction false} ImportingAgainAddsNamelessFailures(same: Comparison, tables: Tables, rows: seq<ParsedRow>)
    requires WellParsed(rows, same.pnr)
    ensures var once := Import(same, tables, rows);
      var nameless := Nameless(FailedRows(same, tables.bookings, rows));
      && |Import(same, once, rows).failures| == |once.failures| + |nameless|
      && (Import(same, once, rows) == once <==> EveryRowHasPnr(rows))
  {
    NamelessIff(same, tables.bookings, rows);
    ImportingAgainKeepsBookings(same, tables, rows);
    OwnFailuresReplaced(same, tables.bookings, rows);
    var pnrs, failed := FilePnrs(rows), FailedRows(same, tables.bookings, rows);
    var kept := KeptFailures(same, tables.failures, pnrs);
    FilterAppend(kept, failed, (f: FailedRow) => same.pnr(f.pnr) !in pnrs);
    FilterIdem(tables.failures, (f: FailedRow) => same.pnr(f.pnr) !in pnrs);
    var once := Import(same, tables, rows);
    assert KeptFailures(same, once.failures, pnrs) == kept + Nameless(failed);
    if Nameless(failed) == [] {
      assert kept + [] == kept;
    }
  }
}
