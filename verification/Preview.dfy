/**
 The preview of an allocation run: which ranked hotel each PNR would get if every
 booking succeeded, and how a real run relates to it.
 */
module Preview {
  import opened Common
  import opened Rooms
  import opened Ledger
  import opened Planner
  import opened RateSelection
  import opened CandidatePlanning
  import opened AllocationRun
  import opened AllocationTheorems

  // ---- The preview loop -------------------------------------------------------------

  function TakeFirst(candidates: seq<Candidate>, stock: Stock): (Option<Choice>, Stock) {
    var first := FirstSelectable(candidates, 0, {}, stock, {});
    (first, if first.Some? then Claim(Books(stock, []), PickItems(first.value.picks)).remaining else stock)
  }

  /** `n` allocations one after another, and the rooms left after them. */
  function Repeat(next: Stock -> (Option<Choice>, Stock), stock: Stock, n: nat): (r: (seq<Option<Choice>>, Stock))
    ensures |r.0| == n
  {
    if n == 0 then ([], stock) else
      var (before, left) := Repeat(next, stock, n - 1);
      (before + [next(left).0], next(left).1)
  }

  /** The first `n` allocations, and the rooms left after them. */
  function Allocations(candidates: seq<Candidate>, stock: Stock, n: nat): (r: (seq<Option<Choice>>, Stock))
    ensures |r.0| == n
  {
    Repeat(left => TakeFirst(candidates, left), stock, n)
  }

  /** Allotments of all offered rates; a rate listed twice keeps its last allotment. */
  function OptionStock(candidates: seq<Candidate>): Stock {
    if candidates == [] then map[] else
      OptionStock(candidates[..|candidates| - 1]) + SnapshotStock(candidates[|candidates| - 1].rooms)
  }

  method PreviewOne(candidates: seq<Candidate>, ledger: AllotmentLedger) returns (allocation: Option<Choice>)
    requires ledger.Valid()
    modifies ledger
    ensures ledger.Valid() && (allocation, ledger.remaining) == TakeFirst(candidates, old(ledger.remaining))
  {
    for n := 0 to |candidates|
      invariant ledger.Valid() && ledger.remaining == old(ledger.remaining)
      invariant FirstSelectable(candidates, 0, {}, ledger.remaining, {})
             == FirstSelectable(candidates, n, {}, ledger.remaining, {})
    {
      var picks := SelectCandidateRates(candidates[n], ledger, {});
      if picks.Some? {
        SelectionCanBeClaimed(candidates[n].rooms, ledger.remaining, {});
        var claim := ledger.TryClaim(PickItems(picks.value));
        if claim != null {
          return Some(Choice(n, picks.value));
        }
      }
    }
    allocation := None;
  }

  method PreviewAllocations(candidates: seq<Candidate>, pnrs: nat) returns (allocations: seq<Option<Choice>>)
    ensures allocations == Allocations(candidates, OptionStock(candidates), pnrs).0
  {
    var ledger := new AllotmentLedger(OptionStock(candidates));
    assert ledger.remaining == OptionStock(candidates);
    allocations := [];
    for i := 0 to pnrs
      invariant ledger.Valid() && fresh(ledger)
      invariant (allocations, ledger.remaining) == Allocations(candidates, OptionStock(candidates), i)
    {
      var allocation := PreviewOne(candidates, ledger);
      allocations := allocations + [allocation];
    }
  }

  // ---- A real run follows the preview ---------------------------------------------------

  predicate SameForAll(start: Run, candidates: seq<Candidate>, stock: Stock) {
    && Fresh(start, stock) && start.shared.restricted == {}
    && forall p | p in start.workers ::
         start.workers[p].candidates == candidates && start.workers[p].excluded == {}
         && start.workers[p].failures < start.workers[p].maxAttempts
  }

  predicate AllConfirmed(steps: seq<Step>) {
    forall i | 0 <= i < |steps| && steps[i].Return? :: steps[i].answer == AnsweredConfirmed
  }

  function BusyPnrs(workers: map<PnrId, Worker>): set<PnrId> {
    set p | p in workers && Busy(workers[p])
  }

  lemma {:induction false} BusyAfter(workers: map<PnrId, Worker>, p: PnrId, w: Worker)
    requires p in workers && !Busy(workers[p])
    ensures BusyPnrs(workers[p := w]) == BusyPnrs(workers) + if Busy(w) then {p} else {}
    ensures |BusyPnrs(workers[p := w])| == |BusyPnrs(workers)| + if Busy(w) then 1 else 0
  {
    assert BusyPnrs(workers[p := w]) == BusyPnrs(workers) + if Busy(w) then {p} else {};
  }

  predicate StageFollows(stage: Stage, candidates: seq<Candidate>, stock: Stock, tries: nat) {
    match stage
    case Ready => true
    case Attempting(c, choice) => true
    case Ended(end) =>
      end == Booked || (end == NoRoomsLeft && TakeFirst(candidates, Allocations(candidates, stock, tries).1).0.None?)
  }

  predicate ClaimsFollow(shared: Shared, tries: seq<Try>, candidates: seq<Candidate>, stock: Stock) {
    && shared.restricted == {}
    && (Choices(tries), shared.books.remaining) == Allocations(candidates, stock, |tries|)
  }

  function Choices(tries: seq<Try>): seq<Option<Choice>> {
    seq(|tries|, c requires 0 <= c < |tries| => Some(tries[c].choice))
  }

  predicate WorkersFollow(run: Run, start: Run, candidates: seq<Candidate>, stock: Stock) {
    && run.workers.Keys == start.workers.Keys
    && forall p | p in run.workers ::
         && run.workers[p] == start.workers[p].(stage := run.workers[p].stage)
         && StageFollows(run.workers[p].stage, candidates, stock, |run.tries|)
  }

  predicate Follows(run: Run, start: Run, candidates: seq<Candidate>, stock: Stock) {
    && ClaimsFollow(run.shared, run.tries, candidates, stock)
    && |run.tries| == |BusyPnrs(run.workers)|
    && WorkersFollow(run, start, candidates, stock)
  }

  lemma {:induction false} TurnTakesFirst(run: Run, candidates: seq<Candidate>, p: PnrId)
    requires AtTurn(run, p) && run.shared.restricted == {}
    requires run.workers[p].candidates == candidates && run.workers[p].excluded == {}
    requires run.workers[p].failures < run.workers[p].maxAttempts
    ensures var (first, left) := TakeFirst(candidates, run.shared.books.remaining);
      var after := TakeTurn(run, p);
      && after.shared.restricted == {} && after.shared.books.remaining == left
      && (first.None? ==> after == run.(workers := run.workers[p := run.workers[p].(stage := Ended(NoRoomsLeft))]))
      && (first.Some? ==>
            && after.tries == run.tries + [Try(p, first.value)]
            && exists c: nat :: after.workers == run.workers[p := run.workers[p].(stage := Attempting(c, first.value))])
  {
    TurnClaims(run.shared, run.workers[p]);
    var first := TakeFirst(candidates, run.shared.books.remaining).0;
    if first.Some? {
      assert TakeTurn(run, p).workers
          == run.workers[p := run.workers[p].(stage := Attempting(|run.shared.books.claims|, first.value))];
    }
  }

  lemma {:induction false} TryFollows(before: Shared, after: Shared, tries: seq<Try>, t: Try, candidates: seq<Candidate>, stock: Stock)
    requires ClaimsFollow(before, tries, candidates, stock) && after.restricted == {}
    requires (Some(t.choice), after.books.remaining) == TakeFirst(candidates, before.books.remaining)
    ensures ClaimsFollow(after, tries + [t], candidates, stock)
  {
    assert Choices(tries + [t]) == Choices(tries) + [Some(t.choice)];
  }

  lemma {:induction false} TurnKeepsCount(run: Run, candidates: seq<Candidate>, p: PnrId)
    requires AtTurn(run, p) && run.shared.restricted == {} && |run.tries| == |BusyPnrs(run.workers)|
    requires run.workers[p].candidates == candidates && run.workers[p].excluded == {}
    requires run.workers[p].failures < run.workers[p].maxAttempts
    ensures |TakeTurn(run, p).tries| == |BusyPnrs(TakeTurn(run, p).workers)|
  {
    TurnTakesFirst(run, candidates, p);
    BusyAfter(run.workers, p, TakeTurn(run, p).workers[p]);
  }

  lemma {:induction false} TurnKeepsWorkers(run: Run, start: Run, candidates: seq<Candidate>, stock: Stock, p: PnrId)
    requires SameForAll(start, candidates, stock) && Follows(run, start, candidates, stock) && AtTurn(run, p)
    ensures WorkersFollow(TakeTurn(run, p), start, candidates, stock)
  {
    var after := TakeTurn(run, p);
    TurnTakesFirst(run, candidates, p);
    var first := TakeFirst(candidates, run.shared.books.remaining).0;
    if first.Some? {
      NoNullBefore(run, start, candidates, stock, p);
    }
    forall q | q in after.workers
      ensures after.workers[q] == start.workers[q].(stage := after.workers[q].stage)
      ensures StageFollows(after.workers[q].stage, candidates, stock, |after.tries|)
    {
      assert run.workers[q] == start.workers[q].(stage := run.workers[q].stage);
      assert StageFollows(run.workers[q].stage, candidates, stock, |run.tries|);
    }
  }

  lemma {:induction false} TurnFollows(run: Run, start: Run, candidates: seq<Candidate>, stock: Stock, p: PnrId)
    requires SameForAll(start, candidates, stock) && Follows(run, start, candidates, stock) && AtTurn(run, p)
    ensures Follows(TakeTurn(run, p), start, candidates, stock)
  {
    TurnTakesFirst(run, candidates, p);
    TurnKeepsWorkers(run, start, candidates, stock, p);
    TurnKeepsCount(run, candidates, p);
    var first := TakeFirst(candidates, run.shared.books.remaining).0;
    if first.Some? {
      TryFollows(run.shared, TakeTurn(run, p).shared, run.tries, Try(p, first.value), candidates, stock);
    }
  }

  lemma {:induction false} NoNullBefore(run: Run, start: Run, candidates: seq<Candidate>, stock: Stock, p: PnrId)
    requires Follows(run, start, candidates, stock)
    requires TakeFirst(candidates, run.shared.books.remaining).0.Some?
    ensures forall q | q in run.workers :: run.workers[q].stage != Ended(NoRoomsLeft)
  {
    forall q | q in run.workers
      ensures run.workers[q].stage != Ended(NoRoomsLeft)
    {
      assert StageFollows(run.workers[q].stage, candidates, stock, |run.tries|);
    }
  }

  lemma {:induction false} StepFollows(run: Run, start: Run, candidates: seq<Candidate>, stock: Stock, step: Step)
    requires SameForAll(start, candidates, stock) && Follows(run, start, candidates, stock)
    requires step.Return? ==> step.answer == AnsweredConfirmed
    ensures Follows(Apply(run, step), start, candidates, stock)
  {
    if Enabled(run, step) {
      match step
      case Begin(p) => TurnFollows(run, start, candidates, stock, p);
      case Return(p, answer, booked) => assert BusyPnrs(Apply(run, step).workers) == BusyPnrs(run.workers);
    }
  }

  lemma {:induction false} RunFollows(start: Run, candidates: seq<Candidate>, stock: Stock, steps: seq<Step>)
    requires SameForAll(start, candidates, stock) && AllConfirmed(steps)
    ensures Follows(Exec(start, steps), start, candidates, stock)
  {
    if steps == [] {
      assert BusyPnrs(start.workers) == {} && Choices(start.tries) == [];
    } else {
      RunFollows(start, candidates, stock, steps[..|steps| - 1]);
      StepFollows(Exec(start, steps[..|steps| - 1]), start, candidates, stock, steps[|steps| - 1]);
    }
  }

  /**
   With the same candidates for every PNR, the same stock and every booking
   confirmed, the k-th claim of any interleaving takes the preview's k-th hotel and rates.
   */
  lemma {:induction false} RunTakesPreviewsHotels(start: Run, candidates: seq<Candidate>, stock: Stock, steps: seq<Step>, k: nat, n: nat)
    requires SameForAll(start, candidates, stock) && AllConfirmed(steps)
    requires k < |Exec(start, steps).tries| <= n
    ensures Allocations(candidates, stock, n).0[k] == Some(Exec(start, steps).tries[k].choice)
  {
    RunFollows(start, candidates, stock, steps);
    var run := Exec(start, steps);
    AllocationsExtend(candidates, stock, |run.tries|, n);
    assert Allocations(candidates, stock, n).0[k] == Choices(run.tries)[k];
  }

  lemma {:induction false} RepeatExtends(next: Stock -> (Option<Choice>, Stock), stock: Stock, m: nat, n: nat)
    requires m <= n
    ensures Repeat(next, stock, n).0[..m] == Repeat(next, stock, m).0
    ensures m < n ==> Repeat(next, stock, n).0[m] == next(Repeat(next, stock, m).1).0
  {
    if m < n {
      RepeatExtends(next, stock, m, n - 1);
      assert Repeat(next, stock, n).0[..m] == Repeat(next, stock, n - 1).0[..m];
    }
  }

  lemma {:induction false} AllocationsExtend(candidates: seq<Candidate>, stock: Stock, m: nat, n: nat)
    requires m <= n
    ensures Allocations(candidates, stock, n).0[..m] == Allocations(candidates, stock, m).0
  {
    RepeatExtends(left => TakeFirst(candidates, left), stock, m, n);
  }

  function CountAllocated(allocations: seq<Option<Choice>>): nat {
    if allocations == [] then 0 else
      CountAllocated(allocations[..|allocations| - 1]) + if allocations[|allocations| - 1].Some? then 1 else 0
  }

  lemma {:induction false} NullsDoNotCount(allocations: seq<Option<Choice>>, m: nat)
    requires m <= |allocations| && forall j | m <= j < |allocations| :: allocations[j].None?
    ensures CountAllocated(allocations) == CountAllocated(allocations[..m])
  {
    if m < |allocations| {
      var front := allocations[..|allocations| - 1];
      NullsDoNotCount(front, m);
      assert front[..m] == allocations[..m];
    } else {
      assert allocations[..m] == allocations;
    }
  }

  lemma {:induction false} StockStays(next: Stock -> (Option<Choice>, Stock), stock: Stock, m: nat, n: nat)
    requires m <= n && next(Repeat(next, stock, m).1) == (None, Repeat(next, stock, m).1)
    ensures Repeat(next, stock, n).1 == Repeat(next, stock, m).1
  {
    if m < n {
      StockStays(next, stock, m, n - 1);
    }
  }

  lemma {:induction false} NullRepeats(next: Stock -> (Option<Choice>, Stock), stock: Stock, m: nat, n: nat)
    requires m <= n && next(Repeat(next, stock, m).1) == (None, Repeat(next, stock, m).1)
    ensures Repeat(next, stock, n).1 == Repeat(next, stock, m).1
    ensures forall j | m <= j < n :: Repeat(next, stock, n).0[j].None?
    ensures CountAllocated(Repeat(next, stock, n).0) == CountAllocated(Repeat(next, stock, m).0)
  {
    StockStays(next, stock, m, n);
    forall j | m <= j < n
      ensures Repeat(next, stock, n).0[j].None?
    {
      StockStays(next, stock, m, j);
      RepeatExtends(next, stock, j, n);
    }
    RepeatExtends(next, stock, m, n);
    NullsDoNotCount(Repeat(next, stock, n).0, m);
  }

  /** Once no hotel has rooms, it stays so: the stock does not change any more. */
  lemma {:induction false} NullStaysNull(candidates: seq<Candidate>, stock: Stock, m: nat, n: nat)
    requires m <= n && TakeFirst(candidates, Allocations(candidates, stock, m).1).0.None?
    ensures Allocations(candidates, stock, n).1 == Allocations(candidates, stock, m).1
    ensures forall j | m <= j < n :: Allocations(candidates, stock, n).0[j].None?
    ensures CountAllocated(Allocations(candidates, stock, n).0) == CountAllocated(Allocations(candidates, stock, m).0)
  {
    NullRepeats(left => TakeFirst(candidates, left), stock, m, n);
  }

  lemma {:induction false} AllAllocated(allocations: seq<Option<Choice>>)
    requires forall i | 0 <= i < |allocations| :: allocations[i].Some?
    ensures CountAllocated(allocations) == |allocations|
  {
    if allocations != [] { AllAllocated(allocations[..|allocations| - 1]); }
  }

  /** When such a run is over, it booked exactly as many PNRs as the preview allocates. */
  lemma {:induction false} PreviewPredictsBookings(start: Run, candidates: seq<Candidate>, stock: Stock, steps: seq<Step>)
    requires SameForAll(start, candidates, stock) && AllConfirmed(steps)
    requires forall p | p in Exec(start, steps).workers :: Exec(start, steps).workers[p].stage.Ended?
    ensures var run := Exec(start, steps);
      |set p | p in run.workers && run.workers[p].stage == Ended(Booked)|
      == CountAllocated(Allocations(candidates, stock, |start.workers|).0)
  {
    var run := Exec(start, steps);
    RunFollows(start, candidates, stock, steps);
    var booked := set p | p in run.workers && run.workers[p].stage == Ended(Booked);
    forall p | p in run.workers
      ensures run.workers[p].stage in {Ended(Booked), Ended(NoRoomsLeft)}
    {
      assert StageFollows(run.workers[p].stage, candidates, stock, |run.tries|);
    }
    assert booked == BusyPnrs(run.workers);
    assert |start.workers| == |start.workers.Keys|;
    CountOfFollowed(run, start, candidates, stock);
  }

  lemma {:induction false} CountOfFollowed(run: Run, start: Run, candidates: seq<Candidate>, stock: Stock)
    requires Follows(run, start, candidates, stock)
    requires forall p | p in run.workers :: run.workers[p].stage in {Ended(Booked), Ended(NoRoomsLeft)}
    ensures CountAllocated(Allocations(candidates, stock, |start.workers.Keys|).0) == |run.tries|
  {
    var n := |run.tries|;
    AllAllocated(Allocations(candidates, stock, n).0);
    Cardinality(BusyPnrs(run.workers), run.workers.Keys);
    if p :| p in run.workers && run.workers[p].stage == Ended(NoRoomsLeft) {
      assert StageFollows(run.workers[p].stage, candidates, stock, n);
      NullStaysNull(candidates, stock, n, |start.workers.Keys|);
    } else {
      assert BusyPnrs(run.workers) == run.workers.Keys;
    }
  }

  lemma {:induction false} Cardinality(a: set<PnrId>, b: set<PnrId>)
    requires a <= b
    ensures |a| <= |b|
  {
    assert b == a + (b - a);
  }
}
