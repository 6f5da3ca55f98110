/**
 What every interleaving of the PNR workers keeps: no room is overbooked, no
 failed rate is retried, and every worker ends within its budget.
 */
module AllocationTheorems {
  import opened Common
  import opened Ledger
  import opened Planner
  import opened RateSelection
  import opened AllocationRun
  import BookingRecords

  // ---- Invariant ---------------------------------------------------------------

  function Items(t: Try): Stock {
    Totals(PickItems(t.choice.picks))
  }

  predicate Busy(w: Worker) {
    w.stage.Attempting? || (w.stage.Ended? && w.stage.end !in {GaveUp, NoRoomsLeft})
  }

  function CountTries(tries: seq<Try>, p: PnrId): nat {
    if tries == [] then 0 else
      CountTries(tries[..|tries| - 1], p) + if tries[|tries| - 1].pnr == p then 1 else 0
  }

  /** A claim is for its try's picks; its attempt booked no more, and nothing once the claim was released. */
  predicate ClaimOk(t: Try, booked: Stock, claim: ClaimRecord) {
    && claim.items == Items(t)
    && (forall k | k in booked :: booked[k] <= Available(claim.items, k))
    && (claim.state == Released ==> booked == map[])
  }

  /** Claims and history line up, and only an attempt that booked nothing had its claim released. */
  predicate ClaimsMatch(run: Run) {
    && |run.tries| == |run.booked| == |run.shared.books.claims|
    && forall c | 0 <= c < |run.tries| :: ClaimOk(run.tries[c], run.booked[c], run.shared.books.claims[c])
  }

  /** A worker that is attempting holds the claim of its own last try. */
  predicate HoldsClaim(run: Run, p: PnrId, w: Worker) {
    w.stage.Attempting? ==>
      && w.stage.claim < |run.tries|
      && run.tries[w.stage.claim] == Try(p, w.stage.choice)
      && w.stage.claim < |run.shared.books.claims|
      && run.shared.books.claims[w.stage.claim].state == Held
      && w.stage.choice.index < |w.candidates|
      && w.failures < w.maxAttempts
  }

  /** Earlier tries are excluded; the budget counts them. */
  predicate Budgeted(run: Run, p: PnrId, w: Worker, w0: Worker) {
    && w.candidates == w0.candidates && w.maxAttempts == w0.maxAttempts
    && w0.excluded <= w.excluded
    && w.failures + (if Busy(w) then 1 else 0) == w0.failures + CountTries(run.tries, p)
    && (w.failures > w0.failures || Busy(w) ==> w.failures + (if Busy(w) then 1 else 0) <= w.maxAttempts)
  }

  predicate Excludes(run: Run, p: PnrId, w: Worker) {
    forall i | 0 <= i < |run.tries| && run.tries[i].pnr == p ::
      PickedKeys(run.tries[i].choice.picks) <= w.excluded
      || w.stage == Attempting(i, run.tries[i].choice)
      || w.stage.Ended?
  }

  ghost predicate RunInv(run: Run, start: Run) {
    && Conserved(start.shared.books.remaining, run.shared.books)
    && ClaimsMatch(run)
    && run.workers.Keys == start.workers.Keys
    && (forall p | p in run.workers :: HoldsClaim(run, p, run.workers[p]))
    && (forall p | p in run.workers :: Budgeted(run, p, run.workers[p], start.workers[p]))
    && (forall p | p in run.workers :: Excludes(run, p, run.workers[p]))
    && (forall i | 0 <= i < |run.tries| :: TryAvoidsFailed(run.tries, i, start))
  }

  /** Try i uses no rate its PNR failed on before, in this run or an earlier one. */
  predicate TryAvoidsFailed(tries: seq<Try>, i: nat, start: Run)
    requires i < |tries|
  {
    && tries[i].pnr in start.workers
    && PickedKeys(tries[i].choice.picks) !! start.workers[tries[i].pnr].excluded
    && forall j | 0 <= j < i && tries[j].pnr == tries[i].pnr ::
         PickedKeys(tries[j].choice.picks) !! PickedKeys(tries[i].choice.picks)
  }

  lemma {:induction false} FreshKeepsInv(run: Run, stock: Stock)
    requires Fresh(run, stock)
    ensures RunInv(run, run)
  {
  }

  // ---- Preservation -----------------------------------------------------------------

  lemma {:induction false} SettledBooks(run: Run, start: Run, p: PnrId, answer: Answer, booked: Stock)
    requires RunInv(run, start) && Enabled(run, Return(p, answer, booked))
    ensures Conserved(start.shared.books.remaining, SettleClaim(run, p, answer, booked).shared.books)
  {
    var stock, c := start.shared.books.remaining, run.workers[p].stage.claim;
    CommitConserves(stock, run.shared.books, c);
    ReleaseConserves(stock, run.shared.books, c);
  }

  lemma {:induction false} SettledClaims(run: Run, start: Run, p: PnrId, answer: Answer, booked: Stock)
    requires RunInv(run, start) && Enabled(run, Return(p, answer, booked))
    ensures ClaimsMatch(SettleClaim(run, p, answer, booked))
  {
    var after, claim := SettleClaim(run, p, answer, booked), run.workers[p].stage.claim;
    assert HoldsClaim(run, p, run.workers[p]);
    forall c | 0 <= c < |run.tries|
      ensures ClaimOk(after.tries[c], after.booked[c], after.shared.books.claims[c])
    {
      assert ClaimOk(run.tries[c], run.booked[c], run.shared.books.claims[c]);
    }
  }

  lemma {:induction false} SettleKeepsHold(run: Run, start: Run, p: PnrId, answer: Answer, booked: Stock, q: PnrId)
    requires RunInv(run, start) && Enabled(run, Return(p, answer, booked)) && q in run.workers
    ensures HoldsClaim(SettleClaim(run, p, answer, booked), q, SettleClaim(run, p, answer, booked).workers[q])
  {
    assert HoldsClaim(run, p, run.workers[p]) && HoldsClaim(run, q, run.workers[q]);
  }

  lemma {:induction false} SettleKeepsBudget(run: Run, start: Run, p: PnrId, answer: Answer, booked: Stock, q: PnrId)
    requires RunInv(run, start) && Enabled(run, Return(p, answer, booked)) && q in run.workers
    ensures var after := SettleClaim(run, p, answer, booked);
      Budgeted(after, q, after.workers[q], start.workers[q])
  {
    assert HoldsClaim(run, p, run.workers[p]) && Budgeted(run, q, run.workers[q], start.workers[q]);
  }

  lemma {:induction false} SettleKeepsExclusions(run: Run, start: Run, p: PnrId, answer: Answer, booked: Stock, q: PnrId)
    requires RunInv(run, start) && Enabled(run, Return(p, answer, booked)) && q in run.workers
    ensures Excludes(SettleClaim(run, p, answer, booked), q, SettleClaim(run, p, answer, booked).workers[q])
  {
    assert HoldsClaim(run, p, run.workers[p]) && Excludes(run, q, run.workers[q]);
  }

  lemma {:induction false} SettleKeepsInv(run: Run, start: Run, p: PnrId, answer: Answer, booked: Stock)
    requires RunInv(run, start) && Enabled(run, Return(p, answer, booked))
    ensures RunInv(SettleClaim(run, p, answer, booked), start)
  {
    SettledBooks(run, start, p, answer, booked);
    SettledClaims(run, start, p, answer, booked);
    forall q | q in run.workers
      ensures var after := SettleClaim(run, p, answer, booked);
        && HoldsClaim(after, q, after.workers[q])
        && Budgeted(after, q, after.workers[q], start.workers[q])
        && Excludes(after, q, after.workers[q])
    {
      SettleKeepsHold(run, start, p, answer, booked, q);
      SettleKeepsBudget(run, start, p, answer, booked, q);
      SettleKeepsExclusions(run, start, p, answer, booked, q);
    }
  }

  /**
   A turn ends the worker or starts an attempt with the first unrestricted
   candidate whose rates can be selected; those rates are then really claimed.
   */
  lemma {:induction false} TurnClaims(s: Shared, w: Worker)
    ensures var (s', w') := NextTurn(s, w);
      && w' == w.(stage := w'.stage)
      && s'.restricted == s.restricted
      && (w'.stage.Attempting? ==>
            && w.failures < w.maxAttempts
            && w'.stage.claim == |s.books.claims|
            && s'.books == Claim(s.books, PickItems(w'.stage.choice.picks))
            && s'.books.claims == s.books.claims + [ClaimRecord(Totals(PickItems(w'.stage.choice.picks)), Held)]
            && w'.stage.choice.index < |w.candidates|
            && PickedKeys(w'.stage.choice.picks) !! w.excluded
            && Selectable(w.candidates[w'.stage.choice.index], s.restricted, s.books.remaining, w.excluded)
            && forall j | 0 <= j < w'.stage.choice.index ::
                 !Selectable(w.candidates[j], s.restricted, s.books.remaining, w.excluded))
      && (!w'.stage.Attempting? ==> s' == s && w'.stage in {Ended(GaveUp), Ended(NoRoomsLeft)})
      && (w'.stage == Ended(GaveUp) <==> w.failures >= w.maxAttempts)
      && (w'.stage == Ended(NoRoomsLeft) <==>
            && w.failures < w.maxAttempts
            && forall j | 0 <= j < |w.candidates| ::
                 !Selectable(w.candidates[j], s.restricted, s.books.remaining, w.excluded))
  {
    var first := FirstSelectable(w.candidates, 0, s.restricted, s.books.remaining, w.excluded);
    if w.failures < w.maxAttempts && first.Some? {
      var rooms := w.candidates[first.value.index].rooms;
      SelectionCanBeClaimed(rooms, s.books.remaining, w.excluded);
      PicksMatchRooms(rooms, s.books.remaining, w.excluded);
      var picks := first.value.picks;
      forall k | k in PickedKeys(picks)
        ensures k !in w.excluded
      {
        var pick :| pick in picks && pick.rateKey == k;
        var i :| 0 <= i < |picks| && picks[i] == pick;
      }
    }
  }

  predicate AtTurn(run: Run, p: PnrId) {
    p in run.workers && run.workers[p].stage == Ready
  }

  function TakeTurn(run: Run, p: PnrId): Run
    requires AtTurn(run, p)
  {
    var (s, w) := NextTurn(run.shared, run.workers[p]);
    After(run, p, s, w)
  }

  lemma {:induction false} TurnConserves(run: Run, start: Run, p: PnrId)
    requires RunInv(run, start) && AtTurn(run, p)
    ensures Conserved(start.shared.books.remaining, TakeTurn(run, p).shared.books)
  {
    TurnClaims(run.shared, run.workers[p]);
    var after := TakeTurn(run, p);
    if after.workers[p].stage.Attempting? {
      ClaimConserves(start.shared.books.remaining, run.shared.books, PickItems(after.workers[p].stage.choice.picks));
    }
  }

  lemma {:induction false} TurnKeepsClaims(run: Run, start: Run, p: PnrId)
    requires RunInv(run, start) && AtTurn(run, p)
    ensures ClaimsMatch(TakeTurn(run, p))
  {
    TurnClaims(run.shared, run.workers[p]);
    var after := TakeTurn(run, p);
    forall c | 0 <= c < |after.tries|
      ensures ClaimOk(after.tries[c], after.booked[c], after.shared.books.claims[c])
    {
      if c < |run.tries| {
        assert ClaimOk(run.tries[c], run.booked[c], run.shared.books.claims[c]);
      }
    }
  }

  lemma {:induction false} CountAppend(tries: seq<Try>, t: Try, p: PnrId)
    ensures CountTries(tries + [t], p) == CountTries(tries, p) + if t.pnr == p then 1 else 0
  {
    assert (tries + [t])[..|tries|] == tries;
  }

  lemma {:induction false} TurnKeepsHold(run: Run, start: Run, p: PnrId, q: PnrId)
    requires RunInv(run, start) && AtTurn(run, p) && q in run.workers
    ensures HoldsClaim(TakeTurn(run, p), q, TakeTurn(run, p).workers[q])
  {
    TurnClaims(run.shared, run.workers[p]);
    assert HoldsClaim(run, q, run.workers[q]);
  }

  lemma {:induction false} TurnKeepsBudget(run: Run, start: Run, p: PnrId, q: PnrId)
    requires RunInv(run, start) && AtTurn(run, p) && q in run.workers
    ensures Budgeted(TakeTurn(run, p), q, TakeTurn(run, p).workers[q], start.workers[q])
  {
    TurnClaims(run.shared, run.workers[p]);
    var after := TakeTurn(run, p);
    assert Budgeted(run, q, run.workers[q], start.workers[q]);
    if after.workers[p].stage.Attempting? {
      CountAppend(run.tries, Try(p, after.workers[p].stage.choice), q);
    }
  }

  lemma {:induction false} TurnKeepsExclusions(run: Run, start: Run, p: PnrId, q: PnrId)
    requires RunInv(run, start) && AtTurn(run, p) && q in run.workers
    ensures Excludes(TakeTurn(run, p), q, TakeTurn(run, p).workers[q])
  {
    TurnClaims(run.shared, run.workers[p]);
    assert Excludes(run, q, run.workers[q]);
  }

  lemma {:induction false} NewTryAvoidsFailed(run: Run, start: Run, p: PnrId, t: Try)
    requires RunInv(run, start) && AtTurn(run, p) && t.pnr == p
    requires PickedKeys(t.choice.picks) !! run.workers[p].excluded
    ensures TryAvoidsFailed(run.tries + [t], |run.tries|, start)
  {
    assert Excludes(run, p, run.workers[p]) && Budgeted(run, p, run.workers[p], start.workers[p]);
  }

  lemma {:induction false} TurnKeepsTries(run: Run, start: Run, p: PnrId)
    requires RunInv(run, start) && AtTurn(run, p)
    ensures forall i | 0 <= i < |TakeTurn(run, p).tries| :: TryAvoidsFailed(TakeTurn(run, p).tries, i, start)
  {
    TurnClaims(run.shared, run.workers[p]);
    var after := TakeTurn(run, p);
    if after.workers[p].stage.Attempting? {
      NewTryAvoidsFailed(run, start, p, Try(p, after.workers[p].stage.choice));
    }
    forall i | 0 <= i < |run.tries|
      ensures TryAvoidsFailed(after.tries, i, start)
    {
      assert TryAvoidsFailed(run.tries, i, start);
    }
  }

  lemma {:induction false} TurnKeepsInv(run: Run, start: Run, p: PnrId)
    requires RunInv(run, start) && AtTurn(run, p)
    ensures RunInv(TakeTurn(run, p), start)
  {
    TurnConserves(run, start, p);
    TurnKeepsClaims(run, start, p);
    TurnKeepsTries(run, start, p);
    forall q | q in run.workers
      ensures var after := TakeTurn(run, p);
        HoldsClaim(after, q, after.workers[q]) && Budgeted(after, q, after.workers[q], start.workers[q])
        && Excludes(after, q, after.workers[q])
    {
      TurnKeepsHold(run, start, p, q);
      TurnKeepsBudget(run, start, p, q);
      TurnKeepsExclusions(run, start, p, q);
    }
  }

  lemma {:induction false} StepKeepsInv(run: Run, start: Run, step: Step)
    requires RunInv(run, start)
    ensures RunInv(Apply(run, step), start)
  {
    if Enabled(run, step) {
      match step
      case Begin(p) => TurnKeepsInv(run, start, p);
      case Return(p, answer, booked) =>
        SettleKeepsInv(run, start, p, answer, booked);
        if answer.AnsweredRejected? {
          TurnKeepsInv(SettleClaim(run, p, answer, booked), start, p);
        }
    }
  }

  lemma {:induction false} RunKeepsInv(start: Run, stock: Stock, steps: seq<Step>)
    requires Fresh(start, stock)
    ensures RunInv(Exec(start, steps), start)
  {
    if steps == [] {
      FreshKeepsInv(start, stock);
    } else {
      RunKeepsInv(start, stock, steps[..|steps| - 1]);
      StepKeepsInv(Exec(start, steps[..|steps| - 1]), start, steps[|steps| - 1]);
    }
  }

  // ---- Main results -----------------------------------------------------------------------

  function BookedRooms(booked: seq<Stock>, k: RateKey): nat {
    if booked == [] then 0 else BookedRooms(booked[..|booked| - 1], k) + Available(booked[|booked| - 1], k)
  }

  lemma {:induction false} BookedWithinClaims(claims: seq<ClaimRecord>, booked: seq<Stock>, k: RateKey)
    requires |claims| == |booked|
    requires forall c | 0 <= c < |booked| :: Available(booked[c], k) <= Available(claims[c].items, k)
    requires forall c | 0 <= c < |booked| && claims[c].state == Released :: booked[c] == map[]
    ensures BookedRooms(booked, k) <= RoomsIn(claims, k, Held) + RoomsIn(claims, k, Committed)
  {
    if booked != [] {
      var n := |booked| - 1;
      BookedWithinClaims(claims[..n], booked[..n], k);
    }
  }

  /** In every interleaving, rooms left plus rooms really booked never exceed the starting stock of any rate. */
  lemma {:induction false} NoOverbooking(start: Run, stock: Stock, steps: seq<Step>, k: RateKey)
    requires Fresh(start, stock)
    ensures var run := Exec(start, steps);
      BookedRooms(run.booked, k) + Available(run.shared.books.remaining, k) <= Available(stock, k)
  {
    RunKeepsInv(start, stock, steps);
    var run := Exec(start, steps);
    forall c | 0 <= c < |run.booked|
      ensures Available(run.booked[c], k) <= Available(run.shared.books.claims[c].items, k)
      ensures run.shared.books.claims[c].state == Released ==> run.booked[c] == map[]
    {
      assert ClaimOk(run.tries[c], run.booked[c], run.shared.books.claims[c]);
    }
    BookedWithinClaims(run.shared.books.claims, run.booked, k);
  }

  /** No PNR tries a rate it already failed on, in this run or before it. */
  lemma {:induction false} NoRateIsRetried(start: Run, stock: Stock, steps: seq<Step>, i: nat, j: nat)
    requires Fresh(start, stock)
    requires i < j < |Exec(start, steps).tries| && Exec(start, steps).tries[i].pnr == Exec(start, steps).tries[j].pnr
    ensures var tries := Exec(start, steps).tries;
      && PickedKeys(tries[i].choice.picks) !! PickedKeys(tries[j].choice.picks)
      && tries[j].pnr in start.workers
      && PickedKeys(tries[j].choice.picks) !! start.workers[tries[j].pnr].excluded
  {
    RunKeepsInv(start, stock, steps);
    assert TryAvoidsFailed(Exec(start, steps).tries, j, start);
  }

  /** A PNR makes at most as many attempts as its budget leaves, however the workers interleave. */
  lemma {:induction false} TriesStayInBudget(start: Run, stock: Stock, steps: seq<Step>, p: PnrId)
    requires Fresh(start, stock) && p in start.workers
    ensures CountTries(Exec(start, steps).tries, p) <= Max(0, start.workers[p].maxAttempts - start.workers[p].failures)
  {
    RunKeepsInv(start, stock, steps);
    var run := Exec(start, steps);
    assert Budgeted(run, p, run.workers[p], start.workers[p]);
  }

  /**
   A PNR starts a run with exactly the rates excluded that it definitely failed
   on: an attempt interrupted before its request excludes nothing and costs nothing.
   */
  lemma {:induction false} OnlyDefiniteFailuresExclude(
    candidates: seq<Candidate>, prior: seq<PriorAttempt>, maxNewAttempts: Option<nat>, maxAttemptsPerBooking: nat,
    k: RateKey)
    ensures var w := NewWorker(candidates, prior, maxNewAttempts, maxAttemptsPerBooking);
      && (k in w.excluded <==>
            exists a | a in prior :: k in a.rateKeys && a.status == BookingRecords.Failed
              && a.failure != Some(BookingRecords.InterruptedBeforeRequest))
      && w.failures <= |prior|
  {
    var failed := Filter((a: PriorAttempt) => DefinitelyFailed(a), prior);
    FilterIsShorter((a: PriorAttempt) => DefinitelyFailed(a), prior);
    if a :| a in prior && k in a.rateKeys && DefinitelyFailed(a) {
      assert a in failed;
    }
  }

  lemma {:induction false} FilterIsShorter(keep: PriorAttempt -> bool, xs: seq<PriorAttempt>)
    ensures |Filter(keep, xs)| <= |xs|
  {
    if xs != [] { FilterIsShorter(keep, xs[1..]); }
  }

  /** Earlier definite failures count against the limit per PNR, unless the run grants a number of new attempts. */
  lemma {:induction false} PastFailuresCount(
    start: Run, stock: Stock, steps: seq<Step>, p: PnrId,
    candidates: seq<Candidate>, prior: seq<PriorAttempt>, maxNewAttempts: Option<nat>, maxAttemptsPerBooking: nat)
    requires Fresh(start, stock) && p in start.workers
    requires start.workers[p] == NewWorker(candidates, prior, maxNewAttempts, maxAttemptsPerBooking)
    ensures var tries := CountTries(Exec(start, steps).tries, p);
      var failed := |Filter(a => DefinitelyFailed(a), prior)|;
      && (maxNewAttempts.Some? ==> tries <= maxNewAttempts.value)
      && (maxNewAttempts.None? && tries > 0 ==> failed + tries <= Max(1, maxAttemptsPerBooking))
  {
    TriesStayInBudget(start, stock, steps, p);
  }

  // ---- Every worker ends ----------------------------------------------------------------

  /** Turns a worker can still take. */
  function TurnsLeft(w: Worker): nat {
    match w.stage
    case Ended(_) => 0
    case Attempting(_, _) => 1 + Max(0, w.maxAttempts - w.failures)
    case Ready => 2 + Max(0, w.maxAttempts - w.failures)
  }

  /** Steps of this PNR that do something. */
  function TurnsTaken(start: Run, steps: seq<Step>, p: PnrId): nat {
    if steps == [] then 0 else
      var last := steps[|steps| - 1];
      TurnsTaken(start, steps[..|steps| - 1], p)
        + if last.pnr == p && Enabled(Exec(start, steps[..|steps| - 1]), last) then 1 else 0
  }

  lemma {:induction false} TurnUsesTurns(run: Run, p: PnrId)
    requires AtTurn(run, p)
    ensures TurnsLeft(TakeTurn(run, p).workers[p]) < TurnsLeft(run.workers[p])
  {
    TurnClaims(run.shared, run.workers[p]);
  }

  lemma {:induction false} SettleUsesTurns(run: Run, start: Run, p: PnrId, answer: Answer, booked: Stock)
    requires RunInv(run, start) && Enabled(run, Return(p, answer, booked))
    ensures var after := SettleClaim(run, p, answer, booked).workers[p];
      if answer.AnsweredRejected? then after.stage.Ready? && TurnsLeft(after) == TurnsLeft(run.workers[p])
      else TurnsLeft(after) < TurnsLeft(run.workers[p])
  {
    assert HoldsClaim(run, p, run.workers[p]);
  }

  lemma {:induction false} StepUsesTurns(run: Run, start: Run, step: Step, p: PnrId)
    requires RunInv(run, start) && p in run.workers && Apply(run, step).workers.Keys == run.workers.Keys
    ensures TurnsLeft(Apply(run, step).workers[p]) + (if step.pnr == p && Enabled(run, step) then 1 else 0)
         <= TurnsLeft(run.workers[p])
  {
    if step.pnr == p && Enabled(run, step) {
      match step
      case Begin(_) => TurnUsesTurns(run, p);
      case Return(_, answer, booked) =>
        SettleUsesTurns(run, start, p, answer, booked);
        if answer.AnsweredRejected? {
          TurnUsesTurns(SettleClaim(run, p, answer, booked), p);
        }
    }
  }

  /** However the workers interleave, a PNR takes at most two turns more than its remaining budget. */
  lemma {:induction false} WorkersTerminate(start: Run, stock: Stock, steps: seq<Step>, p: PnrId)
    requires Fresh(start, stock) && p in start.workers
    ensures p in Exec(start, steps).workers
    ensures TurnsTaken(start, steps, p) + TurnsLeft(Exec(start, steps).workers[p])
         <= 2 + Max(0, start.workers[p].maxAttempts - start.workers[p].failures)
  {
    if steps != [] {
      var before := steps[..|steps| - 1];
      WorkersTerminate(start, stock, before, p);
      RunKeepsInv(start, stock, before);
      RunKeepsInv(start, stock, steps);
      StepUsesTurns(Exec(start, before), start, steps[|steps| - 1], p);
    }
  }

  /** A worker that is not ended always has an enabled step, so no interleaving gets stuck. */
  lemma {:induction false} WorkersCanAlwaysMove(start: Run, stock: Stock, steps: seq<Step>, p: PnrId, answer: Answer)
    requires Fresh(start, stock) && p in start.workers
    ensures var run := Exec(start, steps);
      && p in run.workers
      && (run.workers[p].stage.Ended? <==> !Enabled(run, Begin(p)) && !Enabled(run, Return(p, answer, map[])))
  {
    RunKeepsInv(start, stock, steps);
    var run := Exec(start, steps);
    assert HoldsClaim(run, p, run.workers[p]);
  }
}
