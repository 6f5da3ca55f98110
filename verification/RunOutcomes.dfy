/**
 What the supplier's answers leave behind in a run of all PNR workers: which hotels
 are closed to everybody, and what became of every claim.
 */
module RunOutcomes {
  import opened Common
  import opened Ledger
  import opened Planner
  import opened RateSelection
  import opened AllocationRun
  import opened AllocationTheorems

  // ---- Hotels that refuse group bookings ---------------------------------------------

  /** The hotel a worker's attempt is at. */
  function HotelTried(w: Worker): Option<HotelCode> {
    if w.stage.Attempting? && w.stage.choice.index < |w.candidates|
    then Some(w.candidates[w.stage.choice.index].hotelCode) else None
  }

  /** Step `i` of the run brought back a rejection of hotel `h` as a group booking. */
  predicate RefusesGroup(start: Run, steps: seq<Step>, i: nat, h: HotelCode)
    requires i < |steps|
  {
    var run := Exec(start, steps[..i]);
    && steps[i].Return? && Enabled(run, steps[i]) && steps[i].answer == AnsweredRejected(true)
    && HotelTried(run.workers[steps[i].pnr]) == Some(h)
  }

  lemma {:induction false} StepRestricts(run: Run, step: Step)
    ensures var before, after := run.shared.restricted, Apply(run, step).shared.restricted;
      if step.Return? && Enabled(run, step) && step.answer == AnsweredRejected(true)
      then HotelTried(run.workers[step.pnr]).Some? && after == before + {HotelTried(run.workers[step.pnr]).value}
      else after == before
  {
    if Enabled(run, step) {
      match step
      case Begin(p) => TurnClaims(run.shared, run.workers[p]);
      case Return(p, answer, booked) =>
        if answer.AnsweredRejected? {
          var settled := SettleClaim(run, p, answer, booked);
          TurnClaims(settled.shared, settled.workers[p]);
        }
    }
  }

  lemma {:induction false} RefusedEarlier(start: Run, steps: seq<Step>, h: HotelCode)
    requires steps != []
    ensures var n := |steps| - 1;
      (exists i | 0 <= i < |steps| :: RefusesGroup(start, steps, i, h)) <==>
      (exists i | 0 <= i < n :: RefusesGroup(start, steps[..n], i, h)) || RefusesGroup(start, steps, n, h)
  {
    var n := |steps| - 1;
    forall i | 0 <= i < n
      ensures RefusesGroup(start, steps[..n], i, h) <==> RefusesGroup(start, steps, i, h)
    {
      assert steps[..n][..i] == steps[..i];
    }
  }

  /**
   A hotel is closed to all PNRs of the run if and only if it was at the start or
   some attempt at it came back rejected as a group booking. No other answer
   closes or reopens a hotel.
   */
  lemma {:induction false} RestrictedIff(start: Run, steps: seq<Step>, h: HotelCode)
    ensures h in Exec(start, steps).shared.restricted <==>
      h in start.shared.restricted || exists i | 0 <= i < |steps| :: RefusesGroup(start, steps, i, h)
  {
    if steps != [] {
      var n := |steps| - 1;
      RestrictedIff(start, steps[..n], h);
      RefusedEarlier(start, steps, h);
      StepRestricts(Exec(start, steps[..n]), steps[n]);
    }
  }

  /** The hotel a try was made at. */
  function HotelOf(start: Run, t: Try): Option<HotelCode> {
    if t.pnr in start.workers && t.choice.index < |start.workers[t.pnr].candidates|
    then Some(start.workers[t.pnr].candidates[t.choice.index].hotelCode) else None
  }

  /** Tries from `from` on are at hotels that are not closed. */
  predicate AllowedFrom(start: Run, tries: seq<Try>, from: nat, closed: set<HotelCode>) {
    forall t | from <= t < |tries| :: HotelOf(start, tries[t]).Some? && HotelOf(start, tries[t]).value !in closed
  }

  lemma {:induction false} NewTryIsAllowed(run: Run, p: PnrId, start: Run)
    requires AtTurn(run, p) && p in start.workers && run.workers[p].candidates == start.workers[p].candidates
    ensures var after := TakeTurn(run, p);
      && |run.tries| <= |after.tries| <= |run.tries| + 1 && after.tries[..|run.tries|] == run.tries
      && AllowedFrom(start, after.tries, |run.tries|, run.shared.restricted)
  {
    TurnClaims(run.shared, run.workers[p]);
  }

  /** A step's new try is at a hotel that is open after the step, too. */
  lemma {:induction false} StepTriesAllowed(run: Run, start: Run, step: Step)
    requires RunInv(run, start)
    ensures var after := Apply(run, step);
      && |run.tries| <= |after.tries| && after.tries[..|run.tries|] == run.tries
      && AllowedFrom(start, after.tries, |run.tries|, after.shared.restricted)
  {
    if Enabled(run, step) {
      assert Budgeted(run, step.pnr, run.workers[step.pnr], start.workers[step.pnr]);
      match step
      case Begin(p) =>
        NewTryIsAllowed(run, p, start);
        StepRestricts(run, step);
      case Return(p, answer, booked) =>
        if answer.AnsweredRejected? {
          var settled := SettleClaim(run, p, answer, booked);
          SettleKeepsBudget(run, start, p, answer, booked, p);
          NewTryIsAllowed(settled, p, start);
          TurnClaims(settled.shared, settled.workers[p]);
        }
    }
  }

  lemma {:induction false} RestrictedStays(start: Run, steps: seq<Step>, n: nat)
    requires n <= |steps|
    ensures Exec(start, steps[..n]).shared.restricted <= Exec(start, steps).shared.restricted
    decreases |steps|
  {
    if n == |steps| {
      assert steps[..n] == steps;
    } else {
      var front := steps[..|steps| - 1];
      assert front[..n] == steps[..n];
      RestrictedStays(start, front, n);
      StepRestricts(Exec(start, front), steps[|steps| - 1]);
    }
  }

  lemma {:induction false} MoreAllowed(
    start: Run, before: seq<Try>, tries: seq<Try>, from: nat, closed: set<HotelCode>, more: set<HotelCode>)
    requires |before| <= |tries| && tries[..|before|] == before && closed <= more
    requires AllowedFrom(start, before, from, closed) && AllowedFrom(start, tries, |before|, more)
    ensures AllowedFrom(start, tries, from, closed)
  {
    forall t | from <= t < |tries|
      ensures HotelOf(start, tries[t]).Some? && HotelOf(start, tries[t]).value !in closed
    {
      assert t < |before| ==> tries[t] == before[t];
    }
  }

  /** Once a hotel is closed, no worker of the run tries it, whatever the interleaving. */
  lemma {:induction false} NoTryAtRestricted(start: Run, stock: Stock, steps: seq<Step>, n: nat)
    requires Fresh(start, stock) && n <= |steps|
    ensures var early := Exec(start, steps[..n]);
      AllowedFrom(start, Exec(start, steps).tries, |early.tries|, early.shared.restricted)
    decreases |steps|
  {
    if n == |steps| {
      assert steps[..n] == steps;
    } else {
      var front := steps[..|steps| - 1];
      assert front[..n] == steps[..n];
      var early, run := Exec(start, steps[..n]), Exec(start, front);
      NoTryAtRestricted(start, stock, front, n);
      RunKeepsInv(start, stock, front);
      StepTriesAllowed(run, start, steps[|steps| - 1]);
      RestrictedStays(start, steps, n);
      MoreAllowed(start, run.tries, Exec(start, steps).tries, |early.tries|,
        early.shared.restricted, Exec(start, steps).shared.restricted);
    }
  }

  /** After a group-booking rejection at a hotel no later attempt of any PNR is made there. */
  lemma {:induction false} RefusedHotelIsLeft(start: Run, stock: Stock, steps: seq<Step>, i: nat, h: HotelCode, t: nat)
    requires Fresh(start, stock) && i < |steps| && RefusesGroup(start, steps, i, h)
    requires |Exec(start, steps[..i]).tries| <= t < |Exec(start, steps).tries|
    ensures HotelOf(start, Exec(start, steps).tries[t]) != Some(h)
  {
    var upTo := steps[..i + 1];
    assert upTo[..i] == steps[..i];
    StepRestricts(Exec(start, steps[..i]), steps[i]);
    RunKeepsInv(start, stock, steps[..i]);
    StepTriesAllowed(Exec(start, steps[..i]), start, steps[i]);
    TriesStay(start, stock, steps, i + 1);
    if t >= |Exec(start, upTo).tries| {
      NoTryAtRestricted(start, stock, steps, i + 1);
    } else {
      assert Exec(start, steps).tries[..|Exec(start, upTo).tries|][t] == Exec(start, steps).tries[t];
    }
  }

  lemma {:induction false} TriesStay(start: Run, stock: Stock, steps: seq<Step>, n: nat)
    requires Fresh(start, stock) && n <= |steps|
    ensures var before, after := Exec(start, steps[..n]).tries, Exec(start, steps).tries;
      |before| <= |after| && after[..|before|] == before
    decreases |steps|
  {
    if n == |steps| {
      assert steps[..n] == steps;
    } else {
      var front := steps[..|steps| - 1];
      assert front[..n] == steps[..n];
      TriesStay(start, stock, front, n);
      RunKeepsInv(start, stock, front);
      StepTriesAllowed(Exec(start, front), start, steps[|steps| - 1]);
    }
  }

  // ---- What became of the claims ---------------------------------------------------------

  /** What a worker's stage says of the claim of its last try. */
  function LastClaim(stage: Stage): ClaimState {
    match stage
    case Attempting(_, _) => Held
    case Ended(Booked) => Committed
    case Ended(Unresolved) => Committed
    case Ended(Crashed) => Held
    case _ => Released
  }

  /** No later try is for the same PNR. */
  predicate IsLast(tries: seq<Try>, c: nat)
    requires c < |tries|
  {
    forall d | c < d < |tries| :: tries[d].pnr != tries[c].pnr
  }

  /** A claim that was followed by another try of its PNR was given back; the last one is as its worker's end says. */
  predicate ClaimTells(run: Run, c: nat)
    requires c < |run.tries| && c < |run.shared.books.claims|
  {
    && run.tries[c].pnr in run.workers
    && run.shared.books.claims[c].state
       == if IsLast(run.tries, c) then LastClaim(run.workers[run.tries[c].pnr].stage) else Released
  }

  predicate ClaimsTell(run: Run) {
    && |run.tries| == |run.shared.books.claims|
    && (forall c | 0 <= c < |run.tries| :: ClaimTells(run, c))
    && (forall p | p in run.workers && run.workers[p].stage.Attempting? ::
          run.workers[p].stage.claim < |run.tries| && IsLast(run.tries, run.workers[p].stage.claim)
          && run.tries[run.workers[p].stage.claim].pnr == p)
  }

  lemma {:induction false} OnlyLast(tries: seq<Try>, c: nat, d: nat)
    requires c < |tries| && d < |tries| && tries[c].pnr == tries[d].pnr && IsLast(tries, c) && IsLast(tries, d)
    ensures c == d
  {
  }

  lemma {:induction false} SettleTells(run: Run, p: PnrId, answer: Answer, booked: Stock)
    requires ClaimsTell(run) && Enabled(run, Return(p, answer, booked))
    requires run.shared.books.claims[run.workers[p].stage.claim].state == Held
    ensures ClaimsTell(SettleClaim(run, p, answer, booked))
  {
    var after, claim := SettleClaim(run, p, answer, booked), run.workers[p].stage.claim;
    forall c | 0 <= c < |after.tries| ensures ClaimTells(after, c) {
      assert ClaimTells(run, c);
      if run.tries[c].pnr == p && IsLast(run.tries, c) {
        OnlyLast(run.tries, c, claim);
      }
    }
  }

  lemma {:induction false} TurnTells(run: Run, p: PnrId)
    requires ClaimsTell(run) && AtTurn(run, p)
    ensures ClaimsTell(TakeTurn(run, p))
  {
    TurnClaims(run.shared, run.workers[p]);
    var after := TakeTurn(run, p);
    forall c | 0 <= c < |run.tries| ensures ClaimTells(after, c) {
      assert ClaimTells(run, c);
      StaysLast(run.tries, after.tries, c);
    }
    forall q | q in after.workers && q != p && after.workers[q].stage.Attempting?
      ensures IsLast(after.tries, after.workers[q].stage.claim)
    {
      StaysLast(run.tries, after.tries, run.workers[q].stage.claim);
    }
  }

  lemma {:induction false} StaysLast(before: seq<Try>, after: seq<Try>, c: nat)
    requires c < |before| <= |after| <= |before| + 1 && after[..|before|] == before
    ensures IsLast(after, c) <==> IsLast(before, c) && (|after| > |before| ==> after[|before|].pnr != before[c].pnr)
  {
    assert forall d | 0 <= d < |before| :: after[d] == before[d];
  }

  lemma {:induction false} StepTells(run: Run, start: Run, step: Step)
    requires RunInv(run, start) && ClaimsTell(run)
    ensures ClaimsTell(Apply(run, step))
  {
    if Enabled(run, step) {
      match step
      case Begin(p) => TurnTells(run, p);
      case Return(p, answer, booked) =>
        assert HoldsClaim(run, p, run.workers[p]);
        SettleTells(run, p, answer, booked);
        if answer.AnsweredRejected? {
          TurnTells(SettleClaim(run, p, answer, booked), p);
        }
    }
  }

  lemma {:induction false} RunTells(start: Run, stock: Stock, steps: seq<Step>)
    requires Fresh(start, stock)
    ensures ClaimsTell(Exec(start, steps))
  {
    if steps != [] {
      RunTells(start, stock, steps[..|steps| - 1]);
      RunKeepsInv(start, stock, steps[..|steps| - 1]);
      StepTells(Exec(start, steps[..|steps| - 1]), start, steps[|steps| - 1]);
    }
  }

  /**
   In every interleaving the claims show what became of the attempts: a claim is
   committed exactly if its PNR ended booked or unresolved by it, still held exactly
   if its attempt is under way or crashed, and given back in all other cases.
   */
  lemma {:induction false} ClaimsEndAsAnswered(start: Run, stock: Stock, steps: seq<Step>, c: nat)
    requires Fresh(start, stock) && c < |Exec(start, steps).tries|
    ensures var run := Exec(start, steps);
      var p := run.tries[c].pnr;
      && c < |run.shared.books.claims| && p in run.workers
      && var state, stage := run.shared.books.claims[c].state, run.workers[p].stage;
         && (state == Committed <==> IsLast(run.tries, c) && stage in {Ended(Booked), Ended(Unresolved)})
         && (state == Held <==> IsLast(run.tries, c) && (stage.Attempting? || stage == Ended(Crashed)))
  {
    RunTells(start, stock, steps);
    assert ClaimTells(Exec(start, steps), c);
  }

  /** What a worker ends with is what its attempt answered; a rejection costs one failure and excludes its rates. */
  lemma {:induction false} AnswerEnds(run: Run, p: PnrId, answer: Answer, booked: Stock)
    requires Enabled(run, Return(p, answer, booked))
    ensures var w, after := run.workers[p], Apply(run, Return(p, answer, booked)).workers[p];
      && (after.stage == Ended(Booked) <==> answer == AnsweredConfirmed)
      && (after.stage == Ended(Unresolved) <==> answer == AnsweredUnknown)
      && (after.stage == Ended(SettledElsewhere) <==> answer == AnsweredBlocked)
      && (after.stage == Ended(Crashed) <==> answer == Threw)
      && after.failures == w.failures + (if answer.AnsweredRejected? then 1 else 0)
      && after.excluded == w.excluded + (if answer.AnsweredRejected? then PickedKeys(w.stage.choice.picks) else {})
  {
    if answer.AnsweredRejected? {
      var settled := SettleClaim(run, p, answer, booked);
      TurnClaims(settled.shared, settled.workers[p]);
    }
  }

  /** A step of the run is the worker's own code: its turn at the top of the loop, or the rest of the loop body. */
  lemma {:induction false} StepsAreTurns(run: Run, p: PnrId, answer: Answer, booked: Stock)
    ensures Enabled(run, Begin(p)) ==>
      var after := Apply(run, Begin(p));
      (after.shared, after.workers[p]) == NextTurn(run.shared, run.workers[p])
    ensures Enabled(run, Return(p, answer, booked)) ==>
      var after := Apply(run, Return(p, answer, booked));
      (after.shared, after.workers[p]) == Resume(run.shared, run.workers[p], answer)
  {
  }

  // ---- Giving up ------------------------------------------------------------------------------

  predicate GaveUpAtLimit(w: Worker) {
    w.stage == Ended(GaveUp) ==> w.failures >= w.maxAttempts
  }

  lemma {:induction false} StepGivesUpAtLimit(run: Run, step: Step)
    requires forall q | q in run.workers :: GaveUpAtLimit(run.workers[q])
    ensures forall q | q in Apply(run, step).workers :: GaveUpAtLimit(Apply(run, step).workers[q])
  {
    if Enabled(run, step) {
      match step
      case Begin(p) => TurnClaims(run.shared, run.workers[p]);
      case Return(p, answer, booked) =>
        if answer.AnsweredRejected? {
          var settled := SettleClaim(run, p, answer, booked);
          TurnClaims(settled.shared, settled.workers[p]);
        }
    }
  }

  lemma {:induction false} RunGivesUpAtLimit(start: Run, stock: Stock, steps: seq<Step>, p: PnrId)
    requires Fresh(start, stock) && p in Exec(start, steps).workers
    ensures forall q | q in Exec(start, steps).workers :: GaveUpAtLimit(Exec(start, steps).workers[q])
  {
    if steps != [] {
      RunKeepsInv(start, stock, steps);
      RunKeepsInv(start, stock, steps[..|steps| - 1]);
      RunGivesUpAtLimit(start, stock, steps[..|steps| - 1], p);
      StepGivesUpAtLimit(Exec(start, steps[..|steps| - 1]), steps[|steps| - 1]);
    }
  }

  /**
   A PNR is given up only when its attempts are used up: as many new ones as the run
   grants, or with those of earlier runs as many as the limit.
   */
  lemma {:induction false} GivesUpOnlyAtLimit(
    start: Run, stock: Stock, steps: seq<Step>, p: PnrId,
    candidates: seq<Candidate>, prior: seq<PriorAttempt>, maxNewAttempts: Option<nat>, maxAttemptsPerBooking: nat)
    requires Fresh(start, stock) && p in start.workers && p in Exec(start, steps).workers
    requires start.workers[p] == NewWorker(candidates, prior, maxNewAttempts, maxAttemptsPerBooking)
    requires Exec(start, steps).workers[p].stage == Ended(GaveUp)
    ensures var tries := CountTries(Exec(start, steps).tries, p);
      var failed := |Filter(a => DefinitelyFailed(a), prior)|;
      && (maxNewAttempts.Some? ==> tries == maxNewAttempts.value)
      && (maxNewAttempts.None? ==> failed + tries >= maxAttemptsPerBooking && failed + tries >= 1)
      && (maxNewAttempts.None? && tries > 0 ==> failed + tries == Max(1, maxAttemptsPerBooking))
  {
    var run := Exec(start, steps);
    RunKeepsInv(start, stock, steps);
    RunGivesUpAtLimit(start, stock, steps, p);
    PastFailuresCount(start, stock, steps, p, candidates, prior, maxNewAttempts, maxAttemptsPerBooking);
    assert Budgeted(run, p, run.workers[p], start.workers[p]) && GaveUpAtLimit(run.workers[p]);
  }
}
