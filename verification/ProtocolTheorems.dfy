/** What the booking protocol guarantees in every run, whatever the interleaving. */
module ProtocolTheorems {
  import opened Common
  import opened BookingRecords
  import opened BookingProtocol
  import opened ProtocolInvariant

  /** A state some run of a new flight reaches. */
  ghost predicate Reachable(w: World, limits: Limits) {
    exists now: Time, steps: seq<Step> :: w == Exec(NewFlight(now), steps, limits)
  }

  lemma {:induction false} ReachableKeepsInv(w: World, limits: Limits)
    requires Reachable(w, limits)
    ensures Inv(w)
  {
    var now: Time, steps: seq<Step> :| w == Exec(NewFlight(now), steps, limits);
    NewFlightInv(now);
    RunKeepsInv(NewFlight(now), steps, limits);
  }

  // ---- Attempts and PNR rows ------------------------------------------------------

  /**
   At most one attempt of a PNR is not FAILED, and outside a pending recovery
   the PNR's row is exactly what its attempts say.
   */
  lemma {:induction false} PnrStateIsWhatAttemptsImply(w: World, limits: Limits, p: PnrId)
    requires Reachable(w, limits) && p in w.db.pnrs
    ensures forall i: nat, j: nat | i < |w.db.attempts| && j < |w.db.attempts| ::
              IsLive(w.db, p, i) && IsLive(w.db, p, j) ==> i == j
    ensures p !in w.owed ==> forall i: nat | i < |w.db.attempts| && IsLive(w.db, p, i) ::
              w.db.pnrs[p] == match w.db.attempts[i].status
                              case Success => Pnr(Confirmed, Some(i))
                              case ManualCheck => Pnr(NeedsManualCheck, None)
                              case Pending => Pnr(AllocationInProgress, None)
    ensures p !in w.owed && !HasLive(w.db, p) ==>
              w.db.pnrs[p].status in {NotAllocated, AllocationFailed} && w.db.pnrs[p].confirmed == None
  {
    ReachableKeepsInv(w, limits);
    forall i: nat, j: nat | i < |w.db.attempts| && j < |w.db.attempts| && IsLive(w.db, p, i) && IsLive(w.db, p, j)
      ensures i == j
    {
      LiveIsUnique(w.db, p, i, j);
    }
  }

  /** Even during recovery, a PNR is CONFIRMED exactly when one of its attempts succeeded. */
  lemma {:induction false} ConfirmedIffBooked(w: World, p: PnrId)
    requires Inv(w) && p in w.db.pnrs
    ensures w.db.pnrs[p].status == Confirmed <==>
            exists i | 0 <= i < |w.db.attempts| :: w.db.attempts[i].pnr == p && w.db.attempts[i].status == Success
  {
    if i :| 0 <= i < |w.db.attempts| && w.db.attempts[i].pnr == p && w.db.attempts[i].status == Success {
      assert IsLive(w.db, p, i);
    } else if HasLive(w.db, p) {
      var i: nat :| i < |w.db.attempts| && IsLive(w.db, p, i);
    }
  }

  // ---- An attempt is settled once --------------------------------------------------

  /** What one step can do to an attempt that exists: settled rows never change, sent stays sent. */
  predicate Evolves(before: Attempt, after: Attempt) {
    && after.pnr == before.pnr && after.order == before.order && after.run == before.run
    && (before.sent ==> after.sent)
    && (IsSettled(before) ==> after == before)
  }

  lemma {:induction false} FlightStepKeepsAttempts(w: World, step: Step, limits: Limits)
    requires IsFlightStep(step) || IsRunStep(step)
    ensures Apply(w, step, limits).db.attempts == w.db.attempts && Apply(w, step, limits).workers == w.workers
  {
  }

  /** Steps on attempts, PNRs and workers leave the flight row, the runs and the set of PNRs alone. */
  predicate FlightUntouched(w: World, after: World) {
    after.db.flight == w.db.flight && after.runs == w.runs && after.db.pnrs.Keys == w.db.pnrs.Keys
  }

  lemma {:induction false} OtherStepKeepsWorkers(w: World, step: Step, limits: Limits)
    requires !IsWorkerStep(step) && !step.StepLiveAnswer?
    ensures Apply(w, step, limits).workers == w.workers
  {
  }

  lemma {:induction false} SettleStepKeepsFlight(w: World, step: Step, limits: Limits)
    requires IsSettleStep(step)
    ensures FlightUntouched(w, Apply(w, step, limits))
  {
  }

  lemma {:induction false} OtherStepKeepsFlight(w: World, step: Step, limits: Limits)
    requires !IsFlightStep(step) && !IsRunStep(step)
    ensures FlightUntouched(w, Apply(w, step, limits))
  {
    if IsSettleStep(step) {
      SettleStepKeepsFlight(w, step, limits);
    }
  }

  lemma {:induction false} SettleStepEvolves(w: World, step: Step, limits: Limits, a: AttemptId)
    requires IsSettleStep(step) && a < |w.db.attempts|
    ensures a < |ApplySettle(w, step, limits).db.attempts|
    ensures Evolves(w.db.attempts[a], ApplySettle(w, step, limits).db.attempts[a])
  {
  }

  lemma {:induction false} WorkerStepEvolves(w: World, step: Step, a: AttemptId)
    requires IsWorkerStep(step) && a < |w.db.attempts|
    ensures a < |ApplyWorker(w, step).db.attempts|
    ensures Evolves(w.db.attempts[a], ApplyWorker(w, step).db.attempts[a])
  {
  }

  lemma {:induction false} RowStepEvolves(w: World, step: Step, limits: Limits, a: AttemptId)
    requires IsRowStep(step) && a < |w.db.attempts|
    ensures a < |ApplyRow(w, step, limits).db.attempts|
    ensures Evolves(w.db.attempts[a], ApplyRow(w, step, limits).db.attempts[a])
  {
  }

  lemma {:induction false} StepEvolves(w: World, step: Step, limits: Limits, a: AttemptId)
    requires a < |w.db.attempts|
    ensures a < |Apply(w, step, limits).db.attempts|
    ensures Evolves(w.db.attempts[a], Apply(w, step, limits).db.attempts[a])
  {
    if IsFlightStep(step) || IsRunStep(step) {
      FlightStepKeepsAttempts(w, step, limits);
    } else if IsSettleStep(step) {
      SettleStepEvolves(w, step, limits, a);
    } else if IsWorkerStep(step) {
      WorkerStepEvolves(w, step, a);
    } else {
      RowStepEvolves(w, step, limits, a);
    }
  }

  /** Whoever races to settle it, an attempt settles at most once: afterwards its row is final. */
  lemma {:induction false} SettledIsFinal(w: World, steps: seq<Step>, limits: Limits, a: AttemptId)
    requires a < |w.db.attempts|
    ensures a < |Exec(w, steps, limits).db.attempts|
    ensures Evolves(w.db.attempts[a], Exec(w, steps, limits).db.attempts[a])
    decreases |steps|
  {
    if steps != [] {
      StepEvolves(w, steps[0], limits, a);
      SettledIsFinal(Apply(w, steps[0], limits), steps[1..], limits, a);
    }
  }

  // ---- Charges ----------------------------------------------------------------------

  function TotalCharges(attempts: seq<Attempt>, p: PnrId): nat {
    if attempts == [] then 0 else
      var a := attempts[|attempts| - 1];
      TotalCharges(attempts[..|attempts| - 1], p) + if a.pnr == p then a.charges else 0
  }

  lemma {:induction false} ChargesCountSuccesses(attempts: seq<Attempt>, p: PnrId)
    requires EarlierFailed(attempts) && forall i | 0 <= i < |attempts| :: ChargedOnce(attempts[i])
    ensures TotalCharges(attempts, p) ==
      if exists i | 0 <= i < |attempts| :: attempts[i].pnr == p && attempts[i].status == Success then 1 else 0
  {
    if attempts != [] {
      var n := |attempts| - 1;
      ChargesCountSuccesses(attempts[..n], p);
      if attempts[n].pnr == p {
        assert forall i | 0 <= i < n && attempts[i].pnr == p :: attempts[i].status == Failed;
      } else if i :| 0 <= i <= n && attempts[i].pnr == p && attempts[i].status == Success {
        assert attempts[..n][i] == attempts[i];
      }
    }
  }

  /** In every reachable state a PNR has been charged once if it is CONFIRMED and not at all otherwise. */
  lemma {:induction false} PnrChargedAtMostOnce(w: World, limits: Limits, p: PnrId)
    requires Reachable(w, limits) && p in w.db.pnrs
    ensures TotalCharges(w.db.attempts, p) == if w.db.pnrs[p].status == Confirmed then 1 else 0
    ensures forall i | 0 <= i < |w.db.attempts| ::
              w.db.attempts[i].charges == if w.db.attempts[i].status == Success then 1 else 0
  {
    ReachableKeepsInv(w, limits);
    ChargesCountSuccesses(w.db.attempts, p);
    ConfirmedIffBooked(w, p);
  }

  // ---- The flight's status ------------------------------------------------------------

  /** A confirmed hotel is never undone: the PNR keeps that very booking in every continuation. */
  lemma {:induction false} ConfirmedIsForever(w: World, steps: seq<Step>, limits: Limits, p: PnrId)
    requires Inv(w) && p in w.db.pnrs && w.db.pnrs[p].status == Confirmed
    ensures p in Exec(w, steps, limits).db.pnrs && Exec(w, steps, limits).db.pnrs[p] == w.db.pnrs[p]
  {
    ConfirmedIffBooked(w, p);
    var i :| 0 <= i < |w.db.attempts| && w.db.attempts[i].pnr == p && w.db.attempts[i].status == Success;
    assert IsLive(w.db, p, i);
    SettledIsFinal(w, steps, limits, i);
    RunKeepsInv(w, steps, limits);
    var after := Exec(w, steps, limits);
    assert IsLive(after.db, p, i);
  }

  predicate PublishedAndIdle(f: Flight) {
    f.status == FlightStatus.Published && f.runId == None
  }

  lemma {:induction false} StepKeepsPnrSet(w: World, step: Step, limits: Limits)
    requires !Editable(w.db.flight)
    ensures var after := Apply(w, step, limits);
      && !Editable(after.db.flight) && after.db.pnrs.Keys == w.db.pnrs.Keys
      && (PublishedAndIdle(w.db.flight) ==> PublishedAndIdle(after.db.flight))
  {
    if !IsFlightStep(step) && !IsRunStep(step) {
      OtherStepKeepsFlight(w, step, limits);
    } else if IsRunStep(step) {
      RunStepKeepsPnrSet(w, step, limits);
    }
  }

  lemma {:induction false} RunStepKeepsPnrSet(w: World, step: Step, limits: Limits)
    requires !Editable(w.db.flight) && IsRunStep(step)
    ensures var after := Apply(w, step, limits);
      && !Editable(after.db.flight) && after.db.pnrs.Keys == w.db.pnrs.Keys
      && (PublishedAndIdle(w.db.flight) ==> PublishedAndIdle(after.db.flight))
  {
  }

  /** Once passengers are confirmed no PNR is added or deleted; a published flight stays published. */
  lemma {:induction false} PnrSetIsFixed(w: World, steps: seq<Step>, limits: Limits)
    requires !Editable(w.db.flight)
    ensures var after := Exec(w, steps, limits);
      && !Editable(after.db.flight) && after.db.pnrs.Keys == w.db.pnrs.Keys
      && (PublishedAndIdle(w.db.flight) ==> PublishedAndIdle(after.db.flight))
    decreases |steps|
  {
    if steps != [] {
      StepKeepsPnrSet(w, steps[0], limits);
      PnrSetIsFixed(Apply(w, steps[0], limits), steps[1..], limits);
    }
  }

  /** A flight shown ALLOCATED or PUBLISHED has at least one PNR and a confirmed hotel for each. */
  lemma {:induction false} AllocatedMeansEveryPnrConfirmed(w: World, limits: Limits)
    requires Reachable(w, limits) && w.db.flight.status in {Allocated, FlightStatus.Published}
    ensures |w.db.pnrs| > 0
    ensures forall p | p in w.db.pnrs ::
              w.db.pnrs[p].status == Confirmed && w.db.pnrs[p].confirmed.Some?
              && w.db.pnrs[p].confirmed.value < |w.db.attempts|
              && w.db.attempts[w.db.pnrs[p].confirmed.value].pnr == p
              && w.db.attempts[w.db.pnrs[p].confirmed.value].status == Success
  {
    ReachableKeepsInv(w, limits);
    forall p | p in w.db.pnrs
      ensures w.db.pnrs[p].confirmed.Some? && w.db.pnrs[p].confirmed.value < |w.db.attempts|
      ensures w.db.attempts[w.db.pnrs[p].confirmed.value].pnr == p
      ensures w.db.attempts[w.db.pnrs[p].confirmed.value].status == Success
    {
      ConfirmedIffBooked(w, p);
      var i :| 0 <= i < |w.db.attempts| && w.db.attempts[i].pnr == p && w.db.attempts[i].status == Success;
      assert IsLive(w.db, p, i);
    }
  }

  // ---- Sending -------------------------------------------------------------------------

  /** The supplier is called at most once per order of an attempt, and only for an attempt marked sent. */
  lemma {:induction false} SupplierCalledOncePerOrder(w: World, limits: Limits, a: AttemptId)
    requires Reachable(w, limits) && a < |w.db.attempts|
    ensures a < |w.workers| && w.workers[a].supplierCalls <= w.workers[a].orders
    ensures w.workers[a].supplierCalls > 0 ==> w.db.attempts[a].sent
    ensures w.db.attempts[a].status in {Success, ManualCheck} ==> w.db.attempts[a].sent
  {
    ReachableKeepsInv(w, limits);
  }

  /** What a step may do to a worker: call for its next order, learn its orders, move on. */
  predicate WorkerMoves(w: World, step: Step, a: AttemptId, workers: seq<Worker>)
    requires a < |w.workers|
  {
    a < |workers|
    && var before, after := w.workers[a], workers[a];
       && (after.supplierCalls != before.supplierCalls ==>
             step == StepCallSupplier(a) && after.supplierCalls == before.supplierCalls + 1
             && before.phase in {Cleared, Booking} && WasSent(w.db, a))
       && (after.orders != before.orders ==> step.StepMarkSent? && step.a == a && before.phase == Checking)
       && (after.phase == Cleared && before.phase != Cleared ==>
             step.StepMarkSent? && step.a == a && CanMarkSent(w.db, a))
  }

  lemma {:induction false} WorkerStepMoves(w: World, step: Step, a: AttemptId)
    requires Inv(w) && a < |w.workers| && IsWorkerStep(step)
    ensures WorkerMoves(w, step, a, ApplyWorker(w, step).workers)
  {
    assert SendingOk(w.db.attempts[a], w.workers[a]);
  }

  /**
   Only the attempt's own worker calls the supplier, for its next order, after it
   was cleared and before it has an answer; and a worker is cleared only by the step
   that found its attempt PENDING and unsent, never again later.
   */
  lemma {:induction false} OnlyTheWorkerCalls(w: World, step: Step, limits: Limits, a: AttemptId)
    requires Inv(w) && a < |w.workers|
    ensures WorkerMoves(w, step, a, Apply(w, step, limits).workers)
  {
    if IsWorkerStep(step) {
      WorkerStepMoves(w, step, a);
      assert Apply(w, step, limits) == ApplyWorker(w, step);
    } else if step.StepLiveAnswer? {
      AnswerCallsNobody(w, step.a, step.answer, a);
      assert Apply(w, step, limits) == LiveAnswer(w, step.a, step.answer);
    } else {
      OtherStepKeepsWorkers(w, step, limits);
    }
  }

  lemma {:induction false} AnswerCallsNobody(w: World, a: AttemptId, answer: Answer, b: AttemptId)
    requires b < |w.workers|
    ensures var after := LiveAnswer(w, a, answer).workers;
      b < |after| && (after[b] == w.workers[b] || after[b] == w.workers[b].(phase := Answered))
  {
  }

  lemma {:induction false} ClearedOnlyFromPendingUnsent(w: World, step: Step, limits: Limits, a: AttemptId)
    requires Inv(w) && a < |w.workers| && w.workers[a].phase != Cleared
    requires a < |Apply(w, step, limits).workers| && Apply(w, step, limits).workers[a].phase == Cleared
    ensures step.StepMarkSent? && step.a == a && w.db.attempts[a].status == Pending && !w.db.attempts[a].sent
  {
    OnlyTheWorkerCalls(w, step, limits, a);
  }

  /** An attempt failed as interrupted before its request is never sent, then or later. */
  lemma {:induction false} FailedBeforeRequestIsNeverSent(w: World, steps: seq<Step>, limits: Limits, a: AttemptId)
    requires Inv(w) && a < |w.db.attempts| && w.db.attempts[a].failure == Some(InterruptedBeforeRequest)
    ensures var after := Exec(w, steps, limits);
      && a < |after.workers| && after.workers[a].supplierCalls == 0
      && a < |after.db.attempts| && after.db.attempts[a] == w.db.attempts[a]
  {
    SettledIsFinal(w, steps, limits, a);
    RunKeepsInv(w, steps, limits);
  }

  /** Recovery never fails an attempt whose request may have reached the supplier. */
  lemma {:induction false} RecoveryNeverFailsSent(w: World, step: Step, limits: Limits, a: AttemptId)
    requires a < |w.db.attempts| && w.db.attempts[a].sent && IsOpen(w.db.attempts[a])
    requires step.StepRecover? || step.StepRecoverManual? || step.StepRecoverPnr?
    ensures var after := Apply(w, step, limits).db.attempts[a];
      && (after == w.db.attempts[a] || after.status == ManualCheck)
      && (after != w.db.attempts[a] ==> after.failure == Some(InterruptedAfterRequest))
  {
  }

  // ---- The run lease ---------------------------------------------------------------------

  /** A run id is set exactly while allocation is in progress; runs complete once; user runs are bounded. */
  lemma {:induction false} LeaseIsWellFormed(w: World, limits: Limits)
    requires Reachable(w, limits)
    ensures w.db.flight.runId.Some? <==> w.db.flight.status == HotelAllocationInProgress
    ensures forall r | r in w.runs :: w.runs[r].completions <= 1
    ensures w.db.flight.runId.Some? ==>
              w.db.flight.runId.value in w.runs && w.runs[w.db.flight.runId.value].completions == 0
    ensures w.db.flight.userRuns <= MAX_USER_ALLOCATION_RUNS
  {
    ReachableKeepsInv(w, limits);
  }

  predicate SentSomething(w: World, r: RunId) {
    exists i | 0 <= i < |w.db.attempts| :: w.db.attempts[i].run == Some(r) && w.db.attempts[i].sent
  }

  predicate CountsUserRun(w: World, step: Step) {
    step.StepComplete? && w.db.flight.runId == Some(step.r) && step.r in w.runs && w.runs[step.r].userStarted
    && SentSomething(w, step.r)
  }

  lemma {:induction false} RunStepCounts(w: World, step: Step, limits: Limits)
    requires Inv(w) && IsRunStep(step)
    ensures ApplyRun(w, step, limits).db.flight.userRuns == w.db.flight.userRuns + if CountsUserRun(w, step) then 1 else 0
  {
    if step.StepComplete? {
      assert ReachedSupplier(w.db.attempts, step.r) == SentSomething(w, step.r);
    }
  }

  lemma {:induction false} FlightStepCountsNothing(w: World, step: Step)
    requires IsFlightStep(step)
    ensures ApplyFlight(w, step).db.flight.userRuns == w.db.flight.userRuns
  {
  }

  /** The retry counter goes up by one exactly when a user's run completes that sent a request to the supplier. */
  lemma {:induction false} UserRunCountsOnlyIfSent(w: World, step: Step, limits: Limits)
    requires Inv(w)
    ensures Apply(w, step, limits).db.flight.userRuns == w.db.flight.userRuns + if CountsUserRun(w, step) then 1 else 0
  {
    if IsRunStep(step) {
      RunStepCounts(w, step, limits);
    } else if IsFlightStep(step) {
      FlightStepCountsNothing(w, step);
    } else {
      OtherStepKeepsFlight(w, step, limits);
    }
  }

  /** A run that lost the flight never gets it back, and can neither refresh the lease nor complete. */
  lemma {:induction false} SupersededForever(w: World, steps: seq<Step>, limits: Limits, r: RunId)
    requires r in w.runs && w.db.flight.runId != Some(r)
    ensures var after := Exec(w, steps, limits);
      && r in after.runs && after.runs[r] == w.runs[r] && after.db.flight.runId != Some(r)
      && Apply(after, StepTouch(r), limits) == after
      && Apply(after, StepComplete(r), limits) == after
    decreases |steps|
  {
    if steps != [] {
      StepKeepsSuperseded(w, steps[0], limits, r);
      SupersededForever(Apply(w, steps[0], limits), steps[1..], limits, r);
    }
  }

  lemma {:induction false} StepKeepsSuperseded(w: World, step: Step, limits: Limits, r: RunId)
    requires r in w.runs && w.db.flight.runId != Some(r)
    ensures var after := Apply(w, step, limits);
      r in after.runs && after.runs[r] == w.runs[r] && after.db.flight.runId != Some(r)
  {
    if !IsFlightStep(step) && !IsRunStep(step) {
      OtherStepKeepsFlight(w, step, limits);
    }
  }

  /**
   While a run holds the flight, its lease is renewed only by its own heartbeat
   or by a refresh of the flight's totals, which any worker may do, superseded or not.
   */
  lemma {:induction false} LeaseRenewedOnlyBy(w: World, step: Step, limits: Limits, r: RunId)
    requires Inv(w) && w.db.flight.runId == Some(r)
    requires Apply(w, step, limits).db.flight.runId == Some(r)
    ensures Apply(w, step, limits).db.flight.updatedAt != w.db.flight.updatedAt ==>
              step == StepTouch(r) || step == StepRefreshTotals
  {
    if !IsFlightStep(step) && !IsRunStep(step) {
      OtherStepKeepsFlight(w, step, limits);
    }
  }

  /** Another run takes a flight over only once the lease has run out. */
  lemma {:induction false} TakeoverNeedsExpiredLease(w: World, step: Step, limits: Limits, r: RunId)
    requires Inv(w) && w.db.flight.runId == Some(r)
    ensures var after := Apply(w, step, limits);
      after.db.flight.runId != Some(r) ==>
        step == StepComplete(r)
        || ((step.StepClaimUserRun? || step.StepClaimResume?) && w.db.flight.updatedAt + limits.leaseMs <= w.now)
  {
    if !IsFlightStep(step) && !IsRunStep(step) {
      OtherStepKeepsFlight(w, step, limits);
    }
  }

  // ---- A recovery cut short -----------------------------------------------------------------

  /** Recovery failed a PNR's only live attempt but has not updated the PNR's row. */
  predicate LeftInProgress(w: World, p: PnrId) {
    p in w.db.pnrs && w.db.pnrs[p] == Pnr(AllocationInProgress, None) && !HasLive(w.db, p)
  }

  /** With nothing live, no transaction on an existing attempt touches the PNR. */
  lemma {:induction false} SettleStepLeavesPnr(w: World, step: Step, limits: Limits, p: PnrId)
    requires LeftInProgress(w, p) && (IsSettleStep(step) || step.StepMarkSent?)
    ensures p in Apply(w, step, limits).db.pnrs && Apply(w, step, limits).db.pnrs[p] == w.db.pnrs[p]
  {
    var a := step.a;
    if a < |w.db.attempts| && IsOpen(w.db.attempts[a]) {
      assert w.db.attempts[a].pnr == p ==> IsLive(w.db, p, a);
    }
  }

  lemma {:induction false} FlightStepLeavesPnr(w: World, step: Step, limits: Limits, p: PnrId)
    requires Inv(w) && LeftInProgress(w, p) && (IsFlightStep(step) || IsRunStep(step))
    ensures p in Apply(w, step, limits).db.pnrs && Apply(w, step, limits).db.pnrs[p] == w.db.pnrs[p]
  {
    assert p in w.owed;
  }

  lemma {:induction false} OtherStepLeavesPnr(w: World, step: Step, limits: Limits, p: PnrId)
    requires LeftInProgress(w, p) && step != StepRecoverPnr(p)
    requires !IsFlightStep(step) && !IsRunStep(step) && !IsSettleStep(step) && !step.StepMarkSent?
    ensures p in Apply(w, step, limits).db.pnrs && Apply(w, step, limits).db.pnrs[p] == w.db.pnrs[p]
  {
  }

  lemma {:induction false} NewAttemptIsForAnother(w: World, step: Step, limits: Limits, p: PnrId)
    requires LeftInProgress(w, p)
    ensures forall i | |w.db.attempts| <= i < |Apply(w, step, limits).db.attempts| ::
              Apply(w, step, limits).db.attempts[i].pnr != p
  {
    if IsFlightStep(step) || IsRunStep(step) {
      FlightStepKeepsAttempts(w, step, limits);
    } else if IsSettleStep(step) {
      SettleStepStartsNothing(w, step, limits);
    }
  }

  lemma {:induction false} SettleStepStartsNothing(w: World, step: Step, limits: Limits)
    requires IsSettleStep(step)
    ensures |ApplySettle(w, step, limits).db.attempts| == |w.db.attempts|
  {
  }

  lemma {:induction false} StepLeavesInProgress(w: World, step: Step, limits: Limits, p: PnrId)
    requires Inv(w) && LeftInProgress(w, p) && step != StepRecoverPnr(p)
    ensures LeftInProgress(Apply(w, step, limits), p)
  {
    var after := Apply(w, step, limits);
    if IsFlightStep(step) || IsRunStep(step) {
      FlightStepLeavesPnr(w, step, limits, p);
    } else if IsSettleStep(step) || step.StepMarkSent? {
      SettleStepLeavesPnr(w, step, limits, p);
    } else {
      OtherStepLeavesPnr(w, step, limits, p);
    }
    NewAttemptIsForAnother(w, step, limits, p);
    forall i: nat | i < |after.db.attempts|
      ensures !IsLive(after.db, p, i)
    {
      if i < |w.db.attempts| {
        assert !IsLive(w.db, p, i);
        StepEvolves(w, step, limits, i);
      }
    }
  }

  /**
   If recovery stops between its bulk update and the PNR's own update, the PNR
   stays IN_PROGRESS with nothing live: no run, booking, webhook or check ever
   frees it, and its flight never becomes ALLOCATED. Only that update does.
   */
  lemma {:induction false} CutShortRecoveryStrandsPnr(w: World, steps: seq<Step>, limits: Limits, p: PnrId)
    requires Inv(w) && LeftInProgress(w, p)
    requires StepRecoverPnr(p) !in steps
    ensures var after := Exec(w, steps, limits);
      LeftInProgress(after, p) && after.db.flight.status !in {Allocated, FlightStatus.Published}
    decreases |steps|
  {
    if steps != [] {
      StepLeavesInProgress(w, steps[0], limits, p);
      StepKeepsInv(w, steps[0], limits);
      CutShortRecoveryStrandsPnr(Apply(w, steps[0], limits), steps[1..], limits, p);
    }
  }

  // ---- Concrete runs -----------------------------------------------------------------------

  lemma {:induction false} ExecCons(w: World, step: Step, rest: seq<Step>, limits: Limits)
    ensures Exec(w, [step] + rest, limits) == Exec(Apply(w, step, limits), rest, limits)
  {
    assert ([step] + rest)[1..] == rest;
  }

  lemma {:induction false} ExecThree(
    w0: World, s1: Step, w1: World, s2: Step, w2: World, s3: Step, w3: World, limits: Limits)
    requires Apply(w0, s1, limits) == w1 && Apply(w1, s2, limits) == w2 && Apply(w2, s3, limits) == w3
    ensures Exec(w0, [s1, s2, s3], limits) == w3
  {
    ExecCons(w2, s3, [], limits);
    ExecCons(w1, s2, [s3], limits);
    ExecCons(w0, s1, [s2, s3], limits);
    assert [s1, s2, s3] == [s1] + [s2, s3] && [s2, s3] == [s2] + [s3] && [s3] == [s3] + [];
  }

  const FIRST_ATTEMPT := [StepAddPnr(0), StepConfirmPassengers, StepClaimUserRun(1), StepStartInRun(0, 1)]

  const FIRST_ATTEMPT_WORLD := World(
    Db(Flight(HotelAllocationInProgress, Some(1), 0, 0, 0),
       map[0 := Pnr(AllocationInProgress, None)],
       [Attempt(0, 1, Pending, Some(1), false, None, 0, 0)]),
    0, map[1 := RunRecord(true, 0)], [Worker(Checking, 0, 0)], {})

  /** A flight with one PNR whose first run has just started its first attempt. */
  const CLAIMED_WORLD := World(
    Db(Flight(HotelAllocationInProgress, Some(1), 0, 0, 0), map[0 := Pnr(NotAllocated, None)], []),
    0, map[1 := RunRecord(true, 0)], [], {})

  lemma {:induction false} FirstClaim(limits: Limits)
    ensures Apply(Apply(Apply(NewFlight(0), StepAddPnr(0), limits), StepConfirmPassengers, limits), StepClaimUserRun(1), limits)
         == CLAIMED_WORLD
  {
    var w1 := Apply(NewFlight(0), StepAddPnr(0), limits);
    var w2 := Apply(w1, StepConfirmPassengers, limits);
    assert |w2.db.pnrs| == 1;
  }

  lemma {:induction false} FirstStart(limits: Limits)
    ensures Apply(CLAIMED_WORLD, StepStartInRun(0, 1), limits) == FIRST_ATTEMPT_WORLD
  {
    assert !HasLive(CLAIMED_WORLD.db, 0);
    OnlyAttempt(Attempt(0, 1, Pending, Some(1), false, None, 0, 0));
  }

  lemma {:induction false} FirstAttemptRun(limits: Limits)
    ensures Exec(NewFlight(0), FIRST_ATTEMPT, limits) == FIRST_ATTEMPT_WORLD
  {
    var w1 := Apply(NewFlight(0), StepAddPnr(0), limits);
    var w2 := Apply(w1, StepConfirmPassengers, limits);
    FirstClaim(limits);
    FirstStart(limits);
    ExecCons(CLAIMED_WORLD, StepStartInRun(0, 1), [], limits);
    ExecCons(w2, StepClaimUserRun(1), [StepStartInRun(0, 1)], limits);
    ExecCons(w1, StepConfirmPassengers, [StepClaimUserRun(1), StepStartInRun(0, 1)], limits);
    ExecCons(NewFlight(0), StepAddPnr(0), FIRST_ATTEMPT[1..], limits);
  }

  lemma {:induction false} ExecAppend(w: World, first: seq<Step>, rest: seq<Step>, limits: Limits)
    ensures Exec(w, first + rest, limits) == Exec(Exec(w, first, limits), rest, limits)
    decreases |first|
  {
    if first == [] {
      assert first + rest == rest;
    } else {
      assert (first + rest)[1..] == first[1..] + rest;
      ExecAppend(Apply(w, first[0], limits), first[1..], rest, limits);
    }
  }

  /** Recovery by a run that took over, stopped after its bulk update: the unsent attempt failed, its PNR did not hear. */
  lemma {:induction false} TakeoverFails(w: World, r: RunId, limits: Limits)
    requires w.db.flight.status == HotelAllocationInProgress && w.db.flight.updatedAt + limits.leaseMs <= w.now
    requires r !in w.runs
    requires w.db.pnrs == map[0 := Pnr(AllocationInProgress, None)]
    requires |w.db.attempts| == 1
    requires var a := w.db.attempts[0]; a.status == Pending && !a.sent && a.run.Some? && a.run != Some(r)
    ensures LeftInProgress(Apply(Apply(w, StepClaimResume(r), limits), StepRecover(r, false), limits), 0)
  {
    var taken := Apply(w, StepClaimResume(r), limits);
    assert taken.db.attempts == w.db.attempts && r in taken.runs;
    var after := Apply(taken, StepRecover(r, false), limits);
    assert after.db.attempts[0].status == Failed;
  }

  /** Such a run exists: recovery fails an unsent attempt of an earlier run, then stops. */
  lemma {:induction false} RecoveryCanBeCutShort(limits: Limits)
    ensures var steps := FIRST_ATTEMPT + [StepTick(limits.leaseMs), StepClaimResume(2), StepRecover(2, false)];
      LeftInProgress(Exec(NewFlight(0), steps, limits), 0)
  {
    var w5 := Apply(FIRST_ATTEMPT_WORLD, StepTick(limits.leaseMs), limits);
    var w6 := Apply(w5, StepClaimResume(2), limits);
    TakeoverFails(w5, 2, limits);
    ExecThree(FIRST_ATTEMPT_WORLD, StepTick(limits.leaseMs), w5, StepClaimResume(2), w6,
              StepRecover(2, false), Apply(w6, StepRecover(2, false), limits), limits);
    FirstAttemptRun(limits);
    ExecAppend(NewFlight(0), FIRST_ATTEMPT,
               [StepTick(limits.leaseMs), StepClaimResume(2), StepRecover(2, false)], limits);
  }

  const BOOKED_WORLD := World(
    Db(Flight(HotelAllocationInProgress, Some(1), 0, 0, 0),
       map[0 := Pnr(Confirmed, Some(0))],
       [Attempt(0, 1, Success, Some(1), true, None, 1, 0)]),
    0, map[1 := RunRecord(true, 0)], [Worker(Answered, 1, 1)], {})

  const BOOKING := [StepMarkSent(0, 1), StepCallSupplier(0), StepLiveAnswer(0, BookedAll)]

  /** The effective attempt of a table that holds one live attempt. */
  lemma {:induction false} OnlyAttempt(row: Attempt)
    requires row.status != Failed
    ensures ResolveEffective([row], row.pnr) == Some(0)
  {
    assert [row][..0] == [];
  }

  const SENT_ROW := Attempt(0, 1, Pending, Some(1), true, None, 0, 0)

  const CLEARED_WORLD := FIRST_ATTEMPT_WORLD.(
    db := FIRST_ATTEMPT_WORLD.db.(attempts := [SENT_ROW]), workers := [Worker(Cleared, 1, 0)])

  lemma {:induction false} BookingMarked(limits: Limits)
    ensures Apply(FIRST_ATTEMPT_WORLD, StepMarkSent(0, 1), limits) == CLEARED_WORLD
  {
    OnlyAttempt(SENT_ROW);
  }

  lemma {:induction false} BookingAnswered(limits: Limits)
    ensures Apply(CALLED_WORLD, StepLiveAnswer(0, BookedAll), limits) == BOOKED_WORLD
  {
    OnlyAttempt(SENT_ROW.(status := Success, charges := 1));
  }

  const CALLED_WORLD := CLEARED_WORLD.(workers := [Worker(Booking, 1, 1)])

  lemma {:induction false} BookingCalled(limits: Limits)
    ensures Apply(CLEARED_WORLD, StepCallSupplier(0), limits) == CALLED_WORLD
  {
  }

  lemma {:induction false} BookingRun(limits: Limits)
    ensures Exec(FIRST_ATTEMPT_WORLD, BOOKING, limits) == BOOKED_WORLD
  {
    BookingMarked(limits);
    BookingCalled(limits);
    BookingAnswered(limits);
    ExecThree(FIRST_ATTEMPT_WORLD, StepMarkSent(0, 1), CLEARED_WORLD, StepCallSupplier(0), CALLED_WORLD,
              StepLiveAnswer(0, BookedAll), BOOKED_WORLD, limits);
  }

  /**
   A totals refresh keeps a dead holder's lease alive: whenever a lease has just run
   out on a flight with something booked, any new run could take the flight over;
   but after a refresh, as a repeated webhook causes it, nobody can.
   */
  lemma {:induction false} RefreshDelaysTakeover(w: World, limits: Limits, holder: RunId, r: RunId)
    requires limits.leaseMs > 0 && BookedSomething(w.db) && r !in w.runs
    requires w.db.flight.status == HotelAllocationInProgress && w.db.flight.runId == Some(holder)
    requires w.db.flight.updatedAt + limits.leaseMs <= w.now
    ensures Apply(w, StepClaimResume(r), limits).db.flight.runId == Some(r)
    ensures Apply(Apply(w, StepRefreshTotals, limits), StepClaimResume(r), limits).db.flight.runId == Some(holder)
  {
    var refreshed := Apply(w, StepRefreshTotals, limits);
    assert refreshed.db.flight == w.db.flight.(updatedAt := w.now) && refreshed.now == w.now;
  }

  lemma {:induction false} ExecParts(
    w0: World, one: seq<Step>, w1: World, two: seq<Step>, w2: World, last: Step, w3: World, limits: Limits)
    requires Exec(w0, one, limits) == w1 && Exec(w1, two, limits) == w2 && Apply(w2, last, limits) == w3
    ensures Exec(w0, one + (two + [last]), limits) == w3
  {
    ExecAppend(w0, one, two + [last], limits);
    ExecAppend(w1, two, [last], limits);
    ExecCons(w2, last, [], limits);
    assert [last] + [] == [last];
  }

  lemma {:induction false} BookedFlight(limits: Limits)
    ensures BookedSomething(BOOKED_WORLD.db)
  {
    assert BOOKED_WORLD.db.attempts[0].status == Success;
  }

  lemma {:induction false} TickOnly(w: World, ms: nat, limits: Limits)
    ensures Apply(w, StepTick(ms), limits) == w.(now := w.now + ms)
  {
  }

  /** Run 1 books its only PNR and is then silent for its whole lease. */
  lemma {:induction false} SilentRun(limits: Limits)
    ensures Exec(NewFlight(0), FIRST_ATTEMPT + (BOOKING + [StepTick(limits.leaseMs)]), limits)
         == BOOKED_WORLD.(now := limits.leaseMs)
  {
    FirstAttemptRun(limits);
    BookingRun(limits);
    TickOnly(BOOKED_WORLD, limits.leaseMs, limits);
    ExecParts(NewFlight(0), FIRST_ATTEMPT, FIRST_ATTEMPT_WORLD, BOOKING, BOOKED_WORLD,
              StepTick(limits.leaseMs), BOOKED_WORLD.(now := limits.leaseMs), limits);
  }

  /** Such a state is reached. */
  lemma {:induction false} TotalsRefreshDelaysTakeover(limits: Limits)
    requires limits.leaseMs > 0
    ensures var silent := Exec(NewFlight(0), FIRST_ATTEMPT + (BOOKING + [StepTick(limits.leaseMs)]), limits);
      && Apply(silent, StepClaimResume(2), limits).db.flight.runId == Some(2)
      && Apply(Apply(silent, StepRefreshTotals, limits), StepClaimResume(2), limits).db.flight.runId == Some(1)
  {
    SilentRun(limits);
    BookedFlight(limits);
    RefreshDelaysTakeover(BOOKED_WORLD.(now := limits.leaseMs), limits, 1, 2);
  }
}
