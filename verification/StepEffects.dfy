/**
 What each step of the booking protocol does when it takes effect, down to the
 rows: which guard lets it, what the attempt and the PNR show afterwards, and that
 nothing else changed.
 */
module StepEffects {
  import opened Common
  import opened BookingRecords
  import opened BookingProtocol
  import opened ProtocolInvariant

  // ---- The flight row ------------------------------------------------------------------

  /** Only the flight row changed. */
  predicate OnlyFlight(w: World, after: World) {
    after.db.pnrs == w.db.pnrs && after.db.attempts == w.db.attempts && after.workers == w.workers && after.owed == w.owed
    && after.now == w.now
  }

  lemma {:induction false} NoneCompleted(w: World, p: PnrId)
    requires Inv(w) && p in w.db.pnrs
    ensures w.db.pnrs[p].status in {NotAllocated, AllocationInProgress, Confirmed, AllocationFailed, NeedsManualCheck}
  {
    if Agrees(w.db, p) && HasLive(w.db, p) {
      var i: nat :| i < |w.db.attempts| && IsLive(w.db, p, i);
      assert w.db.pnrs[p] == Implied(w.db.attempts[i].status, i);
    }
  }

  lemma {:induction false} BookedIffConfirmed(w: World)
    requires Inv(w)
    ensures AllPnrsHotelBooked(w.db) <==> AllConfirmed(w.db)
  {
    forall p | p in w.db.pnrs ensures w.db.pnrs[p].status != Completed {
      NoneCompleted(w, p);
    }
  }

  /**
   A run that holds the flight completes it: the flight is free again, and ALLOCATED
   if and only if it has a PNR and every PNR is confirmed, otherwise back to
   PASSENGERS_BOOKING_CONFIRMED.
   */
  lemma {:induction false} CompletionDecides(w: World, r: RunId, limits: Limits)
    requires Inv(w) && w.db.flight.runId == Some(r)
    ensures var after := Apply(w, StepComplete(r), limits);
      && OnlyFlight(w, after) && after.db.flight.runId == None && after.db.flight.updatedAt == w.now
      && after.db.flight.status in {Allocated, PassengersBookingConfirmed}
      && (after.db.flight.status == Allocated <==>
            |w.db.pnrs| > 0 && forall p | p in w.db.pnrs :: w.db.pnrs[p].status == Confirmed)
      && after.runs == w.runs[r := w.runs[r].(completions := w.runs[r].completions + 1)]
  {
    BookedIffConfirmed(w);
    assert Apply(w, StepComplete(r), limits) == Complete(w, r);
  }

  /**
   A late confirmation promotes the flight if and only if it waits in
   PASSENGERS_BOOKING_CONFIRMED, has a PNR and every PNR is confirmed.
   */
  lemma {:induction false} PromotionIff(w: World, limits: Limits)
    requires Inv(w)
    ensures var due := w.db.flight.status == PassengersBookingConfirmed && |w.db.pnrs| > 0
                       && forall p | p in w.db.pnrs :: w.db.pnrs[p].status == Confirmed;
      Apply(w, StepPromote, limits) ==
        if due then w.(db := w.db.(flight := w.db.flight.(status := Allocated, updatedAt := w.now))) else w
  {
    BookedIffConfirmed(w);
    PromoteIs(w, limits);
  }

  lemma {:induction false} PromoteIs(w: World, limits: Limits)
    ensures Apply(w, StepPromote, limits) ==
      if AllPnrsHotelBooked(w.db) && w.db.flight.status == PassengersBookingConfirmed
      then w.(db := w.db.(flight := w.db.flight.(status := Allocated, updatedAt := w.now))) else w
  {
  }

  /** The flight is being allocated by a run whose lease still runs. */
  predicate Leased(w: World, limits: Limits) {
    w.db.flight.runId.Some? && w.now < w.db.flight.updatedAt + limits.leaseMs
  }

  /** A run takes the flight, or nothing changes. */
  predicate TakesIff(w: World, after: World, r: RunId, user: bool, may: bool) {
    if may then
      && OnlyFlight(w, after) && after.runs == w.runs[r := RunRecord(user, 0)]
      && after.db.flight == w.db.flight.(status := HotelAllocationInProgress, runId := Some(r), updatedAt := w.now)
    else after == w
  }

  /**
   A user's run takes the flight if and only if it has PNRs, is confirmed, allocated
   or left behind by a run whose lease ran out, and the user has a run left. A
   resumed run only takes a flight left behind, a check only one not in allocation.
   */
  lemma {:induction false} ClaimIff(w: World, r: RunId, limits: Limits)
    requires Inv(w) && r !in w.runs
    ensures var status := w.db.flight.status;
      var leftBehind := status == HotelAllocationInProgress && !Leased(w, limits);
      && TakesIff(w, Apply(w, StepClaimUserRun(r), limits), r, true,
           |w.db.pnrs| > 0 && w.db.flight.userRuns < 2
           && (leftBehind || status in {PassengersBookingConfirmed, Allocated}))
      && TakesIff(w, Apply(w, StepClaimResume(r), limits), r, false, leftBehind)
      && TakesIff(w, Apply(w, StepClaimCheck(r), limits), r, false, status in {PassengersBookingConfirmed, Allocated})
  {
  }

  /** The lease is renewed by its holder's heartbeat, and by a totals refresh of a flight with something booked. */
  lemma {:induction false} RenewalIff(w: World, r: RunId, limits: Limits)
    requires Inv(w)
    ensures var touched, refreshed := Apply(w, StepTouch(r), limits), Apply(w, StepRefreshTotals, limits);
      && OnlyFlight(w, touched) && OnlyFlight(w, refreshed) && touched.runs == refreshed.runs == w.runs
      && touched.db.flight == (if w.db.flight.runId == Some(r) then w.db.flight.(updatedAt := w.now) else w.db.flight)
      && refreshed.db.flight ==
           if (exists i | 0 <= i < |w.db.attempts| :: w.db.attempts[i].status == Success)
              && w.db.flight.status != FlightStatus.Published
           then w.db.flight.(updatedAt := w.now) else w.db.flight
  {
  }

  /** PNRs are added and deleted while the flight is edited; the first PNR puts it in progress. */
  lemma {:induction false} EditingIff(w: World, p: PnrId, limits: Limits)
    ensures var open := w.db.flight.status in {Draft, InProgress};
      var added, deleted := Apply(w, StepAddPnr(p), limits), Apply(w, StepDeletePnr(p), limits);
      && added.db.pnrs == (if open && p !in w.db.pnrs then w.db.pnrs[p := Pnr(NotAllocated, None)] else w.db.pnrs)
      && added.db.flight.status == (if open && p !in w.db.pnrs then InProgress else w.db.flight.status)
      && deleted.db.pnrs == (if open then w.db.pnrs - {p} else w.db.pnrs) && deleted.db.flight == w.db.flight
  {
  }

  /**
   Passengers are confirmed only on a flight in progress with a PNR and no failed
   import row; a flight is published only when allocated.
   */
  lemma {:induction false} PublishingIff(w: World, n: nat, limits: Limits)
    requires Inv(w)
    ensures Apply(w, StepImportFailures(n), limits).db == w.db.(flight := w.db.flight.(importFailures := n))
    ensures var f := w.db.flight;
      var confirmed, published := Apply(w, StepConfirmPassengers, limits), Apply(w, StepPublish, limits);
      && confirmed.db == w.db.(flight :=
           if f.status == InProgress && |w.db.pnrs| > 0 && f.importFailures == 0
           then f.(status := PassengersBookingConfirmed, updatedAt := w.now) else f)
      && published.db == w.db.(flight :=
           if f.status == Allocated then f.(status := FlightStatus.Published, updatedAt := w.now) else f)
  {
  }

  // ---- One attempt and its PNR ----------------------------------------------------------------

  /** Attempt `a` and its PNR became these rows; no other attempt, PNR or flight row changed. */
  predicate Becomes(w: World, after: World, a: AttemptId, row: Attempt, pnr: Pnr)
    requires a < |w.db.attempts|
  {
    && after.db.attempts == w.db.attempts[a := row] && after.db.flight == w.db.flight && after.owed == w.owed
    && after.db.pnrs == w.db.pnrs[row.pnr := pnr] && after.runs == w.runs && after.now == w.now
  }

  /** No attempt of the PNR is anything but FAILED. */
  predicate NothingLive(w: World, p: PnrId) {
    forall i | 0 <= i < |w.db.attempts| && w.db.attempts[i].pnr == p :: w.db.attempts[i].status == Failed
  }

  predicate MayStart(w: World, p: PnrId) {
    && p in w.db.pnrs && NothingLive(w, p)
    && w.db.pnrs[p].status in {NotAllocated, AllocationFailed, Cancelled}
  }

  lemma {:induction false} LiveIff(w: World, p: PnrId)
    ensures HasLive(w.db, p) <==> !NothingLive(w, p)
  {
    if i :| 0 <= i < |w.db.attempts| && w.db.attempts[i].pnr == p && w.db.attempts[i].status != Failed {
      assert IsLive(w.db, p, i);
    }
  }

  predicate IsNew(w: World, a: Attempt, p: PnrId, run: Option<RunId>) {
    && a == Attempt(p, a.order, Pending, run, false, None, 0, w.now)
    && forall i | 0 <= i < |w.db.attempts| && w.db.attempts[i].pnr == p :: w.db.attempts[i].order < a.order
  }

  /** A new attempt of `p` was appended: pending, unsent, of the highest order; its PNR is in progress. */
  predicate Started(w: World, after: World, p: PnrId, run: Option<RunId>) {
    && |after.db.attempts| == |w.db.attempts| + 1 && after.db.attempts[..|w.db.attempts|] == w.db.attempts
    && IsNew(w, after.db.attempts[|w.db.attempts|], p, run)
    && after.db.pnrs == w.db.pnrs[p := Pnr(AllocationInProgress, None)] && after.db.flight == w.db.flight
    && after.workers == w.workers + [BookingProtocol.Worker(Checking, 0, 0)]
    && after.runs == w.runs && after.owed == w.owed && after.now == w.now
  }

  /** An attempt starts in a run if and only if the run exists, its PNR may be booked and nothing of it is live. */
  lemma {:induction false} StartInRunIff(w: World, p: PnrId, r: RunId, limits: Limits)
    requires Inv(w)
    ensures StartsIf(w, Apply(w, StepStartInRun(p, r), limits), p, Some(r), r in w.runs && MayStart(w, p))
  {
    StartsIff(w, p, Some(r));
    assert Apply(w, StepStartInRun(p, r), limits) == if r in w.runs then Start(w, p, Some(r)) else w;
  }

  /** By hand it also takes an allocated flight, or a PNR that the run could not place. */
  lemma {:induction false} StartManualIff(w: World, p: PnrId, limits: Limits)
    requires Inv(w)
    ensures
      var allowed := w.db.flight.status in {Allocated, FlightStatus.Published}
        || (w.db.flight.status == PassengersBookingConfirmed && p in w.db.pnrs && w.db.pnrs[p].status == AllocationFailed);
      StartsIf(w, Apply(w, StepStartManual(p), limits), p, None, MayStart(w, p) && allowed)
  {
    StartsIff(w, p, None);
    assert Apply(w, StepStartManual(p), limits) == if ManualAllowed(w.db, p) then Start(w, p, None) else w;
  }

  predicate StartsIf(w: World, after: World, p: PnrId, run: Option<RunId>, may: bool) {
    if may then Started(w, after, p, run) else after == w
  }

  lemma {:induction false} StartsIff(w: World, p: PnrId, run: Option<RunId>)
    requires Inv(w)
    ensures StartsIf(w, Start(w, p, run), p, run, MayStart(w, p))
  {
    LiveIff(w, p);
    if CanStart(w.db, p) {
      StartedIs(w, p, run);
    }
  }

  lemma {:induction false} StartedIs(w: World, p: PnrId, run: Option<RunId>)
    requires Inv(w) && CanStart(w.db, p)
    ensures Started(w, Start(w, p, run), p, run)
  {
    var row := NewAttempt(w.db, p, run, w.now);
    var more := w.db.(attempts := w.db.attempts + [row]);
    assert EarlierFailed(more.attempts) by {
      LiveIff(w, p);
    }
    EffectiveIsLive(more, p);
    assert IsLive(more, p, |w.db.attempts|);
  }

  /** The row an update leaves when attempt `a` is the PNR's newest and has this status. */
  function PnrAfter(before: Pnr, status: AttemptStatus, a: AttemptId, confirmedNow: bool): Pnr {
    match status
    case Success => if confirmedNow then Pnr(Confirmed, Some(a)) else before
    case ManualCheck => Pnr(NeedsManualCheck, None)
    case Pending => Pnr(AllocationInProgress, None)
    case Failed => if before.status in {AllocationInProgress, NeedsManualCheck} then Pnr(NotAllocated, None) else before
  }

  lemma {:induction false} OnlyLive(w: World, a: AttemptId, row: Attempt)
    requires Inv(w) && a < |w.db.attempts| && w.db.attempts[a].status != Failed && row.pnr == w.db.attempts[a].pnr
    ensures var db := w.db.(attempts := w.db.attempts[a := row]);
      && EarlierFailed(db.attempts)
      && forall i: nat | i < |db.attempts| :: IsLive(db, row.pnr, i) <==> i == a && row.status != Failed
  {
    var db := w.db.(attempts := w.db.attempts[a := row]);
    assert IsLive(w.db, row.pnr, a);
    forall i: nat | i < |w.db.attempts| && IsLive(w.db, row.pnr, i) ensures i == a {
      LiveIsUnique(w.db, row.pnr, a, i);
    }
    forall i: nat | i < |w.db.attempts| && i != a ensures !IsLive(db, row.pnr, i) {
      assert !IsLive(w.db, row.pnr, i);
    }
  }

  lemma {:induction false} UpdatedPnr(w: World, a: AttemptId, row: Attempt, confirmedNow: bool)
    requires Inv(w) && a < |w.db.attempts| && w.db.attempts[a].status != Failed && row.pnr == w.db.attempts[a].pnr
    ensures var db := w.db.(attempts := w.db.attempts[a := row]);
      row.pnr in w.db.pnrs &&
      ApplyEffectiveState(db, row.pnr, confirmedNow)
      == db.(pnrs := w.db.pnrs[row.pnr := PnrAfter(w.db.pnrs[row.pnr], row.status, a, confirmedNow)])
  {
    var db := w.db.(attempts := w.db.attempts[a := row]);
    OnlyLive(w, a, row);
    EffectiveIsLive(db, row.pnr);
    assert row.status != Failed ==> IsLive(db, row.pnr, a);
  }

  /** A PNR with an open attempt is in progress or under manual check. */
  lemma {:induction false} OpenMeansInProgress(w: World, a: AttemptId)
    requires Inv(w) && a < |w.db.attempts| && IsOpen(w.db.attempts[a])
    ensures var p := w.db.attempts[a].pnr;
      p in w.db.pnrs && w.db.pnrs[p].status in {AllocationInProgress, NeedsManualCheck}
  {
    var p := w.db.attempts[a].pnr;
    assert IsLive(w.db, p, a);
    assert Agrees(w.db, p) || Stranded(w.db, p);
  }

  /** A worker about to send was cleared if its attempt is still pending, and is done otherwise. */
  predicate ClearedIfPending(w: World, after: World, a: AttemptId, orders: nat)
    requires a < |w.workers| && a < |w.db.attempts|
  {
    var row := w.db.attempts[a];
    if row.status == Pending then
      && Becomes(w, after, a, row.(sent := true, updatedAt := w.now), Pnr(AllocationInProgress, None))
      && after.workers == w.workers[a := BookingProtocol.Worker(Cleared, orders, 0)]
    else after == w.(workers := w.workers[a := w.workers[a].(phase := Gone)])
  }

  /** A worker that checked its rates may send if and only if its attempt is still pending; no other worker may. */
  lemma {:induction false} SendingIff(w: World, a: AttemptId, orders: nat, limits: Limits)
    requires Inv(w) && a < |w.workers|
    ensures var after := Apply(w, StepMarkSent(a, orders), limits);
      if w.workers[a].phase == Checking then ClearedIfPending(w, after, a, orders) else after == w
  {
    MarkEffect(w, a, orders);
    MarkIs(w, a, orders, limits);
  }

  lemma {:induction false} MarkIs(w: World, a: AttemptId, orders: nat, limits: Limits)
    ensures Apply(w, StepMarkSent(a, orders), limits) == Mark(w, a, orders)
  {
  }

  lemma {:induction false} MarkEffect(w: World, a: AttemptId, orders: nat)
    requires Inv(w) && a < |w.workers|
    ensures var after := Mark(w, a, orders);
      if w.workers[a].phase == Checking then ClearedIfPending(w, after, a, orders) else after == w
  {
    assert SendingOk(w.db.attempts[a], w.workers[a]);
    if w.workers[a].phase == Checking && w.db.attempts[a].status == Pending {
      MarkedIs(w, a);
    }
  }

  lemma {:induction false} MarkedIs(w: World, a: AttemptId)
    requires Inv(w) && a < |w.db.attempts| && w.db.attempts[a].status == Pending && !w.db.attempts[a].sent
    ensures var row := w.db.attempts[a].(sent := true, updatedAt := w.now);
      MarkSent(w.db, a, w.now) == w.db.(attempts := w.db.attempts[a := row],
                                        pnrs := w.db.pnrs[row.pnr := Pnr(AllocationInProgress, None)])
  {
    var row := w.db.attempts[a].(sent := true, updatedAt := w.now);
    UpdatedPnr(w, a, row, false);
  }

  /** A worker that may send calls the supplier order by order. */
  lemma {:induction false} CallingIff(w: World, a: AttemptId, limits: Limits)
    requires a < |w.workers|
    ensures var worker := w.workers[a];
      Apply(w, StepCallSupplier(a), limits) ==
        if worker.phase in {Cleared, Booking} && worker.supplierCalls < worker.orders
        then w.(workers := w.workers[a := worker.(phase := Booking, supplierCalls := worker.supplierCalls + 1)])
        else w
  {
    assert Apply(w, StepCallSupplier(a), limits) == CallSupplier(w, a);
  }

  /** A crashed worker takes no more steps; its attempt stays as it is. */
  lemma {:induction false} CrashingIs(w: World, a: AttemptId, limits: Limits)
    requires a < |w.workers|
    ensures Apply(w, StepCrash(a), limits) == w.(workers := w.workers[a := w.workers[a].(phase := Gone)])
  {
  }

  /** The attempt and its PNR after a result: booked, not booked, or not known. */
  predicate Settles(w: World, after: World, a: AttemptId, answer: Answer, booked: Option<FailureCode>)
    requires a < |w.db.attempts|
  {
    var row := w.db.attempts[a].(updatedAt := w.now);
    match answer
    case BookedAll =>
      Becomes(w, after, a, row.(status := Success, failure := booked, charges := 1), Pnr(Confirmed, Some(a)))
    case BookedNone(code) =>
      Becomes(w, after, a, row.(status := Failed, failure := Some(code)), Pnr(NotAllocated, None))
    case BookedUnknown(code) =>
      Becomes(w, after, a, row.(status := ManualCheck, failure := Some(code)), Pnr(NeedsManualCheck, None))
  }

  predicate NoInterruption(answer: Answer) {
    match answer
    case BookedAll => true
    case BookedNone(code) => code != InterruptedBeforeRequest && code != InterruptedAfterRequest
    case BookedUnknown(code) => code != InterruptedBeforeRequest && code != InterruptedAfterRequest
  }

  lemma {:induction false} FinishSettles(w: World, a: AttemptId, answer: Answer, s: Settlement, booked: Option<FailureCode>)
    requires Inv(w) && a < |w.db.attempts| && IsOpen(w.db.attempts[a])
    requires (s == LiveSettlement(answer) && booked == w.db.attempts[a].failure)
          || (s == LateSettlement(answer) && booked == None)
    ensures Settles(w, w.(db := Finish(w.db, a, s, w.now)), a, answer, booked)
  {
    OpenMeansInProgress(w, a);
    SettledRowIs(w, a, answer, s, booked);
    UpdatedPnr(w, a, SettledRow(w.db.attempts[a], s, w.now), s.booking);
  }

  lemma {:induction false} SettledRowIs(w: World, a: AttemptId, answer: Answer, s: Settlement, booked: Option<FailureCode>)
    requires Inv(w) && a < |w.db.attempts| && IsOpen(w.db.attempts[a])
    requires (s == LiveSettlement(answer) && booked == w.db.attempts[a].failure)
          || (s == LateSettlement(answer) && booked == None)
    ensures var row := w.db.attempts[a].(updatedAt := w.now);
      SettledRow(w.db.attempts[a], s, w.now) ==
        match answer
        case BookedAll => row.(status := Success, failure := booked, charges := 1)
        case BookedNone(code) => row.(status := Failed, failure := Some(code))
        case BookedUnknown(code) => row.(status := ManualCheck, failure := Some(code))
    ensures s.booking == answer.BookedAll?
  {
    assert ChargedOnce(w.db.attempts[a]);
  }

  /**
   A late result, from a webhook or a status check, settles an attempt if and only if
   it is open and was sent. Then attempt and PNR show the result: SUCCESS, charged
   once, with the PNR confirmed by it; FAILED with the PNR free again; or manual check.
   */
  lemma {:induction false} LateResultIff(w: World, a: AttemptId, answer: Answer, limits: Limits)
    requires Inv(w) && a < |w.db.attempts|
    ensures var row, after := w.db.attempts[a], Apply(w, StepSettle(a, answer), limits);
      && after.workers == w.workers
      && if row.status in {Pending, ManualCheck} && row.sent && NoInterruption(answer)
         then Settles(w, after, a, answer, None) else after == w
  {
    LateEffect(w, a, answer);
    assert Apply(w, StepSettle(a, answer), limits) == Settle(w, a, answer);
  }

  lemma {:induction false} LateEffect(w: World, a: AttemptId, answer: Answer)
    requires Inv(w) && a < |w.db.attempts|
    ensures var row, after := w.db.attempts[a], Settle(w, a, answer);
      && after.workers == w.workers
      && if row.status in {Pending, ManualCheck} && row.sent && NoInterruption(answer)
         then Settles(w, after, a, answer, None) else after == w
  {
    if IsOpen(w.db.attempts[a]) {
      FinishSettles(w, a, answer, LateSettlement(answer), None);
    }
  }

  /** The worker's own result counts while it books, and before it sent anything only as "not booked". */
  predicate MayAnswer(worker: BookingProtocol.Worker, answer: Answer) {
    && NoInterruption(answer)
    && (worker.phase in {Booking, Answered} || (worker.phase == Checking && answer.BookedNone?))
    && (answer == BookedAll ==> worker.supplierCalls == worker.orders)
  }

  /** The same for the worker's own result. */
  lemma {:induction false} LiveResultIff(w: World, a: AttemptId, answer: Answer, limits: Limits)
    requires Inv(w) && a < |w.db.attempts|
    ensures var row, worker, after := w.db.attempts[a], w.workers[a], Apply(w, StepLiveAnswer(a, answer), limits);
      var may := MayAnswer(worker, answer);
      && after.workers
         == (if may && worker.phase == Booking then w.workers[a := worker.(phase := Answered)] else w.workers)
      && if may && row.status in {Pending, ManualCheck} then Settles(w, after, a, answer, row.failure)
         else after == w.(workers := after.workers)
  {
    LiveEffect(w, a, answer);
    assert Apply(w, StepLiveAnswer(a, answer), limits) == LiveAnswer(w, a, answer);
  }

  lemma {:induction false} LiveEffect(w: World, a: AttemptId, answer: Answer)
    requires Inv(w) && a < |w.db.attempts|
    ensures var row, worker, after := w.db.attempts[a], w.workers[a], LiveAnswer(w, a, answer);
      var may := MayAnswer(worker, answer);
      && after.workers
         == (if may && worker.phase == Booking then w.workers[a := worker.(phase := Answered)] else w.workers)
      && if may && row.status in {Pending, ManualCheck} then Settles(w, after, a, answer, row.failure)
         else after == w.(workers := after.workers)
  {
    if IsOpen(w.db.attempts[a]) {
      FinishSettles(w, a, answer, LiveSettlement(answer), w.db.attempts[a].failure);
    }
  }

  /** Orders that settle nothing leave a sent open attempt under manual check, as a partial booking when so reported. */
  lemma {:induction false} OrdersUpdateIff(w: World, a: AttemptId, failure: FailureUpdate, limits: Limits)
    requires Inv(w) && a < |w.db.attempts| && failure in {Keep, Write(Some(PartialBooking))}
    ensures var row, after := w.db.attempts[a], Apply(w, StepUpdateOrders(a, failure), limits);
      if row.sent && row.status in {Pending, ManualCheck} then
        Becomes(w, after, a,
          row.(status := ManualCheck, updatedAt := w.now,
               failure := if failure == Keep then row.failure else Some(PartialBooking)),
          Pnr(NeedsManualCheck, None))
      else after == w
  {
    OrdersEffect(w, a, failure);
    assert Apply(w, StepUpdateOrders(a, failure), limits) == UpdateOrders(w, a, failure);
  }

  lemma {:induction false} OrdersEffect(w: World, a: AttemptId, failure: FailureUpdate)
    requires Inv(w) && a < |w.db.attempts| && failure in {Keep, Write(Some(PartialBooking))}
    ensures var row, after := w.db.attempts[a], UpdateOrders(w, a, failure);
      if row.sent && row.status in {Pending, ManualCheck} then
        Becomes(w, after, a,
          row.(status := ManualCheck, updatedAt := w.now,
               failure := if failure == Keep then row.failure else Some(PartialBooking)),
          Pnr(NeedsManualCheck, None))
      else after == w
  {
    var row := w.db.attempts[a];
    if IsOpen(row) {
      UpdatedPnr(w, a, row.(status := ManualCheck, updatedAt := w.now, failure := FailureAfter(row, failure)), false);
    }
  }

  // ---- Recovery ----------------------------------------------------------------------------------

  /** What recovery makes of an attempt left pending: to be checked if its request may be out, otherwise failed. */
  function RecoveredAs(row: Attempt, now: Time): Attempt {
    row.(updatedAt := now,
         status := if row.sent then ManualCheck else Failed,
         failure := Some(if row.sent then InterruptedAfterRequest else InterruptedBeforeRequest))
  }

  /** Left pending by another run, or by hand and not touched for too long. */
  predicate LeftPending(w: World, row: Attempt, r: RunId, limits: Limits) {
    row.status == Pending
    && match row.run
       case Some(run) => run != r
       case None => row.updatedAt + limits.staleMs < w.now
  }

  /**
   A run's recovery pass takes exactly the attempts left pending, sent or unsent as
   the pass is, and no other; their PNRs, and only those, are then owed an update.
   */
  lemma {:induction false} RecoveryPassIff(w: World, r: RunId, sent: bool, limits: Limits)
    requires Inv(w) && r in w.runs
    ensures var after := Apply(w, StepRecover(r, sent), limits);
      && after.db.pnrs == w.db.pnrs && after.db.flight == w.db.flight && after.workers == w.workers
      && |after.db.attempts| == |w.db.attempts|
      && (forall i | 0 <= i < |w.db.attempts| ::
            after.db.attempts[i] ==
              if w.db.attempts[i].sent == sent && LeftPending(w, w.db.attempts[i], r, limits)
              then RecoveredAs(w.db.attempts[i], w.now) else w.db.attempts[i])
      && (forall p :: p in after.owed <==>
            p in w.owed
            || exists i | 0 <= i < |w.db.attempts| ::
                 w.db.attempts[i].pnr == p && w.db.attempts[i].sent == sent && LeftPending(w, w.db.attempts[i], r, limits))
  {
    PassEffect(w, r, sent, limits);
    assert Apply(w, StepRecover(r, sent), limits) == Recover(w, r, sent, limits);
  }

  lemma {:induction false} PassEffect(w: World, r: RunId, sent: bool, limits: Limits)
    ensures var after := Recover(w, r, sent, limits);
      && after.db.pnrs == w.db.pnrs && after.db.flight == w.db.flight && after.workers == w.workers
      && |after.db.attempts| == |w.db.attempts|
      && (forall i | 0 <= i < |w.db.attempts| ::
            after.db.attempts[i] ==
              if w.db.attempts[i].sent == sent && LeftPending(w, w.db.attempts[i], r, limits)
              then RecoveredAs(w.db.attempts[i], w.now) else w.db.attempts[i])
      && (forall p :: p in after.owed <==>
            p in w.owed
            || exists i | 0 <= i < |w.db.attempts| ::
                 w.db.attempts[i].pnr == p && w.db.attempts[i].sent == sent && LeftPending(w, w.db.attempts[i], r, limits))
  {
    forall i | 0 <= i < |w.db.attempts|
      ensures w.db.attempts[i].sent == sent && LeftPending(w, w.db.attempts[i], r, limits)
          <==> Recovers(w.db.attempts[i], sent, r, limits, w.now)
    {
    }
  }

  /** The PNR row became what the attempts left of it imply; nothing else changed. */
  predicate RowFollows(before: Db, after: Db, p: PnrId)
    requires p in before.pnrs
  {
    && after == before.(pnrs := after.pnrs) && after.pnrs.Keys == before.pnrs.Keys
    && (forall q | q in before.pnrs && q != p :: after.pnrs[q] == before.pnrs[q])
    && (forall i | 0 <= i < |before.attempts| && before.attempts[i].pnr == p && before.attempts[i].status != Failed ::
          after.pnrs[p] == Implied(before.attempts[i].status, i))
    && ((forall i | 0 <= i < |before.attempts| && before.attempts[i].pnr == p :: before.attempts[i].status == Failed) ==>
          after.pnrs[p] == if before.pnrs[p].status == AllocationFailed then before.pnrs[p] else Pnr(NotAllocated, None))
  }

  /** The update a recovery owes a PNR: its row becomes what the attempts left of it imply. */
  lemma {:induction false} OwedUpdateIff(w: World, p: PnrId, limits: Limits)
    requires Inv(w) && p in w.db.pnrs
    ensures var after := Apply(w, StepRecoverPnr(p), limits);
      if p in w.owed then after == w.(db := after.db, owed := w.owed - {p}) && RowFollows(w.db, after.db, p)
      else after == w
  {
    RowUpdate(w, p);
    RecoverPnrIs(w, p, limits);
  }

  lemma {:induction false} RecoverPnrIs(w: World, p: PnrId, limits: Limits)
    ensures Apply(w, StepRecoverPnr(p), limits)
      == if p in w.owed then w.(db := ApplyEffectiveState(w.db, p, false), owed := w.owed - {p}) else w
  {
  }

  lemma {:induction false} RowUpdate(w: World, p: PnrId)
    requires Inv(w) && p in w.db.pnrs
    ensures RowFollows(w.db, ApplyEffectiveState(w.db, p, false), p)
  {
    EffectiveIsLive(w.db, p);
    LiveIff(w, p);
    assert Agrees(w.db, p) || Stranded(w.db, p);
    forall i | 0 <= i < |w.db.attempts| && w.db.attempts[i].pnr == p && w.db.attempts[i].status != Failed
      ensures IsLive(w.db, p, i)
    {
    }
  }

  /** A booking made by hand is recovered if and only if it is pending, stale, and still as the sweep read it. */
  lemma {:induction false} ManualRecoveryIff(w: World, a: AttemptId, sent: bool, limits: Limits)
    requires Inv(w) && a < |w.db.attempts|
    ensures var row, after := w.db.attempts[a], Apply(w, StepRecoverManual(a, sent), limits);
      if row.run == None && row.status == Pending && row.sent == sent && row.updatedAt + limits.staleMs < w.now
      then Becomes(w, after, a, RecoveredAs(row, w.now),
             if sent then Pnr(NeedsManualCheck, None) else Pnr(NotAllocated, None))
      else after == w
  {
    ManualEffect(w, a, sent);
    assert Apply(w, StepRecoverManual(a, sent), limits) == RecoverManualAttempt(w, a, sent, limits);
  }

  lemma {:induction false} ManualEffect(w: World, a: AttemptId, sent: bool)
    requires Inv(w) && a < |w.db.attempts|
    ensures var row, after := w.db.attempts[a], w.(db := RecoverManual(w.db, a, sent, w.now));
      if row.status == Pending && row.sent == sent
      then Becomes(w, after, a, RecoveredAs(row, w.now),
             if sent then Pnr(NeedsManualCheck, None) else Pnr(NotAllocated, None))
      else after == w
  {
    var row := w.db.attempts[a];
    if row.status == Pending {
      OpenMeansInProgress(w, a);
      UpdatedPnr(w, a, RecoveredRow(row, w.now), false);
    }
  }

  // ---- Plans and failures without an attempt -----------------------------------------------------------

  /** A run marks a PNR failed exactly if nothing of it is live and it may be booked; plans reset such PNRs. */
  lemma {:induction false} PnrRowIff(w: World, p: PnrId, planned: set<PnrId>, limits: Limits)
    requires Inv(w) && p in w.db.pnrs
    ensures var failed, saved := Apply(w, StepMarkPnrFailed(p), limits), Apply(w, StepSavePlans(planned), limits);
      var bookable := w.db.pnrs[p].status in {NotAllocated, AllocationFailed, Cancelled};
      && failed == w.(db := w.db.(pnrs :=
           if bookable && NothingLive(w, p) then w.db.pnrs[p := Pnr(AllocationFailed, None)] else w.db.pnrs))
      && saved.db.attempts == w.db.attempts && saved.db.flight == w.db.flight && saved.db.pnrs.Keys == w.db.pnrs.Keys
      && saved.db.pnrs[p] == if bookable && p in planned then Pnr(NotAllocated, None) else w.db.pnrs[p]
  {
    LiveIff(w, p);
  }
}
