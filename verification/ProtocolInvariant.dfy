/** Every step of the booking protocol keeps its invariant. */
module ProtocolInvariant {
  import opened Common
  import opened BookingRecords
  import opened BookingProtocol

  // ---- One PNR's state from its attempts --------------------------------------

  lemma {:induction false} LiveIsUnique(db: Db, p: PnrId, i: AttemptId, j: AttemptId)
    requires EarlierFailed(db.attempts) && IsLive(db, p, i) && IsLive(db, p, j)
    ensures i == j
  {
  }

  /** When only the newest attempt can be live, the effective attempt is the live one. */
  lemma {:induction false} EffectiveIsLive(db: Db, p: PnrId)
    requires EarlierFailed(db.attempts)
    ensures ResolveEffective(db.attempts, p).None? <==> !HasLive(db, p)
    ensures forall i: nat | i < |db.attempts| && IsLive(db, p, i) :: ResolveEffective(db.attempts, p) == Some(i)
  {
    var effective := ResolveEffective(db.attempts, p);
    if effective.Some? {
      assert IsLive(db, p, effective.value);
    }
    forall i: nat | i < |db.attempts| && IsLive(db, p, i)
      ensures effective == Some(i)
    {
      assert effective.Some?;
      LiveIsUnique(db, p, i, effective.value);
    }
  }

  /** Updating a PNR from its attempts restores agreement, unless a success is not announced. */
  lemma {:induction false} UpdateRestoresAgreement(db: Db, p: PnrId, confirmedNow: bool)
    requires EarlierFailed(db.attempts) && p in db.pnrs
    requires forall i: nat | i < |db.attempts| && IsLive(db, p, i) && db.attempts[i].status == Success ::
               confirmedNow || db.pnrs[p] == Implied(Success, i)
    requires !HasLive(db, p) ==> db.pnrs[p].status in {AllocationInProgress, NeedsManualCheck} || Unallocated(db.pnrs[p])
    ensures Agrees(ApplyEffectiveState(db, p, confirmedNow), p)
  {
    EffectiveIsLive(db, p);
    var after := ApplyEffectiveState(db, p, confirmedNow);
    assert forall i: nat | i < |db.attempts| :: IsLive(db, p, i) == IsLive(after, p, i);
    assert HasLive(db, p) == HasLive(after, p);
  }

  /** Agreement of a PNR depends only on its own row and its own attempts. */
  lemma {:induction false} AgreementIsLocal(before: Db, after: Db, q: PnrId)
    requires q in before.pnrs && q in after.pnrs && before.pnrs[q] == after.pnrs[q]
    requires forall i: nat | i < |after.attempts| && after.attempts[i].pnr == q ::
               i < |before.attempts| && before.attempts[i].pnr == q && before.attempts[i].status == after.attempts[i].status
    requires forall i: nat | i < |before.attempts| && before.attempts[i].pnr == q ::
               i < |after.attempts| && after.attempts[i].pnr == q
    ensures Agrees(before, q) ==> Agrees(after, q)
    ensures Stranded(before, q) ==> Stranded(after, q)
  {
    assert forall i: nat | i < |after.attempts| && IsLive(after, q, i) :: IsLive(before, q, i);
    if HasLive(before, q) {
      var i: nat :| i < |before.attempts| && IsLive(before, q, i);
      assert IsLive(after, q, i);
    }
  }

  // ---- Steps on one open attempt -------------------------------------------------

  /** Rewriting one open attempt and then updating its PNR keeps agreement everywhere. */
  lemma {:induction false} RewriteKeepsAgreement(db: Db, owed: set<PnrId>, a: AttemptId, row: Attempt, confirmedNow: bool)
    requires EarlierFailed(db.attempts) && AgreementHolds(db, owed)
    requires a < |db.attempts| && IsOpen(db.attempts[a]) && db.attempts[a].pnr in db.pnrs
    requires row.pnr == db.attempts[a].pnr && (row.status == Success ==> confirmedNow)
    ensures var after := ApplyEffectiveState(db.(attempts := db.attempts[a := row]), row.pnr, confirmedNow);
      && EarlierFailed(after.attempts) && AgreementHolds(after, owed) && Agrees(after, row.pnr)
      && after.pnrs.Keys == db.pnrs.Keys
      && forall q | q in db.pnrs && db.pnrs[q].status == Confirmed :: after.pnrs[q] == db.pnrs[q]
  {
    var p := row.pnr;
    var mid := db.(attempts := db.attempts[a := row]);
    var after := ApplyEffectiveState(mid, p, confirmedNow);
    assert IsLive(db, p, a);
    forall i: nat | i < |mid.attempts| && IsLive(mid, p, i)
      ensures i == a
    {
      LiveIsUnique(db, p, i, a);
    }
    UpdateRestoresAgreement(mid, p, confirmedNow);
    forall q | q in db.pnrs && q != p
      ensures Agrees(after, q) || (q in owed && Stranded(after, q))
    {
      AgreementIsLocal(db, after, q);
    }
  }

  lemma {:induction false} FinishKeepsAgreement(db: Db, owed: set<PnrId>, a: AttemptId, s: Settlement, now: Time)
    requires EarlierFailed(db.attempts) && AgreementHolds(db, owed)
    requires forall i | 0 <= i < |db.attempts| :: db.attempts[i].pnr in db.pnrs
    requires s.booking == (s.status == Success)
    ensures var after := Finish(db, a, s, now);
      && EarlierFailed(after.attempts) && AgreementHolds(after, owed) && after.pnrs.Keys == db.pnrs.Keys
      && forall q | q in db.pnrs && db.pnrs[q].status == Confirmed :: after.pnrs[q] == db.pnrs[q]
  {
    if CanFinish(db, a) {
      RewriteKeepsAgreement(db, owed, a, SettledRow(db.attempts[a], s, now), s.booking);
    }
  }

  // ---- Starting an attempt ----------------------------------------------------------

  lemma {:induction false} StartKeepsAgreement(db: Db, owed: set<PnrId>, p: PnrId, run: Option<RunId>, now: Time)
    requires EarlierFailed(db.attempts) && AgreementHolds(db, owed) && CanStart(db, p)
    ensures var after := StartAttempt(db, p, run, now);
      && EarlierFailed(after.attempts) && AgreementHolds(after, owed) && after.pnrs.Keys == db.pnrs.Keys
      && after.attempts == db.attempts + [NewAttempt(db, p, run, now)]
      && forall q | q in db.pnrs && db.pnrs[q].status == Confirmed :: after.pnrs[q] == db.pnrs[q]
  {
    var mid := db.(attempts := db.attempts + [NewAttempt(db, p, run, now)]);
    var n := |db.attempts|;
    forall i | 0 <= i < n && db.attempts[i].pnr == p
      ensures db.attempts[i].status == Failed
    {
      assert !IsLive(db, p, i);
    }
    assert EarlierFailed(mid.attempts);
    assert IsLive(mid, p, n);
    UpdateRestoresAgreement(mid, p, false);
    var after := ApplyEffectiveState(mid, p, false);
    forall q | q in db.pnrs && q != p
      ensures Agrees(after, q) || (q in owed && Stranded(after, q))
    {
      AgreementIsLocal(db, after, q);
    }
  }

  // ---- Recovery ------------------------------------------------------------------------

  lemma {:induction false} RecoverKeepsAgreement(db: Db, owed: set<PnrId>, sent: bool, r: RunId, limits: Limits, now: Time)
    requires EarlierFailed(db.attempts) && AgreementHolds(db, owed)
    ensures var after := RecoverPass(db, sent, r, limits, now);
      && EarlierFailed(after.attempts)
      && AgreementHolds(after, owed + RecoveredPnrs(db, sent, r, limits, now))
  {
    var after := RecoverPass(db, sent, r, limits, now);
    var affected := RecoveredPnrs(db, sent, r, limits, now);
    forall p | p in db.pnrs
      ensures Agrees(after, p) || (p in owed + affected && Stranded(after, p))
    {
      if p in affected {
        var i :| 0 <= i < |db.attempts| && Recovers(db.attempts[i], sent, r, limits, now) && db.attempts[i].pnr == p;
        assert IsLive(db, p, i);
        assert db.pnrs[p] == Pnr(AllocationInProgress, None);
        forall j: nat | j < |after.attempts| && IsLive(after, p, j)
          ensures j == i && after.attempts[j].status == ManualCheck
        {
          LiveIsUnique(db, p, i, j);
        }
        assert Stranded(after, p);
      } else {
        assert forall i | 0 <= i < |db.attempts| && db.attempts[i].pnr == p ::
          !Recovers(db.attempts[i], sent, r, limits, now);
        AgreementIsLocal(db, after, p);
      }
    }
  }

  lemma {:induction false} RecoverPnrKeepsAgreement(db: Db, owed: set<PnrId>, p: PnrId)
    requires EarlierFailed(db.attempts) && AgreementHolds(db, owed)
    ensures var after := ApplyEffectiveState(db, p, false);
      && after.attempts == db.attempts && after.pnrs.Keys == db.pnrs.Keys && AgreementHolds(after, owed - {p})
      && forall q | q in db.pnrs && db.pnrs[q].status == Confirmed :: after.pnrs[q] == db.pnrs[q]
  {
    if p in db.pnrs {
      var after := ApplyEffectiveState(db, p, false);
      forall i: nat | i < |db.attempts| && IsLive(db, p, i) && db.attempts[i].status == Success
        ensures db.pnrs[p] == Implied(Success, i)
      {
      }
      UpdateRestoresAgreement(db, p, false);
      EffectiveIsLive(db, p);
      forall q | q in db.pnrs && q != p
        ensures Agrees(after, q) || (q in owed - {p} && Stranded(after, q))
      {
        AgreementIsLocal(db, after, q);
      }
    }
  }

  // ---- PNR rows changed without their attempts -----------------------------------------

  lemma {:induction false} PlansKeepAgreement(db: Db, owed: set<PnrId>, planned: set<PnrId>)
    requires AgreementHolds(db, owed)
    ensures AgreementHolds(SavePlans(db, planned), owed)
  {
    var after := SavePlans(db, planned);
    forall p | p in db.pnrs
      ensures Agrees(after, p) || (p in owed && Stranded(after, p))
    {
      if after.pnrs[p] == db.pnrs[p] {
        AgreementIsLocal(db, after, p);
      } else {
        assert IsRebookable(db.pnrs[p]) && Agrees(db, p);
        assert forall i: nat | i < |db.attempts| :: IsLive(db, p, i) == IsLive(after, p, i);
      }
    }
  }

  lemma {:induction false} MarkFailedKeepsAgreement(db: Db, owed: set<PnrId>, p: PnrId)
    requires AgreementHolds(db, owed)
    ensures AgreementHolds(MarkPnrFailed(db, p), owed)
  {
    var after := MarkPnrFailed(db, p);
    forall q | q in db.pnrs
      ensures Agrees(after, q) || (q in owed && Stranded(after, q))
    {
      if after.pnrs[q] == db.pnrs[q] {
        AgreementIsLocal(db, after, q);
      } else {
        assert forall i: nat | i < |db.attempts| :: IsLive(db, q, i) == IsLive(after, q, i);
      }
    }
  }

  // ---- The whole invariant, step by step --------------------------------------------------

  /** The flight row and the run table are untouched, and no confirmed PNR changed. */
  predicate FlightKept(w: World, w': World) {
    && w'.db.flight == w.db.flight && w'.runs == w.runs && w'.db.pnrs.Keys == w.db.pnrs.Keys
    && forall q | q in w.db.pnrs && w.db.pnrs[q].status == Confirmed :: w'.db.pnrs[q] == w.db.pnrs[q]
  }

  lemma {:induction false} KeptFlightIsOk(w: World, w': World)
    requires FlightOk(w) && FlightKept(w, w')
    requires Editable(w.db.flight) ==> w'.db.attempts == [] && w'.owed == {}
    ensures FlightOk(w')
  {
    if w.db.flight.status in {Allocated, FlightStatus.Published} {
      assert |w'.db.pnrs.Keys| == |w.db.pnrs.Keys|;
    }
  }

  lemma {:induction false} FinishKeepsInv(w: World, a: AttemptId, s: Settlement)
    requires Inv(w)
    requires s.booking == (s.status == Success) && s.status != Pending
    requires s.failure != Write(Some(InterruptedBeforeRequest))
    requires s.status == Failed || WasSent(w.db, a)
    ensures Inv(w.(db := Finish(w.db, a, s, w.now)))
  {
    var w' := w.(db := Finish(w.db, a, s, w.now));
    FinishKeepsAgreement(w.db, w.owed, a, s, w.now);
    if CanFinish(w.db, a) {
      assert w'.db.attempts == w.db.attempts[a := SettledRow(w.db.attempts[a], s, w.now)];
      assert SendingOk(w'.db.attempts[a], w.workers[a]);
    }
    KeptFlightIsOk(w, w');
  }

  lemma {:induction false} UpdateOrdersKeepsInv(w: World, a: AttemptId, failure: FailureUpdate)
    requires Inv(w) && WasSent(w.db, a) && (failure == Keep || failure == Write(Some(PartialBooking)))
    ensures Inv(w.(db := UpdateOpenOrders(w.db, a, failure, w.now)))
  {
    var w' := w.(db := UpdateOpenOrders(w.db, a, failure, w.now));
    if CanFinish(w.db, a) {
      var row := w.db.attempts[a];
      var changed := row.(status := ManualCheck, updatedAt := w.now, failure := FailureAfter(row, failure));
      RewriteKeepsAgreement(w.db, w.owed, a, changed, false);
      assert w'.db.attempts == w.db.attempts[a := changed];
      assert SendingOk(changed, w.workers[a]);
    }
    KeptFlightIsOk(w, w');
  }

  lemma {:induction false} StartKeepsAttempts(w: World, p: PnrId, run: Option<RunId>)
    requires Inv(w) && CanStart(w.db, p)
    ensures AttemptsOk(Start(w, p, run))
  {
    StartKeepsAgreement(w.db, w.owed, p, run, w.now);
    var after := Start(w, p, run);
    forall i | 0 <= i < |after.db.attempts|
      ensures ChargedOnce(after.db.attempts[i]) && SendingOk(after.db.attempts[i], after.workers[i])
      ensures after.db.attempts[i].pnr in after.db.pnrs
    {
      if i < |w.db.attempts| {
        assert ChargedOnce(w.db.attempts[i]) && SendingOk(w.db.attempts[i], w.workers[i]);
      }
    }
  }

  lemma {:induction false} StartKeepsInv(w: World, p: PnrId, run: Option<RunId>)
    requires Inv(w) && !Editable(w.db.flight)
    ensures Inv(Start(w, p, run))
  {
    if CanStart(w.db, p) {
      StartKeepsAttempts(w, p, run);
      StartKeepsAgreement(w.db, w.owed, p, run, w.now);
      KeptFlightIsOk(w, Start(w, p, run));
    }
  }

  lemma {:induction false} MarkKeepsInv(w: World, a: AttemptId, orders: nat)
    requires Inv(w)
    ensures Inv(Mark(w, a, orders))
  {
    var w' := Mark(w, a, orders);
    if Working(w, a, Checking) && CanMarkSent(w.db, a) {
      var row := w.db.attempts[a].(sent := true, updatedAt := w.now);
      assert SendingOk(w.db.attempts[a], w.workers[a]);
      RewriteKeepsAgreement(w.db, w.owed, a, row, false);
      assert w'.db.attempts == w.db.attempts[a := row];
      assert SendingOk(row, w'.workers[a]);
    }
    KeptFlightIsOk(w, w');
  }

  lemma {:induction false} RecoverKeepsAttempts(w: World, r: RunId, sent: bool, limits: Limits)
    requires Inv(w)
    ensures AttemptsOk(Recover(w, r, sent, limits))
  {
    var after := Recover(w, r, sent, limits).db.attempts;
    RecoverKeepsAgreement(w.db, w.owed, sent, r, limits, w.now);
    forall i | 0 <= i < |after|
      ensures ChargedOnce(after[i]) && SendingOk(after[i], w.workers[i]) && after[i].pnr in w.db.pnrs
    {
      assert ChargedOnce(w.db.attempts[i]) && SendingOk(w.db.attempts[i], w.workers[i]);
    }
  }

  lemma {:induction false} RecoverKeepsInv(w: World, r: RunId, sent: bool, limits: Limits)
    requires Inv(w)
    ensures Inv(ApplyRow(w, StepRecover(r, sent), limits))
  {
    if r in w.runs {
      RecoverKeepsAttempts(w, r, sent, limits);
      RecoverKeepsAgreement(w.db, w.owed, sent, r, limits, w.now);
      KeptFlightIsOk(w, Recover(w, r, sent, limits));
    }
  }

  lemma {:induction false} RecoveredRowKeepsInv(w: World, a: AttemptId, sent: bool)
    requires Inv(w) && CanRecoverManual(w.db, a, sent)
    ensures Inv(w.(db := RecoverManual(w.db, a, sent, w.now)))
  {
    var w' := w.(db := RecoverManual(w.db, a, sent, w.now));
    var row := RecoveredRow(w.db.attempts[a], w.now);
    RewriteKeepsAgreement(w.db, w.owed, a, row, false);
    assert w'.db.attempts == w.db.attempts[a := row];
    assert SendingOk(w.db.attempts[a], w.workers[a]) && SendingOk(row, w.workers[a]);
    KeptFlightIsOk(w, w');
  }

  lemma {:induction false} RecoverManualKeepsInv(w: World, a: AttemptId, sent: bool, limits: Limits)
    requires Inv(w)
    ensures Inv(ApplySettle(w, StepRecoverManual(a, sent), limits))
  {
    if ManualInterrupted(w, a, limits) && CanRecoverManual(w.db, a, sent) {
      RecoveredRowKeepsInv(w, a, sent);
    }
  }

  lemma {:induction false} RecoverPnrKeepsInv(w: World, p: PnrId, limits: Limits)
    requires Inv(w)
    ensures Inv(ApplyRow(w, StepRecoverPnr(p), limits))
  {
    if p in w.owed {
      RecoverPnrKeepsAgreement(w.db, w.owed, p);
      KeptFlightIsOk(w, RecoverPnr(w, p));
    }
  }

  lemma {:induction false} SavePlansKeepsInv(w: World, planned: set<PnrId>, limits: Limits)
    requires Inv(w)
    ensures Inv(ApplyRow(w, StepSavePlans(planned), limits))
  {
    PlansKeepAgreement(w.db, w.owed, planned);
    KeptFlightIsOk(w, w.(db := SavePlans(w.db, planned)));
  }

  lemma {:induction false} MarkPnrFailedKeepsInv(w: World, p: PnrId, limits: Limits)
    requires Inv(w)
    ensures Inv(ApplyRow(w, StepMarkPnrFailed(p), limits))
  {
    MarkFailedKeepsAgreement(w.db, w.owed, p);
    KeptFlightIsOk(w, w.(db := MarkPnrFailed(w.db, p)));
  }

  /** Changing only the flight row keeps every PNR as it agrees. */
  lemma {:induction false} FlightRowKeepsAgreement(db: Db, flight: Flight, owed: set<PnrId>)
    requires AgreementHolds(db, owed)
    ensures AgreementHolds(db.(flight := flight), owed)
  {
    forall p | p in db.pnrs
      ensures Agrees(db.(flight := flight), p) || (p in owed && Stranded(db.(flight := flight), p))
    {
      AgreementIsLocal(db, db.(flight := flight), p);
    }
  }

  /** A booked flight has every PNR confirmed: nothing ever completes or cancels a PNR. */
  lemma {:induction false} BookedMeansConfirmed(w: World)
    requires Inv(w)
    ensures AllPnrsHotelBooked(w.db) <==> AllConfirmed(w.db)
  {
    forall p | p in w.db.pnrs
      ensures w.db.pnrs[p].status != Completed
    {
      if Agrees(w.db, p) && HasLive(w.db, p) {
        var i: nat :| i < |w.db.attempts| && IsLive(w.db, p, i);
      }
    }
  }

  lemma {:induction false} ClaimKeepsInv(w: World, r: RunId, user: bool, allowed: set<FlightStatus>, limits: Limits)
    requires Inv(w)
    requires allowed <= {PassengersBookingConfirmed, HotelAllocationInProgress, Allocated}
    ensures Inv(Claim(w, r, user, allowed, limits))
  {
    var w' := Claim(w, r, user, allowed, limits);
    FlightRowKeepsAgreement(w.db, w'.db.flight, w.owed);
  }

  lemma {:induction false} UserClaimKeepsInv(w: World, r: RunId, limits: Limits)
    requires Inv(w)
    ensures Inv(ApplyRun(w, StepClaimUserRun(r), limits))
  {
    ClaimKeepsInv(w, r, true, {PassengersBookingConfirmed, HotelAllocationInProgress, Allocated}, limits);
  }

  lemma {:induction false} ResumeClaimKeepsInv(w: World, r: RunId, limits: Limits)
    requires Inv(w)
    ensures Inv(ApplyRun(w, StepClaimResume(r), limits))
  {
    ClaimKeepsInv(w, r, false, {HotelAllocationInProgress}, limits);
  }

  lemma {:induction false} CheckClaimKeepsInv(w: World, r: RunId, limits: Limits)
    requires Inv(w)
    ensures Inv(ApplyRun(w, StepClaimCheck(r), limits))
  {
    ClaimKeepsInv(w, r, false, {PassengersBookingConfirmed, Allocated}, limits);
  }

  lemma {:induction false} CompleteKeepsInv(w: World, r: RunId, limits: Limits)
    requires Inv(w)
    ensures Inv(ApplyRun(w, StepComplete(r), limits))
  {
    FlightRowKeepsAgreement(w.db, Complete(w, r).db.flight, w.owed);
    BookedMeansConfirmed(w);
  }

  lemma {:induction false} LeaseRowKeepsInv(w: World, t: Time)
    requires Inv(w)
    ensures Inv(w.(db := w.db.(flight := w.db.flight.(updatedAt := t))))
  {
    FlightRowKeepsAgreement(w.db, w.db.flight.(updatedAt := t), w.owed);
  }

  lemma {:induction false} TouchKeepsInv(w: World, r: RunId)
    requires Inv(w)
    ensures Inv(Touch(w, r))
  {
    if w.db.flight.status == HotelAllocationInProgress && w.db.flight.runId == Some(r) {
      LeaseRowKeepsInv(w, w.now);
      assert Touch(w, r) == w.(db := w.db.(flight := w.db.flight.(updatedAt := w.now)));
    } else {
      assert Touch(w, r) == w;
    }
  }

  lemma {:induction false} RefreshKeepsInv(w: World)
    requires Inv(w)
    ensures Inv(Refresh(w))
  {
    if BookedSomething(w.db) && w.db.flight.status !in {Paid, FlightStatus.Published} {
      LeaseRowKeepsInv(w, w.now);
      assert Refresh(w) == w.(db := w.db.(flight := w.db.flight.(updatedAt := w.now)));
    } else {
      assert Refresh(w) == w;
    }
  }

  lemma {:induction false} PromoteKeepsInv(w: World)
    requires Inv(w)
    ensures Inv(Promote(w))
  {
    if AllPnrsHotelBooked(w.db) && w.db.flight.status == PassengersBookingConfirmed {
      BookedMeansConfirmed(w);
      FlightRowKeepsAgreement(w.db, w.db.flight.(status := Allocated, updatedAt := w.now), w.owed);
    } else {
      assert Promote(w) == w;
    }
  }

  lemma {:induction false} PublishKeepsInv(w: World)
    requires Inv(w)
    ensures Inv(ApplyFlight(w, StepPublish))
  {
    FlightRowKeepsAgreement(w.db, Publish(w.db, w.now).flight, w.owed);
  }

  lemma {:induction false} ConfirmKeepsInv(w: World)
    requires Inv(w)
    ensures Inv(ApplyFlight(w, StepConfirmPassengers))
  {
    FlightRowKeepsAgreement(w.db, ConfirmPassengers(w.db, w.now).flight, w.owed);
  }

  lemma {:induction false} AddPnrKeepsInv(w: World, p: PnrId)
    requires Inv(w)
    ensures Inv(ApplyFlight(w, StepAddPnr(p)))
  {
  }

  lemma {:induction false} DeletePnrKeepsInv(w: World, p: PnrId)
    requires Inv(w)
    ensures Inv(ApplyFlight(w, StepDeletePnr(p)))
  {
  }

  lemma {:induction false} ImportFailuresKeepInv(w: World, n: nat)
    requires Inv(w)
    ensures Inv(ApplyFlight(w, StepImportFailures(n)))
  {
    FlightRowKeepsAgreement(w.db, w.db.flight.(importFailures := n), w.owed);
  }

  /** A worker may move on as long as its row allows it. */
  lemma {:induction false} WorkerKeepsInv(w: World, a: AttemptId, worker: Worker)
    requires Inv(w) && a < |w.workers| && SendingOk(w.db.attempts[a], worker)
    ensures Inv(w.(workers := w.workers[a := worker]))
  {
  }

  lemma {:induction false} CallKeepsInv(w: World, a: AttemptId)
    requires Inv(w)
    ensures Inv(CallSupplier(w, a))
  {
    if (Working(w, a, Cleared) || Working(w, a, Booking)) && w.workers[a].supplierCalls < w.workers[a].orders {
      assert SendingOk(w.db.attempts[a], w.workers[a]);
      WorkerKeepsInv(w, a, w.workers[a].(phase := Booking, supplierCalls := w.workers[a].supplierCalls + 1));
    }
  }

  lemma {:induction false} CrashKeepsInv(w: World, a: AttemptId)
    requires Inv(w)
    ensures Inv(ApplyWorker(w, StepCrash(a)))
  {
    if a < |w.workers| {
      assert SendingOk(w.db.attempts[a], w.workers[a]);
      WorkerKeepsInv(w, a, w.workers[a].(phase := Gone));
    }
  }

  lemma {:induction false} LiveAnswerKeepsInv(w: World, a: AttemptId, answer: Answer, limits: Limits)
    requires Inv(w)
    ensures Inv(ApplySettle(w, StepLiveAnswer(a, answer), limits))
  {
    if LiveAllowed(w, a, answer) {
      assert SendingOk(w.db.attempts[a], w.workers[a]);
      FinishKeepsInv(w, a, LiveSettlement(answer));
      if Working(w, a, Booking) {
        var settled := w.(db := Finish(w.db, a, LiveSettlement(answer), w.now));
        assert SendingOk(settled.db.attempts[a], settled.workers[a]);
        WorkerKeepsInv(settled, a, settled.workers[a].(phase := Answered));
      }
    }
  }

  lemma {:induction false} SettleKeepsInv(w: World, a: AttemptId, answer: Answer, limits: Limits)
    requires Inv(w)
    ensures Inv(ApplySettle(w, StepSettle(a, answer), limits))
  {
    if AnswerAllowed(answer) && WasSent(w.db, a) {
      FinishKeepsInv(w, a, LateSettlement(answer));
    }
  }

  lemma {:induction false} UpdateKeepsInv(w: World, a: AttemptId, failure: FailureUpdate, limits: Limits)
    requires Inv(w)
    ensures Inv(ApplySettle(w, StepUpdateOrders(a, failure), limits))
  {
    if WasSent(w.db, a) && (failure == Keep || failure == Write(Some(PartialBooking))) {
      UpdateOrdersKeepsInv(w, a, failure);
    }
  }

  lemma {:induction false} StartInRunKeepsInv(w: World, p: PnrId, r: RunId)
    requires Inv(w)
    ensures Inv(ApplyWorker(w, StepStartInRun(p, r)))
  {
    if r in w.runs { StartKeepsInv(w, p, Some(r)); }
  }

  lemma {:induction false} StartManualKeepsInv(w: World, p: PnrId)
    requires Inv(w)
    ensures Inv(ApplyWorker(w, StepStartManual(p)))
  {
    if ManualAllowed(w.db, p) { StartKeepsInv(w, p, None); }
  }

  // ---- Every step -------------------------------------------------------------------------

  lemma {:induction false} FlightStepKeepsInv(w: World, step: Step)
    requires Inv(w) && IsFlightStep(step)
    ensures Inv(ApplyFlight(w, step))
  {
    match step
    case StepAddPnr(p) => AddPnrKeepsInv(w, p);
    case StepDeletePnr(p) => DeletePnrKeepsInv(w, p);
    case StepImportFailures(n) => ImportFailuresKeepInv(w, n);
    case StepConfirmPassengers => ConfirmKeepsInv(w);
    case StepPublish => PublishKeepsInv(w);
    case StepTouch(r) => TouchKeepsInv(w, r);
    case StepRefreshTotals => RefreshKeepsInv(w);
    case StepPromote => PromoteKeepsInv(w);
  }

  lemma {:induction false} RunStepKeepsInv(w: World, step: Step, limits: Limits)
    requires Inv(w) && IsRunStep(step)
    ensures Inv(ApplyRun(w, step, limits))
  {
    match step
    case StepClaimUserRun(r) => UserClaimKeepsInv(w, r, limits);
    case StepClaimResume(r) => ResumeClaimKeepsInv(w, r, limits);
    case StepClaimCheck(r) => CheckClaimKeepsInv(w, r, limits);
    case StepComplete(r) => CompleteKeepsInv(w, r, limits);
  }

  lemma {:induction false} SettleStepKeepsInv(w: World, step: Step, limits: Limits)
    requires Inv(w) && IsSettleStep(step)
    ensures Inv(ApplySettle(w, step, limits))
  {
    match step
    case StepLiveAnswer(a, answer) => LiveAnswerKeepsInv(w, a, answer, limits);
    case StepSettle(a, answer) => SettleKeepsInv(w, a, answer, limits);
    case StepUpdateOrders(a, failure) => UpdateKeepsInv(w, a, failure, limits);
    case StepRecoverManual(a, sent) => RecoverManualKeepsInv(w, a, sent, limits);
  }

  lemma {:induction false} WorkerStepKeepsInv(w: World, step: Step)
    requires Inv(w) && IsWorkerStep(step)
    ensures Inv(ApplyWorker(w, step))
  {
    match step
    case StepStartInRun(p, r) => StartInRunKeepsInv(w, p, r);
    case StepStartManual(p) => StartManualKeepsInv(w, p);
    case StepMarkSent(a, orders) => MarkKeepsInv(w, a, orders);
    case StepCallSupplier(a) => CallKeepsInv(w, a);
    case StepCrash(a) => CrashKeepsInv(w, a);
  }

  lemma {:induction false} RowStepKeepsInv(w: World, step: Step, limits: Limits)
    requires Inv(w) && IsRowStep(step)
    ensures Inv(ApplyRow(w, step, limits))
  {
    match step
    case StepTick(_) =>
    case StepSavePlans(planned) => SavePlansKeepsInv(w, planned, limits);
    case StepMarkPnrFailed(p) => MarkPnrFailedKeepsInv(w, p, limits);
    case StepRecover(r, sent) => RecoverKeepsInv(w, r, sent, limits);
    case StepRecoverPnr(p) => RecoverPnrKeepsInv(w, p, limits);
  }

  /** Every step keeps the invariant. */
  lemma {:induction false} StepKeepsInv(w: World, step: Step, limits: Limits)
    requires Inv(w)
    ensures Inv(Apply(w, step, limits))
  {
    if IsFlightStep(step) {
      FlightStepKeepsInv(w, step);
    } else if IsRunStep(step) {
      RunStepKeepsInv(w, step, limits);
    } else if IsSettleStep(step) {
      SettleStepKeepsInv(w, step, limits);
    } else if IsWorkerStep(step) {
      WorkerStepKeepsInv(w, step);
    } else {
      RowStepKeepsInv(w, step, limits);
    }
  }

  /** The invariant holds in every state of every interleaving. */
  lemma {:induction false} RunKeepsInv(w: World, steps: seq<Step>, limits: Limits)
    requires Inv(w)
    ensures Inv(Exec(w, steps, limits))
    decreases |steps|
  {
    if steps != [] {
      StepKeepsInv(w, steps[0], limits);
      RunKeepsInv(Apply(w, steps[0], limits), steps[1..], limits);
    }
  }

  lemma {:induction false} NewFlightInv(now: Time)
    ensures Inv(NewFlight(now))
  {
  }
}
