/**
 The cancelled-flights repository: rows updated in place, one method per
 transaction, each proved to do exactly what the transaction function of
 `BookingRecords` says.
 */
module Repository {
  import opened Common
  import opened BookingRecords

  class CancelledFlightsRepository {
    var flight: Flight
    var pnrs: map<PnrId, Pnr>
    var attempts: seq<Attempt>
    const limits: Limits

    constructor (flight: Flight, limits: Limits)
      ensures Rows() == Db(flight, map[], []) && this.limits == limits
    {
      this.flight := flight;
      this.pnrs := map[];
      this.attempts := [];
      this.limits := limits;
    }

    function Rows(): Db
      reads this
    {
      Db(flight, pnrs, attempts)
    }

    // ---- Queries ----------------------------------------------------------------

    method FindLatest(p: PnrId, status: AttemptStatus) returns (latest: Option<AttemptId>)
      ensures latest == Latest(attempts, p, status)
    {
      latest := None;
      for i := 0 to |attempts|
        invariant latest == Latest(attempts[..i], p, status)
      {
        assert attempts[..i + 1][..i] == attempts[..i];
        var row := attempts[i];
        if row.pnr == p && row.status == status && (latest == None || attempts[latest.value].order < row.order) {
          latest := Some(i);
        }
      }
      assert attempts[..|attempts|] == attempts;
    }

    method FindActive(p: PnrId) returns (found: bool)
      ensures found == HasLive(Rows(), p)
    {
      found := false;
      for i := 0 to |attempts|
        invariant found == exists j: nat | j < i :: IsLive(Rows(), p, j)
      {
        if attempts[i].pnr == p && attempts[i].status != Failed {
          assert IsLive(Rows(), p, i);
          found := true;
        }
      }
    }

    method FindMaxOrder(p: PnrId) returns (max: nat)
      ensures max == MaxOrder(attempts, p)
    {
      max := 0;
      for i := 0 to |attempts|
        invariant max == MaxOrder(attempts[..i], p)
      {
        assert attempts[..i + 1][..i] == attempts[..i];
        if attempts[i].pnr == p && attempts[i].order > max {
          max := attempts[i].order;
        }
      }
      assert attempts[..|attempts|] == attempts;
    }

    method AreAllPnrsHotelBooked() returns (all: bool)
      ensures all == AllPnrsHotelBooked(Rows())
    {
      var rest := pnrs.Keys;
      var total, unbooked := 0, 0;
      while rest != {}
        invariant rest <= pnrs.Keys
        invariant total == |pnrs.Keys| - |rest|
        invariant (unbooked == 0) == forall p | p in pnrs.Keys - rest :: pnrs[p].status in {Confirmed, Completed}
        invariant unbooked >= 0
        decreases |rest|
      {
        var p :| p in rest;
        ghost var before := pnrs.Keys - rest;
        rest := rest - {p};
        assert pnrs.Keys - rest == before + {p};
        total := total + 1;
        if pnrs[p].status != Confirmed && pnrs[p].status != Completed {
          unbooked := unbooked + 1;
        }
      }
      all := total > 0 && unbooked == 0;
    }

    // ---- PNR and attempt transactions ---------------------------------------------

    method UpdatePnrFromAttempts(p: PnrId, confirmedNow: bool)
      modifies this`pnrs
      ensures Rows() == ApplyEffectiveState(old(Rows()), p, confirmedNow)
    {
      if p !in pnrs { return; }
      var effective := FindLatest(p, Success);
      if effective == None {
        effective := FindLatest(p, ManualCheck);
        if effective == None {
          effective := FindLatest(p, Pending);
        }
      }
      if effective == None {
        if pnrs[p].status == AllocationInProgress || pnrs[p].status == NeedsManualCheck {
          pnrs := pnrs[p := Pnr(NotAllocated, None)];
        }
      } else if attempts[effective.value].status == Success {
        if confirmedNow {
          pnrs := pnrs[p := Pnr(Confirmed, effective)];
        }
      } else if attempts[effective.value].status == ManualCheck {
        pnrs := pnrs[p := Pnr(NeedsManualCheck, None)];
      } else {
        pnrs := pnrs[p := Pnr(AllocationInProgress, None)];
      }
    }

    method StartBookingAttempt(p: PnrId, run: Option<RunId>, now: Time) returns (started: Option<AttemptId>)
      modifies this
      ensures Rows() == StartAttempt(old(Rows()), p, run, now)
      ensures started == if CanStart(old(Rows()), p) then Some(|old(attempts)|) else None
    {
      var active := FindActive(p);
      if active || p !in pnrs || !IsRebookable(pnrs[p]) {
        return None;
      }
      var max := FindMaxOrder(p);
      started := Some(|attempts|);
      attempts := attempts + [Attempt(p, max + 1, Pending, run, false, None, 0, now)];
      UpdatePnrFromAttempts(p, false);
    }

    method MarkAttemptRequestSent(a: AttemptId, now: Time) returns (marked: bool)
      modifies this
      ensures Rows() == MarkSent(old(Rows()), a, now)
      ensures marked == CanMarkSent(old(Rows()), a)
    {
      if |attempts| <= a { return false; }
      marked := attempts[a].status == Pending && !attempts[a].sent;
      if marked {
        attempts := attempts[a := attempts[a].(sent := true, updatedAt := now)];
        UpdatePnrFromAttempts(attempts[a].pnr, false);
      }
    }

    method FinishBookingAttempt(a: AttemptId, s: Settlement, now: Time) returns (updated: bool)
      modifies this
      ensures Rows() == Finish(old(Rows()), a, s, now)
      ensures updated == CanFinish(old(Rows()), a)
    {
      if |attempts| <= a || attempts[a].status == Success || attempts[a].status == Failed {
        return false;
      }
      var row := attempts[a].(status := s.status, updatedAt := now);
      if s.failure != Keep {
        row := row.(failure := s.failure.code);
      }
      if s.booking {
        if s.status == Success {
          row := row.(charges := row.charges + 1);
        }
      }
      attempts := attempts[a := row];
      UpdatePnrFromAttempts(row.pnr, s.booking);
      updated := true;
    }

    method UpdateOpenAttemptOrders(a: AttemptId, failure: FailureUpdate, now: Time) returns (updated: bool)
      modifies this
      ensures Rows() == UpdateOpenOrders(old(Rows()), a, failure, now)
      ensures updated == CanFinish(old(Rows()), a)
    {
      if |attempts| <= a || attempts[a].status == Success || attempts[a].status == Failed {
        return false;
      }
      var row := attempts[a].(status := ManualCheck, updatedAt := now);
      if failure != Keep {
        row := row.(failure := failure.code);
      }
      attempts := attempts[a := row];
      UpdatePnrFromAttempts(row.pnr, false);
      updated := true;
    }

    method MarkPnrAsFailed(p: PnrId) returns (marked: bool)
      modifies this`pnrs
      ensures Rows() == MarkPnrFailed(old(Rows()), p)
    {
      var active := FindActive(p);
      marked := p in pnrs && !active && IsRebookable(pnrs[p]);
      if marked {
        pnrs := pnrs[p := Pnr(AllocationFailed, None)];
      }
    }

    method SavePnrPlans(planned: seq<PnrId>)
      modifies this`pnrs
      ensures Rows() == SavePlans(old(Rows()), set p | p in planned)
    {
      ghost var before := pnrs;
      for i := 0 to |planned|
        invariant pnrs.Keys == before.Keys
        invariant forall p | p in pnrs ::
          pnrs[p] == if p in planned[..i] && IsRebookable(before[p]) then Pnr(NotAllocated, None) else before[p]
      {
        var p := planned[i];
        if p in pnrs && IsRebookable(pnrs[p]) {
          pnrs := pnrs[p := Pnr(NotAllocated, None)];
        }
      }
    }

    // ---- Recovery -------------------------------------------------------------------

    method RecoverAttempts(sent: bool, run: RunId, now: Time) returns (affected: set<PnrId>)
      modifies this`attempts
      ensures Rows() == RecoverPass(old(Rows()), sent, run, limits, now)
      ensures affected == RecoveredPnrs(old(Rows()), sent, run, limits, now)
    {
      ghost var before := Rows();
      affected := {};
      for i := 0 to |attempts|
        invariant |attempts| == |before.attempts|
        invariant flight == before.flight && pnrs == before.pnrs
        invariant forall j | i <= j < |attempts| :: attempts[j] == before.attempts[j]
        invariant forall j | 0 <= j < i :: attempts[j] == RecoverPass(before, sent, run, limits, now).attempts[j]
        invariant affected ==
          set j | 0 <= j < i && Recovers(before.attempts[j], sent, run, limits, now) :: before.attempts[j].pnr
      {
        assert attempts[i] == before.attempts[i];
        if Recovers(attempts[i], sent, run, limits, now) {
          affected := affected + {attempts[i].pnr};
          attempts := attempts[i := RecoveredRow(attempts[i], now)];
        }
      }
    }

    /** Both bulk updates, then each affected PNR in a transaction of its own. */
    method RecoverInterruptedAttempts(run: RunId, now: Time) returns (affected: set<PnrId>)
      modifies this
      ensures var after := RecoverPass(RecoverPass(old(Rows()), false, run, limits, now), true, run, limits, now);
        && affected == RecoveredPnrs(old(Rows()), false, run, limits, now)
             + RecoveredPnrs(RecoverPass(old(Rows()), false, run, limits, now), true, run, limits, now)
        && flight == old(flight) && attempts == after.attempts && pnrs.Keys == old(pnrs).Keys
        && forall p | p in pnrs ::
             pnrs[p] == if p in affected then ApplyEffectiveState(after, p, false).pnrs[p] else old(pnrs)[p]
    {
      var unsent := RecoverAttempts(false, run, now);
      var sent := RecoverAttempts(true, run, now);
      affected := unsent + sent;
      ghost var after := Rows();
      var rest := affected;
      while rest != {}
        invariant rest <= affected
        invariant flight == after.flight && attempts == after.attempts && pnrs.Keys == after.pnrs.Keys
        invariant forall p | p in pnrs ::
          pnrs[p] == if p in affected - rest then ApplyEffectiveState(after, p, false).pnrs[p] else after.pnrs[p]
        decreases |rest|
      {
        var p :| p in rest;
        UpdatePnrFromAttempts(p, false);
        rest := rest - {p};
      }
    }

    method RecoverManualAttempt(a: AttemptId, sent: bool, now: Time) returns (done: bool)
      modifies this
      ensures Rows() == RecoverManual(old(Rows()), a, sent, now)
      ensures done == CanRecoverManual(old(Rows()), a, sent)
    {
      done := a < |attempts| && attempts[a].status == Pending && attempts[a].sent == sent;
      if done {
        attempts := attempts[a := RecoveredRow(attempts[a], now)];
        UpdatePnrFromAttempts(attempts[a].pnr, false);
      }
    }

    // ---- Flight transactions -----------------------------------------------------------

    method ClaimFlightAllocationRun(
      run: RunId, allowed: set<FlightStatus>, maxUserRuns: Option<nat>, now: Time) returns (result: ClaimResult)
      modifies this`flight
      ensures result == ClaimOutcome(old(flight), allowed, maxUserRuns, limits, now)
      ensures Rows() == ClaimRun(old(Rows()), run, allowed, maxUserRuns, limits, now)
    {
      if flight.status == HotelAllocationInProgress && now < flight.updatedAt + limits.leaseMs {
        return Running;
      }
      if flight.status !in allowed {
        return WrongStatus;
      }
      if maxUserRuns != None && flight.userRuns >= maxUserRuns.value {
        return LimitReached;
      }
      result := Claimed(flight.status);
      flight := flight.(status := HotelAllocationInProgress, runId := Some(run), updatedAt := now);
    }

    method TouchFlightAllocationRun(run: RunId, now: Time)
      modifies this`flight
      ensures Rows() == TouchRun(old(Rows()), run, now)
    {
      if flight.status == HotelAllocationInProgress && flight.runId == Some(run) {
        flight := flight.(updatedAt := now);
      }
    }

    method RunReachedSupplier(run: RunId) returns (found: bool)
      ensures found == ReachedSupplier(attempts, run)
    {
      found := false;
      for i := 0 to |attempts|
        invariant found == exists j | 0 <= j < i :: attempts[j].run == Some(run) && attempts[j].sent
      {
        if attempts[i].run == Some(run) && attempts[i].sent {
          found := true;
        }
      }
    }

    method CompleteFlightAllocationRun(run: RunId, countUserRun: bool, now: Time)
      modifies this`flight
      ensures Rows() == CompleteRun(old(Rows()), run, countUserRun, now)
    {
      if flight.runId != Some(run) { return; }
      var all := AreAllPnrsHotelBooked();
      var reached := RunReachedSupplier(run);
      flight := flight.(
        status := if all then Allocated else PassengersBookingConfirmed,
        runId := None,
        updatedAt := now);
      if countUserRun && reached {
        flight := flight.(userRuns := flight.userRuns + 1);
      }
    }

    method PromoteFlightAfterLateConfirmation(now: Time) returns (promoted: bool)
      modifies this`flight
      ensures Rows() == PromoteFlight(old(Rows()), now)
    {
      var all := AreAllPnrsHotelBooked();
      promoted := all && flight.status == PassengersBookingConfirmed;
      if promoted {
        flight := flight.(status := Allocated, updatedAt := now);
      }
    }
  }
}
