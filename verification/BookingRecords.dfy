/**
 The rows of one cancelled flight (the flight, its PNRs, their hotel booking
 attempts) and every repository transaction that changes them, each as a
 function from rows to rows. `Repository.dfy` runs the same transactions on
 rows updated in place; `BookingProtocol.dfy` interleaves them.
 */
module BookingRecords {
  import opened Common

  type PnrId = nat
  type RunId = nat
  /** Attempt ids are handed out in order, so an id is a position in the attempts table. */
  type AttemptId = nat
  type Time = nat

  datatype FlightStatus =
    | Draft
    | InProgress
    | PassengersBookingConfirmed
    | HotelAllocationInProgress
    | Allocated
    | Paid
    | Published

  datatype AllocationStatus =
    | NotAllocated      // "draft"
    | AllocationInProgress
    | Confirmed
    | AllocationFailed
    | NeedsManualCheck
    | Cancelled
    | Completed

  datatype AttemptStatus = Pending | Success | Failed | ManualCheck

  datatype FailureCode =
    | RateCheckFailed
    | RateMismatch
    | MixedHotels
    | SupplierRejected
    | OutcomeUnknown
    | PartialBooking
    | ProviderUnconfirmed
    | SaveFailed
    | InterruptedBeforeRequest
    | InterruptedAfterRequest
    | NoFinalStatus
    | GroupBookingRestricted
    | HotelPayableTaxes
    | InsufficientWalletBalance
    | WalletReserveFailed

  datatype Flight = Flight(
    status: FlightStatus,
    runId: Option<RunId>,
    userRuns: nat,
    updatedAt: Time,
    importFailures: nat)

  datatype Pnr = Pnr(status: AllocationStatus, confirmed: Option<AttemptId>)

  /** `charges` counts the wallet debits booked for this attempt. */
  datatype Attempt = Attempt(
    pnr: PnrId,
    order: nat,
    status: AttemptStatus,
    run: Option<RunId>,
    sent: bool,
    failure: Option<FailureCode>,
    charges: nat,
    updatedAt: Time)

  datatype Db = Db(flight: Flight, pnrs: map<PnrId, Pnr>, attempts: seq<Attempt>)

  datatype Limits = Limits(leaseMs: nat, staleMs: nat)

  // ---- Pure rules -----------------------------------------------------------

  predicate IsRebookable(pnr: Pnr) {
    pnr.status in {NotAllocated, AllocationFailed, Cancelled}
  }

  predicate IsOpen(a: Attempt) {
    a.status == Pending || a.status == ManualCheck
  }

  predicate IsSettled(a: Attempt) {
    a.status == Success || a.status == Failed
  }

  /** A PNR's attempt with this status and the highest attempt order. */
  function Latest(attempts: seq<Attempt>, p: PnrId, status: AttemptStatus): (r: Option<AttemptId>)
    ensures r.Some? ==> r.value < |attempts| && attempts[r.value].pnr == p && attempts[r.value].status == status
    ensures r.Some? ==> forall i :: 0 <= i < |attempts| && attempts[i].pnr == p && attempts[i].status == status
                                ==> attempts[i].order <= attempts[r.value].order
    ensures r.None? ==> forall i :: 0 <= i < |attempts| && attempts[i].pnr == p ==> attempts[i].status != status
  {
    if attempts == [] then None else
      var n := |attempts| - 1;
      var best := Latest(attempts[..n], p, status);
      if attempts[n].pnr == p && attempts[n].status == status
         && (best.None? || attempts[best.value].order < attempts[n].order)
      then Some(n) else best
  }

  /** The attempt that decides a PNR's state: success first, then manual check, then pending. */
  function ResolveEffective(attempts: seq<Attempt>, p: PnrId): Option<AttemptId> {
    var success := Latest(attempts, p, Success);
    var manual := Latest(attempts, p, ManualCheck);
    if success.Some? then success else if manual.Some? then manual else Latest(attempts, p, Pending)
  }

  /** The PNR state its attempts imply; None leaves the row as it is. */
  function EffectiveState(pnr: Pnr, attempts: seq<Attempt>, p: PnrId, confirmedNow: bool): Option<Pnr> {
    var effective := ResolveEffective(attempts, p);
    if effective.None? then
      if pnr.status in {AllocationInProgress, NeedsManualCheck} then Some(Pnr(NotAllocated, None)) else None
    else
      match attempts[effective.value].status
      case Success => if confirmedNow then Some(Pnr(Confirmed, effective)) else None
      case ManualCheck => Some(Pnr(NeedsManualCheck, None))
      case _ => Some(Pnr(AllocationInProgress, None))
  }

  predicate IsLive(db: Db, p: PnrId, i: AttemptId) {
    i < |db.attempts| && db.attempts[i].pnr == p && db.attempts[i].status != Failed
  }

  predicate HasLive(db: Db, p: PnrId) {
    exists i: nat | i < |db.attempts| :: IsLive(db, p, i)
  }

  function MaxOrder(attempts: seq<Attempt>, p: PnrId): (m: nat)
    ensures forall i :: 0 <= i < |attempts| && attempts[i].pnr == p ==> attempts[i].order <= m
  {
    if attempts == [] then 0 else
      var a := attempts[|attempts| - 1];
      var rest := MaxOrder(attempts[..|attempts| - 1], p);
      if a.pnr == p && a.order > rest then a.order else rest
  }

  predicate AllPnrsHotelBooked(db: Db) {
    |db.pnrs| > 0 && forall p | p in db.pnrs :: db.pnrs[p].status in {Confirmed, Completed}
  }

  /** A pending attempt another run left behind, or a runless one not touched for too long. */
  predicate Interrupted(a: Attempt, run: RunId, limits: Limits, now: Time) {
    a.status == Pending
    && ((a.run.Some? && a.run.value != run) || (a.run.None? && a.updatedAt + limits.staleMs < now))
  }

  // ---- Transactions on PNRs and attempts --------------------------------------

  function ApplyEffectiveState(db: Db, p: PnrId, confirmedNow: bool): Db {
    if p !in db.pnrs then db else
      match EffectiveState(db.pnrs[p], db.attempts, p, confirmedNow)
      case None => db
      case Some(pnr) => db.(pnrs := db.pnrs[p := pnr])
  }

  function NewAttempt(db: Db, p: PnrId, run: Option<RunId>, now: Time): Attempt {
    Attempt(p, MaxOrder(db.attempts, p) + 1, Pending, run, false, None, 0, now)
  }

  predicate CanStart(db: Db, p: PnrId) {
    p in db.pnrs && !HasLive(db, p) && IsRebookable(db.pnrs[p])
  }

  function StartAttempt(db: Db, p: PnrId, run: Option<RunId>, now: Time): Db {
    if CanStart(db, p) then
      ApplyEffectiveState(db.(attempts := db.attempts + [NewAttempt(db, p, run, now)]), p, false)
    else db
  }

  predicate CanMarkSent(db: Db, a: AttemptId) {
    a < |db.attempts| && db.attempts[a].status == Pending && !db.attempts[a].sent
  }

  function MarkSent(db: Db, a: AttemptId, now: Time): Db {
    if CanMarkSent(db, a) then
      var row := db.attempts[a].(sent := true, updatedAt := now);
      ApplyEffectiveState(db.(attempts := db.attempts[a := row]), row.pnr, false)
    else db
  }

  datatype FailureUpdate = Keep | Write(code: Option<FailureCode>)

  /** What a settlement writes; `booking` tells that the confirmed booking came with it. */
  datatype Settlement = Settlement(status: AttemptStatus, failure: FailureUpdate, booking: bool)

  function FailureAfter(row: Attempt, update: FailureUpdate): Option<FailureCode> {
    match update case Keep => row.failure case Write(code) => code
  }

  predicate CanFinish(db: Db, a: AttemptId) {
    a < |db.attempts| && IsOpen(db.attempts[a])
  }

  function SettledRow(row: Attempt, s: Settlement, now: Time): Attempt {
    row.(status := s.status, failure := FailureAfter(row, s.failure), updatedAt := now,
         charges := row.charges + if s.booking && s.status == Success then 1 else 0)
  }

  function Finish(db: Db, a: AttemptId, s: Settlement, now: Time): Db {
    if CanFinish(db, a) then
      ApplyEffectiveState(
        db.(attempts := db.attempts[a := SettledRow(db.attempts[a], s, now)]),
        db.attempts[a].pnr, s.booking)
    else db
  }

  function UpdateOpenOrders(db: Db, a: AttemptId, failure: FailureUpdate, now: Time): Db {
    if CanFinish(db, a) then
      var row := db.attempts[a];
      var changed := row.(status := ManualCheck, updatedAt := now,
                          failure := FailureAfter(row, failure));
      ApplyEffectiveState(db.(attempts := db.attempts[a := changed]), row.pnr, false)
    else db
  }

  function MarkPnrFailed(db: Db, p: PnrId): Db {
    if p in db.pnrs && !HasLive(db, p) && IsRebookable(db.pnrs[p]) then
      db.(pnrs := db.pnrs[p := Pnr(AllocationFailed, None)])
    else db
  }

  function SavePlans(db: Db, planned: set<PnrId>): Db {
    db.(pnrs := map p | p in db.pnrs ::
      if p in planned && IsRebookable(db.pnrs[p]) then Pnr(NotAllocated, None) else db.pnrs[p])
  }

  function RecoveredRow(row: Attempt, now: Time): Attempt {
    if row.sent
    then row.(status := ManualCheck, failure := Some(InterruptedAfterRequest), updatedAt := now)
    else row.(status := Failed, failure := Some(InterruptedBeforeRequest), updatedAt := now)
  }

  predicate Recovers(row: Attempt, sent: bool, run: RunId, limits: Limits, now: Time) {
    row.sent == sent && Interrupted(row, run, limits, now)
  }

  /** One of the two bulk updates of a run's recovery: only attempts change, PNR rows do not. */
  function RecoverPass(db: Db, sent: bool, run: RunId, limits: Limits, now: Time): Db {
    db.(attempts := seq(|db.attempts|, i requires 0 <= i < |db.attempts| =>
      if Recovers(db.attempts[i], sent, run, limits, now) then RecoveredRow(db.attempts[i], now) else db.attempts[i]))
  }

  function RecoveredPnrs(db: Db, sent: bool, run: RunId, limits: Limits, now: Time): set<PnrId> {
    set i | 0 <= i < |db.attempts| && Recovers(db.attempts[i], sent, run, limits, now) :: db.attempts[i].pnr
  }

  /** A manual booking left pending: `sent` is what the sweep read before its transaction. */
  predicate CanRecoverManual(db: Db, a: AttemptId, sent: bool) {
    a < |db.attempts| && db.attempts[a].status == Pending && db.attempts[a].sent == sent
  }

  function RecoverManual(db: Db, a: AttemptId, sent: bool, now: Time): Db {
    if CanRecoverManual(db, a, sent) then
      ApplyEffectiveState(
        db.(attempts := db.attempts[a := RecoveredRow(db.attempts[a], now)]), db.attempts[a].pnr, false)
    else db
  }

  // ---- Transactions on the flight row -------------------------------------------

  datatype ClaimResult = Claimed(previous: FlightStatus) | Running | WrongStatus | LimitReached

  function ClaimOutcome(
    f: Flight, allowed: set<FlightStatus>, maxUserRuns: Option<nat>, limits: Limits, now: Time): ClaimResult
  {
    if f.status == HotelAllocationInProgress && now < f.updatedAt + limits.leaseMs then Running
    else if f.status !in allowed then WrongStatus
    else if maxUserRuns.Some? && f.userRuns >= maxUserRuns.value then LimitReached
    else Claimed(f.status)
  }

  function ClaimRun(
    db: Db, run: RunId, allowed: set<FlightStatus>, maxUserRuns: Option<nat>, limits: Limits, now: Time): Db
  {
    if ClaimOutcome(db.flight, allowed, maxUserRuns, limits, now).Claimed? then
      db.(flight := db.flight.(status := HotelAllocationInProgress, runId := Some(run), updatedAt := now))
    else db
  }

  function TouchRun(db: Db, run: RunId, now: Time): Db {
    if db.flight.status == HotelAllocationInProgress && db.flight.runId == Some(run)
    then db.(flight := db.flight.(updatedAt := now)) else db
  }

  /** The run sent at least one booking request to the supplier. */
  predicate ReachedSupplier(attempts: seq<Attempt>, run: RunId) {
    exists i | 0 <= i < |attempts| :: attempts[i].run == Some(run) && attempts[i].sent
  }

  function CompleteRun(db: Db, run: RunId, countUserRun: bool, now: Time): Db {
    if db.flight.runId == Some(run) then
      db.(flight := db.flight.(
        status := if AllPnrsHotelBooked(db) then Allocated else PassengersBookingConfirmed,
        runId := None,
        userRuns := db.flight.userRuns + if countUserRun && ReachedSupplier(db.attempts, run) then 1 else 0,
        updatedAt := now))
    else db
  }

  function RefreshTotals(db: Db, now: Time): Db {
    if db.flight.status in {Paid, Published} then db else db.(flight := db.flight.(updatedAt := now))
  }

  function PromoteFlight(db: Db, now: Time): Db {
    if AllPnrsHotelBooked(db) && db.flight.status == PassengersBookingConfirmed
    then db.(flight := db.flight.(status := Allocated, updatedAt := now)) else db
  }

  // ---- Service gates: a status check followed by its write ------------------------

  predicate Editable(f: Flight) {
    f.status == Draft || f.status == InProgress
  }

  function AddPnr(db: Db, p: PnrId, now: Time): Db {
    if Editable(db.flight) && p !in db.pnrs then
      db.(pnrs := db.pnrs[p := Pnr(NotAllocated, None)],
          flight := if db.flight.status == Draft then db.flight.(status := InProgress, updatedAt := now) else db.flight)
    else db
  }

  function DeletePnr(db: Db, p: PnrId): Db {
    if Editable(db.flight) then db.(pnrs := db.pnrs - {p}) else db
  }

  function ConfirmPassengers(db: Db, now: Time): Db {
    if db.flight.status == InProgress && |db.pnrs| > 0 && db.flight.importFailures == 0
    then db.(flight := db.flight.(status := PassengersBookingConfirmed, updatedAt := now)) else db
  }

  function Publish(db: Db, now: Time): Db {
    if db.flight.status in {Allocated, Paid}
    then db.(flight := db.flight.(status := FlightStatus.Published, updatedAt := now)) else db
  }
}
