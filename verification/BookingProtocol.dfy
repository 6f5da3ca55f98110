/**
 The booking protocol of one cancelled flight: allocation runs, manual bookings,
 supplier webhooks, post-run checks and recovery, all interleaved. A step is one
 repository transaction, or one stretch of a worker's code between two awaits.
 A step whose guard does not hold leaves the world as it is, so every sequence
 of steps is a run.
 */
module BookingProtocol {
  import opened Common
  import opened BookingRecords

  /** First allocation plus one retry. */
  const MAX_USER_ALLOCATION_RUNS: nat := 2

  /** Where the process that started an attempt is. */
  datatype Phase =
    | Checking   // re-checking rates, nothing sent
    | Cleared    // told that it may send
    | Booking    // calling the supplier order by order, or holding its answer
    | Answered   // its answer is being stored; it calls the supplier no more
    | Gone       // returned or crashed

  /** The supplier is called once per order; call k is for order k of `orders`. */
  datatype Worker = Worker(phase: Phase, orders: nat, supplierCalls: nat)

  datatype RunRecord = RunRecord(userStarted: bool, completions: nat)

  /**
   `workers[a]` belongs to attempt `a`. `owed` holds the PNRs whose attempts a
   recovery changed in bulk and whose own row it has not updated yet.
   */
  datatype World = World(
    db: Db,
    now: Time,
    runs: map<RunId, RunRecord>,
    workers: seq<Worker>,
    owed: set<PnrId>)

  datatype Answer =
    | BookedAll
    | BookedNone(code: FailureCode)
    | BookedUnknown(code: FailureCode)

  datatype Step =
    // the airline edits and publishes
    | StepTick(ms: nat)
    | StepAddPnr(p: PnrId)
    | StepDeletePnr(p: PnrId)
    | StepImportFailures(n: nat)
    | StepConfirmPassengers
    | StepPublish
    // the run lease
    | StepClaimUserRun(r: RunId)
    | StepClaimResume(r: RunId)
    | StepClaimCheck(r: RunId)
    | StepTouch(r: RunId)
    | StepComplete(r: RunId)
    | StepRefreshTotals
    | StepPromote
    // one booking attempt
    | StepSavePlans(planned: set<PnrId>)
    | StepStartInRun(p: PnrId, r: RunId)
    | StepStartManual(p: PnrId)
    | StepMarkSent(a: AttemptId, orders: nat)
    | StepCallSupplier(a: AttemptId)
    | StepLiveAnswer(a: AttemptId, answer: Answer)
    | StepCrash(a: AttemptId)
    | StepMarkPnrFailed(p: PnrId)
    // webhooks and post-run checks
    | StepSettle(a: AttemptId, answer: Answer)
    | StepUpdateOrders(a: AttemptId, failure: FailureUpdate)
    // recovery
    | StepRecover(r: RunId, sent: bool)
    | StepRecoverPnr(p: PnrId)
    | StepRecoverManual(a: AttemptId, sent: bool)

  predicate IsInterruption(code: FailureCode) {
    code == InterruptedBeforeRequest || code == InterruptedAfterRequest
  }

  predicate AnswerAllowed(answer: Answer) {
    match answer
    case BookedAll => true
    case BookedNone(code) => !IsInterruption(code)
    case BookedUnknown(code) => !IsInterruption(code)
  }

  function LiveSettlement(answer: Answer): Settlement {
    match answer
    case BookedAll => Settlement(Success, Keep, true)
    case BookedNone(code) => Settlement(Failed, Write(Some(code)), false)
    case BookedUnknown(code) => Settlement(ManualCheck, Write(Some(code)), false)
  }

  function LateSettlement(answer: Answer): Settlement {
    match answer
    case BookedAll => Settlement(Success, Write(None), true)
    case BookedNone(code) => Settlement(Failed, Write(Some(code)), false)
    case BookedUnknown(code) => Settlement(ManualCheck, Write(Some(code)), false)
  }

  // ---- One step ----------------------------------------------------------------

  function Claim(w: World, r: RunId, user: bool, allowed: set<FlightStatus>, limits: Limits): World {
    var max := if user then Some(MAX_USER_ALLOCATION_RUNS) else None;
    if r !in w.runs && ClaimOutcome(w.db.flight, allowed, max, limits, w.now).Claimed? then
      w.(db := ClaimRun(w.db, r, allowed, max, limits, w.now), runs := w.runs[r := RunRecord(user, 0)])
    else w
  }

  function Complete(w: World, r: RunId): World {
    if r in w.runs && w.db.flight.runId == Some(r) then
      w.(db := CompleteRun(w.db, r, w.runs[r].userStarted, w.now),
         runs := w.runs[r := w.runs[r].(completions := w.runs[r].completions + 1)])
    else w
  }

  function Start(w: World, p: PnrId, run: Option<RunId>): World {
    if CanStart(w.db, p) then
      w.(db := StartAttempt(w.db, p, run, w.now), workers := w.workers + [Worker(Checking, 0, 0)])
    else w
  }

  /** A manual booking needs an allocated flight, or a PNR the run could not place. */
  predicate ManualAllowed(db: Db, p: PnrId) {
    p in db.pnrs
    && (db.flight.status in {Allocated, Paid, FlightStatus.Published}
        || (db.flight.status == PassengersBookingConfirmed && db.pnrs[p].status == AllocationFailed))
  }

  predicate Working(w: World, a: AttemptId, phase: Phase) {
    a < |w.workers| && w.workers[a].phase == phase
  }

  function SetPhase(w: World, a: AttemptId, phase: Phase): World
    requires a < |w.workers|
  {
    w.(workers := w.workers[a := w.workers[a].(phase := phase)])
  }

  /** `orders` is how many supplier orders the checked rates make. */
  function Mark(w: World, a: AttemptId, orders: nat): World {
    if !Working(w, a, Checking) then w
    else if CanMarkSent(w.db, a) then
      w.(db := MarkSent(w.db, a, w.now), workers := w.workers[a := Worker(Cleared, orders, 0)])
    else SetPhase(w, a, Gone)
  }

  function CallSupplier(w: World, a: AttemptId): World {
    if (Working(w, a, Cleared) || Working(w, a, Booking)) && w.workers[a].supplierCalls < w.workers[a].orders
    then w.(workers := w.workers[a := w.workers[a].(phase := Booking, supplierCalls := w.workers[a].supplierCalls + 1)])
    else w
  }

  /** Before sending, a worker can only fail its attempt; it confirms only after every order. */
  predicate LiveAllowed(w: World, a: AttemptId, answer: Answer) {
    && AnswerAllowed(answer)
    && (Working(w, a, Booking) || Working(w, a, Answered) || (Working(w, a, Checking) && answer.BookedNone?))
    && (answer.BookedAll? ==> w.workers[a].supplierCalls == w.workers[a].orders)
  }

  /** A live result; a confirmation that could not be stored is followed by another one. */
  function LiveAnswer(w: World, a: AttemptId, answer: Answer): World {
    if LiveAllowed(w, a, answer) then
      var settled := w.(db := Finish(w.db, a, LiveSettlement(answer), w.now));
      if Working(w, a, Booking) then SetPhase(settled, a, Answered) else settled
    else w
  }

  predicate WasSent(db: Db, a: AttemptId) {
    a < |db.attempts| && db.attempts[a].sent
  }

  /** Totals are refreshed after a confirmation, by its worker or by a webhook delivered again. */
  predicate BookedSomething(db: Db) {
    exists i | 0 <= i < |db.attempts| :: db.attempts[i].status == Success
  }

  predicate ManualInterrupted(w: World, a: AttemptId, limits: Limits) {
    a < |w.db.attempts| && w.db.attempts[a].run == None && w.db.attempts[a].updatedAt + limits.staleMs < w.now
  }

  function Settle(w: World, a: AttemptId, answer: Answer): World {
    if AnswerAllowed(answer) && WasSent(w.db, a) then w.(db := Finish(w.db, a, LateSettlement(answer), w.now)) else w
  }

  function UpdateOrders(w: World, a: AttemptId, failure: FailureUpdate): World {
    if WasSent(w.db, a) && (failure == Keep || failure == Write(Some(PartialBooking)))
    then w.(db := UpdateOpenOrders(w.db, a, failure, w.now)) else w
  }

  function RecoverManualAttempt(w: World, a: AttemptId, sent: bool, limits: Limits): World {
    if ManualInterrupted(w, a, limits) then w.(db := RecoverManual(w.db, a, sent, w.now)) else w
  }

  /** One bulk update of a recovery; the PNRs it touched are owed an update of their own. */
  function Recover(w: World, r: RunId, sent: bool, limits: Limits): World {
    w.(db := RecoverPass(w.db, sent, r, limits, w.now),
       owed := w.owed + RecoveredPnrs(w.db, sent, r, limits, w.now))
  }

  function RecoverPnr(w: World, p: PnrId): World {
    if p in w.owed then w.(db := ApplyEffectiveState(w.db, p, false), owed := w.owed - {p}) else w
  }

  function Touch(w: World, r: RunId): World {
    w.(db := TouchRun(w.db, r, w.now))
  }

  function Refresh(w: World): World {
    if BookedSomething(w.db) then w.(db := RefreshTotals(w.db, w.now)) else w
  }

  function Promote(w: World): World {
    w.(db := PromoteFlight(w.db, w.now))
  }

  /** Steps on the flight row and the set of PNRs. */
  predicate IsFlightStep(step: Step) {
    step.StepAddPnr? || step.StepDeletePnr? || step.StepImportFailures? || step.StepConfirmPassengers?
    || step.StepPublish? || step.StepTouch? || step.StepRefreshTotals? || step.StepPromote?
  }

  function ApplyFlight(w: World, step: Step): World
    requires IsFlightStep(step)
  {
    match step
    case StepAddPnr(p) => w.(db := AddPnr(w.db, p, w.now))
    case StepDeletePnr(p) => w.(db := DeletePnr(w.db, p))
    case StepImportFailures(n) => w.(db := w.db.(flight := w.db.flight.(importFailures := n)))
    case StepConfirmPassengers => w.(db := ConfirmPassengers(w.db, w.now))
    case StepPublish => w.(db := Publish(w.db, w.now))
    case StepTouch(r) => Touch(w, r)
    case StepRefreshTotals => Refresh(w)
    case StepPromote => Promote(w)
  }

  /** Claims and completions of runs. */
  predicate IsRunStep(step: Step) {
    step.StepClaimUserRun? || step.StepClaimResume? || step.StepClaimCheck? || step.StepComplete?
  }

  function ApplyRun(w: World, step: Step, limits: Limits): World
    requires IsRunStep(step)
  {
    match step
    case StepClaimUserRun(r) =>
      if |w.db.pnrs| == 0 then w
      else Claim(w, r, true, {PassengersBookingConfirmed, HotelAllocationInProgress, Allocated}, limits)
    case StepClaimResume(r) => Claim(w, r, false, {HotelAllocationInProgress}, limits)
    case StepClaimCheck(r) => Claim(w, r, false, {PassengersBookingConfirmed, Allocated}, limits)
    case StepComplete(r) => Complete(w, r)
  }

  /** Live and late results, order updates and the recovery of manual bookings. */
  predicate IsSettleStep(step: Step) {
    step.StepLiveAnswer? || step.StepSettle? || step.StepUpdateOrders? || step.StepRecoverManual?
  }

  function ApplySettle(w: World, step: Step, limits: Limits): World
    requires IsSettleStep(step)
  {
    match step
    case StepLiveAnswer(a, answer) => LiveAnswer(w, a, answer)
    case StepSettle(a, answer) => Settle(w, a, answer)
    case StepUpdateOrders(a, failure) => UpdateOrders(w, a, failure)
    case StepRecoverManual(a, sent) => RecoverManualAttempt(w, a, sent, limits)
  }

  /** Starting and sending attempts, and a worker's end. */
  predicate IsWorkerStep(step: Step) {
    step.StepStartInRun? || step.StepStartManual? || step.StepMarkSent? || step.StepCallSupplier? || step.StepCrash?
  }

  function ApplyWorker(w: World, step: Step): World
    requires IsWorkerStep(step)
  {
    match step
    case StepStartInRun(p, r) => if r in w.runs then Start(w, p, Some(r)) else w
    case StepStartManual(p) => if ManualAllowed(w.db, p) then Start(w, p, None) else w
    case StepMarkSent(a, orders) => Mark(w, a, orders)
    case StepCallSupplier(a) => CallSupplier(w, a)
    case StepCrash(a) => if a < |w.workers| then SetPhase(w, a, Gone) else w
  }

  /** Time, plans and PNR rows, and the recovery of a run. */
  predicate IsRowStep(step: Step) {
    step.StepTick? || step.StepSavePlans? || step.StepMarkPnrFailed? || step.StepRecover? || step.StepRecoverPnr?
  }

  function ApplyRow(w: World, step: Step, limits: Limits): World
    requires IsRowStep(step)
  {
    match step
    case StepTick(ms) => w.(now := w.now + ms)
    case StepSavePlans(planned) => w.(db := SavePlans(w.db, planned))
    case StepMarkPnrFailed(p) => w.(db := MarkPnrFailed(w.db, p))
    case StepRecover(r, sent) => if r in w.runs then Recover(w, r, sent, limits) else w
    case StepRecoverPnr(p) => RecoverPnr(w, p)
  }

  function Apply(w: World, step: Step, limits: Limits): World {
    if IsFlightStep(step) then ApplyFlight(w, step)
    else if IsRunStep(step) then ApplyRun(w, step, limits)
    else if IsSettleStep(step) then ApplySettle(w, step, limits)
    else if IsWorkerStep(step) then ApplyWorker(w, step)
    else ApplyRow(w, step, limits)
  }

  function Exec(w: World, steps: seq<Step>, limits: Limits): World
    decreases |steps|
  {
    if steps == [] then w else Exec(Apply(w, steps[0], limits), steps[1..], limits)
  }

  /** A flight just created: no PNRs, never claimed. */
  function NewFlight(now: Time): World {
    World(Db(Flight(Draft, None, 0, now, 0), map[], []), now, map[], [], {})
  }

  // ---- The invariant -------------------------------------------------------------

  /** Only a PNR's newest attempt can be anything but FAILED. */
  predicate EarlierFailed(attempts: seq<Attempt>) {
    forall i, j | 0 <= i < j < |attempts| && attempts[i].pnr == attempts[j].pnr :: attempts[i].status == Failed
  }

  /** The PNR row a live attempt stands for. */
  function Implied(status: AttemptStatus, a: AttemptId): Pnr {
    match status
    case Success => Pnr(Confirmed, Some(a))
    case ManualCheck => Pnr(NeedsManualCheck, None)
    case _ => Pnr(AllocationInProgress, None)
  }

  predicate Unallocated(pnr: Pnr) {
    pnr == Pnr(NotAllocated, None) || pnr == Pnr(AllocationFailed, None)
  }

  /** The PNR row is exactly what its attempts imply. */
  predicate Agrees(db: Db, p: PnrId)
    requires p in db.pnrs
  {
    && (forall i: nat | i < |db.attempts| && IsLive(db, p, i) :: db.pnrs[p] == Implied(db.attempts[i].status, i))
    && (HasLive(db, p) || Unallocated(db.pnrs[p]))
  }

  /** A PNR whose recovery is half done: still shown in progress, its attempt failed or under manual check. */
  predicate Stranded(db: Db, p: PnrId)
    requires p in db.pnrs
  {
    && db.pnrs[p] == Pnr(AllocationInProgress, None)
    && forall i: nat | i < |db.attempts| && IsLive(db, p, i) :: db.attempts[i].status == ManualCheck
  }

  predicate AgreementHolds(db: Db, owed: set<PnrId>) {
    forall p | p in db.pnrs :: Agrees(db, p) || (p in owed && Stranded(db, p))
  }

  predicate ChargedOnce(a: Attempt) {
    a.charges == if a.status == Success then 1 else 0
  }

  predicate SendingOk(a: Attempt, worker: Worker) {
    && (a.status in {Success, ManualCheck} ==> a.sent)
    && (a.failure == Some(InterruptedBeforeRequest) ==> a.status == Failed && !a.sent)
    && worker.supplierCalls <= worker.orders
    && (worker.supplierCalls > 0 ==> a.sent)
    && (worker.phase == Checking ==> !a.sent)
    && (worker.phase in {Cleared, Booking, Answered} ==> a.sent)
    && (worker.phase == Cleared ==> worker.supplierCalls == 0)
  }

  predicate AttemptsOk(w: World) {
    && |w.workers| == |w.db.attempts|
    && EarlierFailed(w.db.attempts)
    && (forall i | 0 <= i < |w.db.attempts| :: w.db.attempts[i].pnr in w.db.pnrs)
    && (forall i | 0 <= i < |w.db.attempts| :: ChargedOnce(w.db.attempts[i]))
    && (forall i | 0 <= i < |w.db.attempts| :: SendingOk(w.db.attempts[i], w.workers[i]))
  }

  predicate AllConfirmed(db: Db) {
    |db.pnrs| > 0 && forall p | p in db.pnrs :: db.pnrs[p].status == Confirmed
  }

  predicate FlightOk(w: World) {
    var f := w.db.flight;
    && (f.runId.Some? <==> f.status == HotelAllocationInProgress)
    && (f.runId.Some? ==> f.runId.value in w.runs && w.runs[f.runId.value].completions == 0
                          && (w.runs[f.runId.value].userStarted ==> f.userRuns < MAX_USER_ALLOCATION_RUNS))
    && (forall r | r in w.runs :: w.runs[r].completions <= 1)
    && f.userRuns <= MAX_USER_ALLOCATION_RUNS
    && f.status != Paid
    && (Editable(f) ==> w.db.attempts == [] && w.runs == map[] && w.owed == {})
    && (f.status in {Allocated, FlightStatus.Published} ==> AllConfirmed(w.db))
  }

  predicate Inv(w: World) {
    match w
    case World(db, _, _, _, owed) => AttemptsOk(w) && AgreementHolds(db, owed) && FlightOk(w)
  }
}
