/**
 The booking phase of an allocation run. Many PNR workers share one ledger; each
 worker loops over attempts and awaits the supplier in between. What runs
 between two awaits is one turn. `PlannedPnr` performs the turns in place, the
 functions give their value, and `Exec` interleaves the turns of all workers.
 */
module AllocationRun {
  import opened Common
  import opened Rooms
  import opened Ledger
  import opened Planner
  import opened RateSelection
  import BookingRecords

  // ---- One worker's turn --------------------------------------------------------

  /** The candidate (by position) and its rates that an attempt is made with. */
  datatype Choice = Choice(index: nat, picks: seq<Pick>)

  datatype End = Booked | Unresolved | SettledElsewhere | Crashed | GaveUp | NoRoomsLeft

  datatype Stage = Ready | Attempting(claim: nat, choice: Choice) | Ended(end: End)

  datatype Worker = Worker(
    candidates: seq<Candidate>,
    maxAttempts: nat,
    excluded: set<RateKey>,
    failures: nat,
    stage: Stage)

  /** What the workers of a run share. */
  datatype Shared = Shared(books: Books, restricted: set<HotelCode>)

  datatype Answer =
    | AnsweredConfirmed
    | AnsweredUnknown
    | AnsweredRejected(groupRestricted: bool)
    | AnsweredBlocked
    | Threw

  predicate Selectable(c: Candidate, restricted: set<HotelCode>, stock: Stock, excluded: set<RateKey>) {
    c.hotelCode !in restricted && SelectRates(c.rooms, stock, excluded).Some?
  }

  function FirstSelectable(
    candidates: seq<Candidate>, from: nat, restricted: set<HotelCode>, stock: Stock, excluded: set<RateKey>)
    : (r: Option<Choice>)
    requires from <= |candidates|
    ensures r.Some? ==>
      && from <= r.value.index < |candidates|
      && Selectable(candidates[r.value.index], restricted, stock, excluded)
      && Some(r.value.picks) == SelectRates(candidates[r.value.index].rooms, stock, excluded)
      && forall j | from <= j < r.value.index :: !Selectable(candidates[j], restricted, stock, excluded)
    ensures r.None? ==> forall j | from <= j < |candidates| :: !Selectable(candidates[j], restricted, stock, excluded)
    decreases |candidates| - from
  {
    if from == |candidates| then None
    else if Selectable(candidates[from], restricted, stock, excluded) then
      Some(Choice(from, SelectRates(candidates[from].rooms, stock, excluded).value))
    else FirstSelectable(candidates, from + 1, restricted, stock, excluded)
  }

  /** The top of a worker's loop, up to the start of an attempt or the end of the worker. */
  function NextTurn(s: Shared, w: Worker): (Shared, Worker) {
    if w.failures >= w.maxAttempts then (s, w.(stage := Ended(GaveUp)))
    else
      match FirstSelectable(w.candidates, 0, s.restricted, s.books.remaining, w.excluded)
      case None => (s, w.(stage := Ended(NoRoomsLeft)))
      case Some(choice) =>
        (s.(books := Claim(s.books, PickItems(choice.picks))), w.(stage := Attempting(|s.books.claims|, choice)))
  }

  function PickedKeys(picks: seq<Pick>): set<RateKey> {
    set p | p in picks :: p.rateKey
  }

  predicate IsAttempting(s: Shared, w: Worker) {
    && w.stage.Attempting?
    && w.stage.claim < |s.books.claims|
    && w.stage.choice.index < |w.candidates|
  }

  /** What a worker does with its claim once the attempt returned; after a rejection it is ready for another turn. */
  function Settle(s: Shared, w: Worker, answer: Answer): (Shared, Worker)
    requires IsAttempting(s, w)
  {
    var c := w.stage.claim;
    match answer
    case AnsweredConfirmed => (s.(books := Commit(s.books, c)), w.(stage := Ended(Booked)))
    case AnsweredUnknown => (s.(books := Commit(s.books, c)), w.(stage := Ended(Unresolved)))
    case AnsweredBlocked => (s.(books := Release(s.books, c)), w.(stage := Ended(SettledElsewhere)))
    case Threw => (s, w.(stage := Ended(Crashed)))
    case AnsweredRejected(groupRestricted) =>
      var hotel := w.candidates[w.stage.choice.index].hotelCode;
      (Shared(Release(s.books, c), if groupRestricted then s.restricted + {hotel} else s.restricted),
       w.(excluded := w.excluded + PickedKeys(w.stage.choice.picks), failures := w.failures + 1, stage := Ready))
  }

  /** The rest of the loop body once an attempt returned, and the next turn after a rejection. */
  function Resume(s: Shared, w: Worker, answer: Answer): (Shared, Worker)
    requires IsAttempting(s, w)
  {
    var (s', w') := Settle(s, w, answer);
    if answer.AnsweredRejected? then NextTurn(s', w') else (s', w')
  }

  // ---- A worker's start ------------------------------------------------------------

  datatype PriorAttempt = PriorAttempt(
    status: BookingRecords.AttemptStatus,
    failure: Option<BookingRecords.FailureCode>,
    rateKeys: seq<RateKey>)

  predicate DefinitelyFailed(a: PriorAttempt) {
    a.status == BookingRecords.Failed && a.failure != Some(BookingRecords.InterruptedBeforeRequest)
  }

  function RateKeysOf(attempts: seq<PriorAttempt>): set<RateKey> {
    set a, k | a in attempts && k in a.rateKeys :: k
  }

  function NewWorker(
    candidates: seq<Candidate>, prior: seq<PriorAttempt>, maxNewAttempts: Option<nat>, maxAttemptsPerBooking: nat): Worker
  {
    var failed := Filter(a => DefinitelyFailed(a), prior);
    Worker(
      candidates,
      if maxNewAttempts.Some? then |failed| + maxNewAttempts.value else Max(1, maxAttemptsPerBooking),
      RateKeysOf(failed),
      |failed|,
      Ready)
  }

  // ---- The same turns, in place -------------------------------------------------------

  class BookingPlanning {
    const ledger: AllotmentLedger
    var restrictedHotels: set<HotelCode>

    /** `restricted` are the hotels of earlier attempts refused as group bookings. */
    constructor (ledger: AllotmentLedger, restricted: set<HotelCode>)
      ensures this.ledger == ledger && restrictedHotels == restricted
    {
      this.ledger := ledger;
      this.restrictedHotels := restricted;
    }

    ghost function Value(): Shared
      reads this, ledger, ledger.handedOut
    {
      Shared(ledger.Value(), restrictedHotels)
    }
  }

  class PlannedPnr {
    const candidates: seq<Candidate>
    const maxAttempts: nat
    var excludedRateKeys: set<RateKey>
    var failures: nat
    var claim: LedgerClaim?
    var choice: Choice
    var end: Option<End>

    constructor (
      candidates: seq<Candidate>, prior: seq<PriorAttempt>, maxNewAttempts: Option<nat>, maxAttemptsPerBooking: nat)
      ensures Value() == NewWorker(candidates, prior, maxNewAttempts, maxAttemptsPerBooking)
      ensures claim == null && end == None
    {
      var failed := Filter(a => DefinitelyFailed(a), prior);
      this.candidates := candidates;
      this.maxAttempts :=
        if maxNewAttempts.Some? then |failed| + maxNewAttempts.value else Max(1, maxAttemptsPerBooking);
      this.excludedRateKeys := RateKeysOf(failed);
      this.failures := |failed|;
      this.claim := null;
      this.choice := Choice(0, []);
      this.end := None;
    }

    ghost predicate Valid(ledger: AllotmentLedger)
      reads this, ledger, claim
    {
      && ledger.Valid()
      && (claim != null ==>
            && 0 < claim.id <= |ledger.handedOut| && ledger.handedOut[claim.id - 1] == claim
            && choice.index < |candidates|)
    }

    ghost function Value(): Worker
      reads this, claim
    {
      Worker(candidates, maxAttempts, excludedRateKeys, failures,
        if end.Some? then Ended(end.value)
        else if claim != null && claim.id > 0 then Attempting(claim.id - 1, choice)
        else Ready)
    }

    /** Selects the rates of one candidate and claims them. */
    method TryCandidate(planning: BookingPlanning, candidate: Candidate)
      returns (picks: seq<Pick>, taken: LedgerClaim?)
      requires Valid(planning.ledger)
      modifies planning.ledger
      ensures Valid(planning.ledger)
      ensures
        var s := old(planning.Value());
        var selected := SelectRates(candidate.rooms, s.books.remaining, excludedRateKeys);
        && (candidate.hotelCode in s.restricted || selected.None? ==>
              taken == null && planning.Value() == s && planning.ledger.handedOut == old(planning.ledger.handedOut))
        && (candidate.hotelCode !in s.restricted && selected.Some? ==>
              && taken != null && picks == selected.value && fresh(taken)
              && planning.Value() == s.(books := Claim(s.books, PickItems(picks)))
              && taken.id == |s.books.claims| + 1 == |planning.ledger.handedOut|
              && planning.ledger.handedOut[taken.id - 1] == taken)
    {
      picks, taken := [], null;
      if candidate.hotelCode in planning.restrictedHotels {
        return;
      }
      var selected := SelectCandidateRates(candidate, planning.ledger, excludedRateKeys);
      if selected.Some? {
        SelectionCanBeClaimed(candidate.rooms, planning.ledger.remaining, excludedRateKeys);
        picks := selected.value;
        taken := planning.ledger.TryClaim(PickItems(picks));
      }
    }

    /** Claims the rates of the first candidate that can be booked. */
    method SelectAndClaim(planning: BookingPlanning) returns (selected: bool)
      requires Valid(planning.ledger) && end == None
      modifies this`claim, this`choice, planning.ledger
      ensures Valid(planning.ledger)
      ensures
        var s := old(planning.Value());
        var first := FirstSelectable(candidates, 0, s.restricted, s.books.remaining, excludedRateKeys);
        && selected == first.Some?
        && (first.None? ==> planning.Value() == s)
        && (first.Some? ==>
              && planning.Value() == s.(books := Claim(s.books, PickItems(first.value.picks)))
              && claim != null && claim.id == |s.books.claims| + 1 && choice == first.value)
    {
      for n := 0 to |candidates|
        invariant claim == old(claim) && choice == old(choice) && Valid(planning.ledger)
        invariant planning.Value() == old(planning.Value())
        invariant planning.ledger.handedOut == old(planning.ledger.handedOut)
        invariant FirstSelectable(
            candidates, 0, planning.restrictedHotels, planning.ledger.remaining, excludedRateKeys)
          == FirstSelectable(
            candidates, n, planning.restrictedHotels, planning.ledger.remaining, excludedRateKeys)
      {
        var picks, taken := TryCandidate(planning, candidates[n]);
        if taken != null {
          claim, choice := taken, Choice(n, picks);
          return true;
        }
      }
      selected := false;
    }

    method TakeTurn(planning: BookingPlanning)
      requires Valid(planning.ledger) && end == None
      modifies this, planning.ledger
      ensures Valid(planning.ledger)
      ensures (planning.Value(), Value()) == NextTurn(old(planning.Value()), old(Value()))
    {
      if failures >= maxAttempts {
        end := Some(GaveUp);
        return;
      }
      var selected := SelectAndClaim(planning);
      if !selected {
        end := Some(NoRoomsLeft);
      }
    }

    /** After a rejection: the rooms go back, the rates are not tried again, and the loop starts over. */
    method Retry(planning: BookingPlanning, groupRestricted: bool)
      requires Valid(planning.ledger) && end == None && claim != null
      modifies this, planning, planning.ledger, claim
      ensures Valid(planning.ledger)
      ensures (planning.Value(), Value()) == Resume(old(planning.Value()), old(Value()), AnsweredRejected(groupRestricted))
    {
      planning.ledger.ReleaseClaim(claim, claim.id - 1);
      if groupRestricted {
        planning.restrictedHotels := planning.restrictedHotels + {candidates[choice.index].hotelCode};
      }
      excludedRateKeys := excludedRateKeys + PickedKeys(choice.picks);
      failures := failures + 1;
      claim := null;
      TakeTurn(planning);
    }

    method ResumeWith(planning: BookingPlanning, answer: Answer)
      requires Valid(planning.ledger) && end == None && claim != null
      modifies this, planning, planning.ledger, claim
      ensures Valid(planning.ledger)
      ensures (planning.Value(), Value()) == Resume(old(planning.Value()), old(Value()), answer)
    {
      if answer.AnsweredRejected? {
        Retry(planning, answer.groupRestricted);
        return;
      }
      if answer.AnsweredConfirmed? || answer.AnsweredUnknown? {
        planning.ledger.CommitClaim(claim, claim.id - 1);
      } else if answer.AnsweredBlocked? {
        planning.ledger.ReleaseClaim(claim, claim.id - 1);
      }
      end := Some(match answer
        case AnsweredConfirmed => Booked
        case AnsweredUnknown => Unresolved
        case AnsweredBlocked => SettledElsewhere
        case _ => Crashed);
    }
  }

  // ---- All workers interleaved -----------------------------------------------------------

  type PnrId = BookingRecords.PnrId

  datatype Try = Try(pnr: PnrId, choice: Choice)

  /**
   `tries` and `booked` are history: entry c is the attempt that claim c was made
   for, and the rooms per rate key that the supplier really booked for it.
   */
  datatype Run = Run(shared: Shared, workers: map<PnrId, Worker>, tries: seq<Try>, booked: seq<Stock>)

  datatype Step = Begin(pnr: PnrId) | Return(pnr: PnrId, answer: Answer, booked: Stock)

  /** What an attempt can have booked: nothing but its claim, and nothing at all when it was rejected or blocked. */
  predicate CanHaveBooked(answer: Answer, booked: Stock, items: Stock) {
    && (forall k | k in booked :: booked[k] <= Available(items, k))
    && (answer.AnsweredRejected? || answer.AnsweredBlocked? ==> booked == map[])
  }

  predicate Enabled(run: Run, step: Step) {
    && step.pnr in run.workers
    && match step
       case Begin(p) => run.workers[p].stage == Ready
       case Return(p, answer, booked) =>
         && IsAttempting(run.shared, run.workers[p])
         && run.workers[p].stage.claim < |run.booked|
         && CanHaveBooked(answer, booked, run.shared.books.claims[run.workers[p].stage.claim].items)
  }

  /** Puts back a worker's turn; a turn that made a claim adds it to the history. */
  function After(run: Run, p: PnrId, s: Shared, w: Worker): Run {
    if |s.books.claims| > |run.shared.books.claims| && w.stage.Attempting?
    then Run(s, run.workers[p := w], run.tries + [Try(p, w.stage.choice)], run.booked + [map[]])
    else run.(shared := s, workers := run.workers[p := w])
  }

  function SettleClaim(run: Run, p: PnrId, answer: Answer, booked: Stock): Run
    requires Enabled(run, Return(p, answer, booked))
  {
    var (s, w) := Settle(run.shared, run.workers[p], answer);
    run.(shared := s, workers := run.workers[p := w], booked := run.booked[run.workers[p].stage.claim := booked])
  }

  function Apply(run: Run, step: Step): Run {
    if !Enabled(run, step) then run else
      match step
      case Begin(p) =>
        var (s, w) := NextTurn(run.shared, run.workers[p]);
        After(run, p, s, w)
      case Return(p, answer, booked) =>
        var settled := SettleClaim(run, p, answer, booked);
        if answer.AnsweredRejected? then
          var (s, w) := NextTurn(settled.shared, settled.workers[p]);
          After(settled, p, s, w)
        else settled
  }

  function Exec(run: Run, steps: seq<Step>): Run {
    if steps == [] then run else Apply(Exec(run, steps[..|steps| - 1]), steps[|steps| - 1])
  }

  /** A run about to start; hotels that restricted group bookings before may be excluded already. */
  predicate Fresh(run: Run, stock: Stock) {
    && run.shared.books == Books(stock, [])
    && run.tries == [] && run.booked == []
    && forall p | p in run.workers :: run.workers[p].stage == Ready
  }
}
