/**
 An attempt made for a ledger claim: what the supplier really books stays within
 the claim, and nothing is booked when the claim goes back to the ledger.
 */
module ClaimedRooms {
  import opened Common
  import opened Ledger
  import opened Planner
  import opened RateSelection
  import opened CandidatePlanning
  import opened BookingAttempt
  import opened AttemptAnswers
  import BookingRecords
  import opened AllocationRun
  import opened AllocationTheorems

  function Asked(rooms: seq<SentRoom>): seq<RoomRequest> {
    seq(|rooms|, i requires 0 <= i < |rooms| => RoomRequest(rooms[i].rateKey, Some(rooms[i].shape)))
  }

  /** The rooms asked of the supplier for the picked rates. */
  function Requests(picks: seq<Pick>): seq<RoomRequest> {
    Asked(RoomsSent(picks))
  }

  lemma {:induction false} RequestedAppend(a: seq<RoomRequest>, b: seq<RoomRequest>, k: RateKey)
    ensures RequestedOn(a + b, k) == RequestedOn(a, k) + RequestedOn(b, k)
  {
    if b == [] {
      assert a + b == a;
    } else {
      assert (a + b)[..|a + b| - 1] == a + b[..|b| - 1];
      RequestedAppend(a, b[..|b| - 1], k);
    }
  }

  lemma {:induction false} RequestedCopies(room: SentRoom, n: nat, k: RateKey)
    ensures RequestedOn(Asked(Copies(room, n)), k) == if room.rateKey == k then n else 0
  {
    if n > 0 {
      RequestedCopies(room, n - 1, k);
      var one := [RoomRequest(room.rateKey, Some(room.shape))];
      RequestedAppend(one, Asked(Copies(room, n - 1)), k);
      assert one[..0] == [];
      assert Asked(Copies(room, n)) == one + Asked(Copies(room, n - 1));
    }
  }

  lemma {:induction false} RequestsCountPicks(picks: seq<Pick>, k: RateKey)
    ensures RequestedOn(Requests(picks), k) == PickedRooms(picks, k)
  {
    if picks != [] {
      var first := Copies(SentRoom(picks[0].rateKey, picks[0].shape), picks[0].roomsNeeded);
      RequestedCopies(SentRoom(picks[0].rateKey, picks[0].shape), picks[0].roomsNeeded, k);
      RequestsCountPicks(picks[1..], k);
      RequestedAppend(Asked(first), Requests(picks[1..]), k);
      assert Requests(picks) == Asked(first) + Requests(picks[1..]);
    }
  }

  /** The requests ask for as many rooms of each rate as the claim holds. */
  lemma {:induction false} RequestsMatchClaim(picks: seq<Pick>, k: RateKey)
    ensures RequestedOn(Requests(picks), k) == Available(Totals(PickItems(picks)), k)
  {
    RequestsCountPicks(picks, k);
    TotalsArePickedRooms(picks, k);
  }

  /** What the booking loop makes of an attempt's end. */
  function AnswerOf(ended: Ended): Answer {
    match ended.outcome
    case Confirmed => AnsweredConfirmed
    case Unknown => AnsweredUnknown
    case RejectedOutcome => AnsweredRejected(ended.failure == Some(BookingRecords.GroupBookingRestricted))
    case Blocked => AnsweredBlocked
  }

  function BookedStock(units: seq<Unit>, reply: nat -> Reply, sent: nat, picks: seq<Pick>): Stock
    requires sent <= |units|
  {
    map k | k in PickedKeys(picks) && BookedOn(units, reply, sent, k) > 0 :: BookedOn(units, reply, sent, k)
  }

  lemma {:induction false} BookedWithinClaim(picks: seq<Pick>, check: nat -> Check, reply: nat -> Reply, sent: nat, k: RateKey)
    requires sent <= |UnitsOf(Requests(picks), check)|
    requires sent > 0 ==> UnitsFollow(UnitsOf(Requests(picks), check), Requests(picks), |Requests(picks)|)
    ensures var units := UnitsOf(Requests(picks), check);
      && BookedOn(units, reply, sent, k) <= Available(Totals(PickItems(picks)), k)
      && BookedOn(units, reply, sent, k) <= ReallyBooked(units, reply, sent)
  {
    var units := UnitsOf(Requests(picks), check);
    BookedOnWithinBooked(units, reply, sent, k);
    if sent > 0 {
      BookedWithinRequested(units, Requests(picks), |Requests(picks)|, reply, sent, k);
      assert Requests(picks)[..|Requests(picks)|] == Requests(picks);
      RequestsMatchClaim(picks, k);
    }
  }

  /**
   Whatever the supplier does, an attempt made for a claim answers as the booking
   run admits: it books no more rooms of any rate than the claim holds, and none
   at all when it is rejected or blocked, so that its claim may be released.
   */
  lemma {:induction false} AttemptStaysInClaim(picks: seq<Pick>, check: nat -> Check, reply: nat -> Reply, backend: Backend)
    requires Requests(picks) != []
    ensures var ended := Attempted(Requests(picks), None, check, reply, backend);
      var units := UnitsOf(Requests(picks), check);
      && ended.sent <= |units|
      && CanHaveBooked(AnswerOf(ended), BookedStock(units, reply, ended.sent, picks), Totals(PickItems(picks)))
  {
    var ended := Attempted(Requests(picks), None, check, reply, backend);
    var units := UnitsOf(Requests(picks), check);
    AttemptIsAllOrNone(Requests(picks), None, check, reply, backend);
    forall k: RateKey
      ensures BookedOn(units, reply, ended.sent, k) <= Available(Totals(PickItems(picks)), k)
      ensures BookedOn(units, reply, ended.sent, k) <= ReallyBooked(units, reply, ended.sent)
    {
      BookedWithinClaim(picks, check, reply, ended.sent, k);
    }
  }

  /** Accepted units book all rooms asked for on each rate. */
  lemma {:induction false} AcceptedBookAll(
    units: seq<Unit>, rooms: seq<RoomRequest>, n: nat, reply: nat -> Reply, k: RateKey)
    requires UnitsFollow(units, rooms, n) && n <= |rooms| && forall u | 0 <= u < |units| :: reply(u).Accepted?
    ensures BookedOn(units, reply, |units|, k) == RequestedOn(rooms[..n], k)
    decreases |units|
  {
    if units != [] {
      var front, last := units[..|units| - 1], units[|units| - 1];
      var m := n - |last.rooms|;
      LastUnitsRooms(units, rooms, n);
      AcceptedBookAll(front, rooms, m, reply, k);
      SameBooked(units, reply, |front|, k);
      RequestedRun(rooms, m, n, last.rateKey, k);
    }
  }

  lemma {:induction false} RequestedRun(rooms: seq<RoomRequest>, m: nat, n: nat, rate: RateKey, k: RateKey)
    requires m <= n <= |rooms| && forall r | r in rooms[m..n] :: r.rateKey == rate
    ensures RequestedOn(rooms[..n], k) == RequestedOn(rooms[..m], k) + if rate == k then n - m else 0
  {
    if m < n {
      assert rooms[m..n] == rooms[m..n - 1] + [rooms[n - 1]];
      RequestedRun(rooms, m, n - 1, rate, k);
      assert rooms[..n][..n - 1] == rooms[..n - 1];
    }
  }

  /** A confirmed attempt books exactly the rooms of its claim, rate by rate. */
  lemma {:induction false} ConfirmedBooksTheClaim(
    picks: seq<Pick>, check: nat -> Check, reply: nat -> Reply, backend: Backend, k: RateKey)
    requires Requests(picks) != []
    requires Attempted(Requests(picks), None, check, reply, backend).outcome == Confirmed
    ensures var units := UnitsOf(Requests(picks), check);
      BookedOn(units, reply, |units|, k) == Available(Totals(PickItems(picks)), k)
  {
    var rooms := Requests(picks);
    var units := UnitsOf(rooms, check);
    NothingSentUnchecked(rooms, None, check, reply, backend);
    BuiltUnitsFollow(rooms, check);
    AcceptedBookAll(units, rooms, |rooms|, reply, k);
    assert rooms[..|rooms|] == rooms;
    RequestsMatchClaim(picks, k);
  }

  /**
   What the run hears of an attempt tells what the supplier did: confirmed exactly if
   every unit was accepted and confirmed and the booking saved; a rejection as a group
   booking exactly if the supplier gave that answer to the first request; blocked
   exactly if the attempt was not started or was settled elsewhere before its request.
   */
  lemma {:induction false} AnswerTells(
    rooms: seq<RoomRequest>, check: nat -> Check, reply: nat -> Reply, backend: Backend)
    requires rooms != []
    ensures var ended := Attempted(rooms, None, check, reply, backend);
      var units, answer := UnitsOf(rooms, check), AnswerOf(ended);
      && (answer == AnsweredConfirmed <==>
            ended.sent > 0 && backend.saved && forall u | 0 <= u < |units| :: reply(u) == Accepted(true))
      && (answer == AnsweredRejected(true) <==> ended.sent > 0 && reply(0) == Rejected(true))
      && (answer == AnsweredRejected(false) <==>
            (ended.sent == 0 && answer != AnsweredBlocked) || (ended.sent > 0 && reply(0) == Rejected(false)))
      && (answer == AnsweredBlocked <==>
            !backend.started
            || (!backend.stillOpen && MaySend(rooms, None, check, backend.(stillOpen := true))))
      && answer != Threw
  {
    var ended, units := Attempted(rooms, None, check, reply, backend), UnitsOf(rooms, check);
    NothingSentUnchecked(rooms, None, check, reply, backend);
    if ended.sent > 0 {
      BuiltUnitsFollow(rooms, check);
      FollowingUnitsCount(units, rooms, |rooms|);
      SentAnswer(units, reply, backend.saved);
    } else {
      assert InTurn(rooms, check, [0]);
      var starts := AskOn(rooms, check, [0]);
      BuiltFromAnswers(rooms, check, starts);
    }
  }

  lemma {:induction false} SentAnswer(units: seq<Unit>, reply: nat -> Reply, saved: bool)
    requires units != []
    ensures var answer := AnswerOf(BookedAs(units, reply, saved));
      && (answer == AnsweredConfirmed <==> saved && forall u | 0 <= u < |units| :: reply(u) == Accepted(true))
      && (answer == AnsweredRejected(true) <==> reply(0) == Rejected(true))
      && (answer == AnsweredRejected(false) <==> reply(0) == Rejected(false))
      && answer != AnsweredBlocked
  {
    var r := FirstRefusal(units, reply, 0);
    assert r > 0 ==> reply(0).Accepted?;
    if r == |units| {
      AcceptancesDecide(units, reply, saved);
    } else {
      RefusalDecides(units, reply, saved, r);
      RefusedIsNotConfirmed(units, reply, saved, r);
    }
  }

  lemma {:induction false} RefusedIsNotConfirmed(units: seq<Unit>, reply: nat -> Reply, saved: bool, r: nat)
    requires StopsAt(units, reply, r)
    ensures BookedAs(units, reply, saved).outcome in {Unknown, RejectedOutcome}
    ensures !(forall u | 0 <= u < |units| :: reply(u) == Accepted(true))
  {
    FirstRefusalIs(units, reply, 0, r);
  }

  // ---- Every attempt of a run may really return ----------------------------------------------

  /** As planned: every room type of every candidate needs a room. */
  predicate CandidatesNeedRooms(run: Run) {
    forall p | p in run.workers :: forall x | x in run.workers[p].candidates ::
      forall plan | plan in x.rooms :: plan.roomsNeeded > 0
  }

  predicate PicksRooms(picks: seq<Pick>) {
    picks != [] && forall i | 0 <= i < |picks| :: picks[i].roomsNeeded > 0
  }

  predicate WorkersPickRooms(run: Run) {
    forall p | p in run.workers && run.workers[p].stage.Attempting? :: PicksRooms(run.workers[p].stage.choice.picks)
  }

  lemma {:induction false} TurnPicksRooms(s: Shared, w: Worker)
    requires forall x | x in w.candidates :: forall plan | plan in x.rooms :: plan.roomsNeeded > 0
    requires w.stage.Ready?
    ensures var w' := NextTurn(s, w).1;
      w'.candidates == w.candidates && (w'.stage.Attempting? ==> PicksRooms(w'.stage.choice.picks))
  {
    var first := FirstSelectable(w.candidates, 0, s.restricted, s.books.remaining, w.excluded);
    if first.Some? {
      var rooms := w.candidates[first.value.index].rooms;
      assert w.candidates[first.value.index] in w.candidates;
      PicksMatchRooms(rooms, s.books.remaining, w.excluded);
      forall i | 0 <= i < |first.value.picks|
        ensures first.value.picks[i].roomsNeeded > 0
      {
        assert rooms[i] in rooms;
      }
    }
  }

  lemma {:induction false} WorkerPicksRooms(run: Run, p: PnrId, s: Shared, w: Worker)
    requires WorkersPickRooms(run) && CandidatesNeedRooms(run) && p in run.workers
    requires w.candidates == run.workers[p].candidates && (w.stage.Attempting? ==> PicksRooms(w.stage.choice.picks))
    ensures WorkersPickRooms(After(run, p, s, w)) && CandidatesNeedRooms(After(run, p, s, w))
  {
  }

  lemma {:induction false} SettlePicksRooms(run: Run, p: PnrId, answer: Answer, booked: Stock)
    requires WorkersPickRooms(run) && CandidatesNeedRooms(run) && Enabled(run, Return(p, answer, booked))
    ensures var after := SettleClaim(run, p, answer, booked);
      WorkersPickRooms(after) && CandidatesNeedRooms(after) && (answer.AnsweredRejected? ==> after.workers[p].stage.Ready?)
  {
  }

  lemma {:induction false} StepPicksRooms(run: Run, step: Step)
    requires WorkersPickRooms(run) && CandidatesNeedRooms(run)
    ensures WorkersPickRooms(Apply(run, step)) && CandidatesNeedRooms(Apply(run, step))
  {
    if Enabled(run, step) {
      match step
      case Begin(p) =>
        var (s, w) := NextTurn(run.shared, run.workers[p]);
        TurnPicksRooms(run.shared, run.workers[p]);
        WorkerPicksRooms(run, p, s, w);
      case Return(p, answer, booked) =>
        var settled := SettleClaim(run, p, answer, booked);
        SettlePicksRooms(run, p, answer, booked);
        if answer.AnsweredRejected? {
          var (s, w) := NextTurn(settled.shared, settled.workers[p]);
          TurnPicksRooms(settled.shared, settled.workers[p]);
          WorkerPicksRooms(settled, p, s, w);
        }
    }
  }

  lemma {:induction false} RunPicksRooms(start: Run, stock: Stock, steps: seq<Step>)
    requires Fresh(start, stock) && CandidatesNeedRooms(start)
    ensures WorkersPickRooms(Exec(start, steps)) && CandidatesNeedRooms(Exec(start, steps))
  {
    if steps != [] {
      RunPicksRooms(start, stock, steps[..|steps| - 1]);
      StepPicksRooms(Exec(start, steps[..|steps| - 1]), steps[|steps| - 1]);
    }
  }

  lemma {:induction false} PickedRoomsAreRequested(picks: seq<Pick>)
    requires PicksRooms(picks)
    ensures Requests(picks) != []
  {
    assert picks[0].roomsNeeded > 0;
    assert Copies(SentRoom(picks[0].rateKey, picks[0].shape), picks[0].roomsNeeded) != [];
  }

  /**
   In every reachable state, whatever the supplier, the wallet and the database
   answer to an attempt a worker is making, its answer and the rooms it really
   booked are a step the run can take: releasing a claim only when nothing was
   booked is what attempts do, not an assumption of the run.
   */
  lemma {:induction false} EveryAttemptCanReturn(
    start: Run, stock: Stock, steps: seq<Step>, p: PnrId, check: nat -> Check, reply: nat -> Reply, backend: Backend)
    requires Fresh(start, stock) && CandidatesNeedRooms(start)
    requires p in Exec(start, steps).workers && Exec(start, steps).workers[p].stage.Attempting?
    ensures var run := Exec(start, steps);
      var picks := run.workers[p].stage.choice.picks;
      && Requests(picks) != []
      && var ended := Attempted(Requests(picks), None, check, reply, backend);
         var units := UnitsOf(Requests(picks), check);
         && ended.sent <= |units|
         && Enabled(run, Return(p, AnswerOf(ended), BookedStock(units, reply, ended.sent, picks)))
  {
    var run := Exec(start, steps);
    var picks := run.workers[p].stage.choice.picks;
    RunPicksRooms(start, stock, steps);
    PickedRoomsAreRequested(picks);
    RunKeepsInv(start, stock, steps);
    assert HoldsClaim(run, p, run.workers[p]);
    AttemptStaysInClaim(picks, check, reply, backend);
  }
}
