/**
 A booking attempt told from the supplier's answers: which re-checks let it send,
 what each refusal means, and which replies leave which failure code.
 */
module AttemptAnswers {
  import opened Common
  import opened Rooms
  import opened Ledger
  import opened Planner
  import opened CandidatePlanning
  import opened BookingAttempt
  import BookingRecords

  // ---- Answers to the re-checks ------------------------------------------------------

  /** The rooms a re-checked rate stands for: those of the order, or the one it describes. */
  function AnsweredRooms(answer: Check): RoomList
    requires answer.Check?
  {
    match answer.rooms
    case Some(rooms) => rooms
    case None => [Shape(answer.adults, answer.children)]
  }

  /** The answer lets the attempt book its rooms from `index` on. */
  predicate Passes(rooms: seq<RoomRequest>, index: nat, answer: Check)
    requires index < |rooms|
  {
    && answer.Check? && !answer.taxesAtProperty
    && var n := |AnsweredRooms(answer)|;
       && index + n <= |rooms|
       && (forall i | index <= i < index + n :: rooms[i].rateKey == rooms[index].rateKey)
       && (answer.rooms.Some? && (forall i | index <= i < index + n :: rooms[i].shape.Some?) ==>
             multiset(answer.rooms.value)
             == multiset(seq(n, i requires 0 <= i < n => rooms[index + i].shape.value)))
       && (answer.rooms.None? && rooms[index].shape.Some? ==>
             answer.adults >= rooms[index].shape.value.adults && answer.children >= rooms[index].shape.value.children)
  }

  /** Why an answer that does not pass is refused. */
  function Cause(answer: Check): BookingRecords.FailureCode {
    if answer.CheckFailed? then BookingRecords.RateCheckFailed
    else if answer.taxesAtProperty then BookingRecords.HotelPayableTaxes
    else BookingRecords.RateMismatch
  }

  /** The unit an answer that passes stands for. */
  function UnitAt(rooms: seq<RoomRequest>, index: nat, answer: Check): Unit
    requires index < |rooms| && answer.Check?
  {
    Unit(rooms[index].rateKey, answer.hotel, AnsweredRooms(answer), answer.rooms.Some?)
  }

  /** Answer `u` passes for the rooms from starts[u] on, and the next one is for those right after. */
  predicate PassesAt(rooms: seq<RoomRequest>, check: nat -> Check, starts: seq<nat>, u: nat)
    requires u + 1 < |starts|
  {
    && starts[u] < |rooms| && Passes(rooms, starts[u], check(u))
    && starts[u + 1] == starts[u] + |AnsweredRooms(check(u))|
  }

  /** The answers pass one after another. */
  predicate InTurn(rooms: seq<RoomRequest>, check: nat -> Check, starts: seq<nat>) {
    && starts != [] && starts[0] == 0 && starts[|starts| - 1] <= |rooms|
    && forall u | 0 <= u < |starts| - 1 :: PassesAt(rooms, check, starts, u)
  }

  /** ... until none is left to ask for, or one does not pass. */
  predicate Asked(rooms: seq<RoomRequest>, check: nat -> Check, starts: seq<nat>) {
    && InTurn(rooms, check, starts)
    && (starts[|starts| - 1] < |rooms| ==> !Passes(rooms, starts[|starts| - 1], check(|starts| - 1)))
  }

  predicate AllPass(rooms: seq<RoomRequest>, check: nat -> Check, starts: seq<nat>) {
    InTurn(rooms, check, starts) && starts[|starts| - 1] == |rooms|
  }

  function UnitsAnswered(rooms: seq<RoomRequest>, check: nat -> Check, starts: seq<nat>): (units: seq<Unit>)
    requires InTurn(rooms, check, starts)
    ensures |units| == |starts| - 1
  {
    seq(|starts| - 1, u requires 0 <= u < |starts| - 1 =>
      assert PassesAt(rooms, check, starts, u); UnitAt(rooms, starts[u], check(u)))
  }

  lemma {:induction false} CoveredShapes(rooms: seq<RoomRequest>, index: nat, n: nat)
    requires index + n <= |rooms| && forall i | index <= i < index + n :: rooms[i].shape.Some?
    ensures forall r | r in rooms[index..index + n] :: r.shape.Some?
    ensures AskedShapes(rooms[index..index + n]) == seq(n, i requires 0 <= i < n => rooms[index + i].shape.value)
  {
    var covered := rooms[index..index + n];
    forall r | r in covered ensures r.shape.Some? {
      var i :| 0 <= i < n && covered[i] == r;
      assert rooms[index + i].shape.Some?;
    }
  }

  lemma {:induction false} MatchesIff(rooms: seq<RoomRequest>, index: nat, answer: Check)
    requires answer.Check? && index + |AnsweredRooms(answer)| <= |rooms|
    ensures OrderRooms(answer) == AnsweredRooms(answer)
    ensures var covered := rooms[index..index + |AnsweredRooms(answer)|];
      CheckMatches(answer, rooms[index].rateKey, covered) && !answer.taxesAtProperty <==> Passes(rooms, index, answer)
  {
    var n := |AnsweredRooms(answer)|;
    var covered := rooms[index..index + n];
    CoveredRooms(rooms, index, n);
    if forall r | r in covered :: r.shape.Some? {
      CoveredShapes(rooms, index, n);
    }
  }

  lemma {:induction false} CoveredRooms(rooms: seq<RoomRequest>, index: nat, n: nat)
    requires 0 < n && index + n <= |rooms|
    ensures var covered := rooms[index..index + n];
      && covered[0] == rooms[index]
      && ((forall r | r in covered :: r.rateKey == rooms[index].rateKey)
          <==> forall i | index <= i < index + n :: rooms[i].rateKey == rooms[index].rateKey)
      && ((forall r | r in covered :: r.shape.Some?) <==> forall i | index <= i < index + n :: rooms[i].shape.Some?)
  {
    var covered := rooms[index..index + n];
    assert forall i | index <= i < index + n :: rooms[i] == covered[i - index] && rooms[i] in covered;
  }

  /** The re-check of a unit accepts exactly the answers that pass, and names the cause of the others. */
  lemma {:induction false} RecheckAccepts(rooms: seq<RoomRequest>, index: nat, answer: Check)
    requires index < |rooms|
    ensures var checked := CheckUnit(rooms, index, answer);
      && (Passes(rooms, index, answer) ==> checked == UnitChecked(UnitAt(rooms, index, answer)))
      && (!Passes(rooms, index, answer) ==>
            || checked == CheckRefused(Cause(answer))
            || (checked.UnitChecked? && index + |checked.unit.rooms| > |rooms|
                && Cause(answer) == BookingRecords.RateMismatch))
  {
    if answer.Check? && index + |AnsweredRooms(answer)| <= |rooms| {
      MatchesIff(rooms, index, answer);
    }
  }

  /** The re-check from starts[u] on gives unit `u`, and the next one is for the rooms right after. */
  predicate GivesUnit(recheck: Recheck, units: seq<Unit>, starts: seq<nat>, n: nat, u: nat)
    requires u < |units| && |starts| == |units| + 1
  {
    && starts[u] < n && recheck(starts[u], u) == UnitChecked(units[u])
    && starts[u + 1] == starts[u] + |units[u].rooms| <= n
  }

  /** Units that the re-checks give in turn are the ones the loop builds. */
  lemma {:induction false} BuildUpTo(recheck: Recheck, units: seq<Unit>, starts: seq<nat>, n: nat, u: nat)
    requires |starts| == |units| + 1 && starts[0] == 0 && u <= |units|
    requires forall v | 0 <= v < |units| :: GivesUnit(recheck, units, starts, n, v)
    ensures starts[u] <= n && BuildFrom([], n, 0, recheck) == BuildFrom(units[..u], n, starts[u], recheck)
  {
    if u > 0 {
      BuildUpTo(recheck, units, starts, n, u - 1);
      assert GivesUnit(recheck, units, starts, n, u - 1);
      assert units[..u] == units[..u - 1] + [units[u - 1]];
    }
  }

  lemma {:induction false} AnswersGiveUnits(rooms: seq<RoomRequest>, check: nat -> Check, starts: seq<nat>, u: nat)
    requires InTurn(rooms, check, starts) && u < |starts| - 1
    ensures GivesUnit(RecheckOf(rooms, check), UnitsAnswered(rooms, check, starts), starts, |rooms|, u)
  {
    assert PassesAt(rooms, check, starts, u);
    RecheckAccepts(rooms, starts[u], check(u));
  }

  /**
   The units to book are those of the answers that pass, in turn; the first that
   does not pass ends the attempt with its cause.
   */
  lemma {:induction false} BuiltFromAnswers(rooms: seq<RoomRequest>, check: nat -> Check, starts: seq<nat>)
    requires Asked(rooms, check, starts)
    ensures BuiltUnits(rooms, check)
         == Built(UnitsAnswered(rooms, check, starts),
                  if AllPass(rooms, check, starts) then None else Some(Cause(check(|starts| - 1))))
  {
    var index, units := starts[|starts| - 1], UnitsAnswered(rooms, check, starts);
    forall u | 0 <= u < |units| ensures GivesUnit(RecheckOf(rooms, check), units, starts, |rooms|, u) {
      AnswersGiveUnits(rooms, check, starts, u);
    }
    BuildUpTo(RecheckOf(rooms, check), units, starts, |rooms|, |units|);
    assert units[..|units|] == units;
    if index < |rooms| {
      RecheckAccepts(rooms, index, check(|starts| - 1));
    }
  }

  lemma {:induction false} AskOn(rooms: seq<RoomRequest>, check: nat -> Check, starts: seq<nat>) returns (asked: seq<nat>)
    requires InTurn(rooms, check, starts)
    ensures Asked(rooms, check, asked)
    decreases |rooms| - starts[|starts| - 1]
  {
    var n := |starts| - 1;
    if starts[n] < |rooms| && Passes(rooms, starts[n], check(n)) {
      var more := starts + [starts[n] + |AnsweredRooms(check(n))|];
      forall u | 0 <= u < |more| - 1 ensures PassesAt(rooms, check, more, u) {
        if u < n {
          assert PassesAt(rooms, check, starts, u);
        }
      }
      asked := AskOn(rooms, check, more);
    } else {
      asked := starts;
    }
  }

  // ---- What lets the attempt send -----------------------------------------------------------

  function AnsweredAdults(check: nat -> Check, n: nat): nat {
    if n == 0 then 0
    else AnsweredAdults(check, n - 1) + if check(n - 1).Check? then SumAdults(AnsweredRooms(check(n - 1))) else 0
  }

  function AnsweredChildren(check: nat -> Check, n: nat): nat {
    if n == 0 then 0
    else AnsweredChildren(check, n - 1) + if check(n - 1).Check? then SumChildren(AnsweredRooms(check(n - 1))) else 0
  }

  /** The first `n` answers are for one hotel. */
  predicate AnsweredHotel(check: nat -> Check, n: nat) {
    forall u, v | 0 <= u < n && 0 <= v < n && check(u).Check? && check(v).Check? :: check(u).hotel == check(v).hotel
  }

  predicate AnsweredParty(check: nat -> Check, n: nat, party: Option<Party>) {
    party.Some? ==> AnsweredAdults(check, n) >= party.value.adults && AnsweredChildren(check, n) >= party.value.children
  }

  lemma {:induction false} FlatSums(units: seq<Unit>, check: nat -> Check, n: nat)
    requires n <= |units| && forall u | 0 <= u < n :: check(u).Check? && AnsweredRooms(check(u)) == units[u].rooms
    ensures SumAdults(FlatRooms(units[..n])) == AnsweredAdults(check, n)
    ensures SumChildren(FlatRooms(units[..n])) == AnsweredChildren(check, n)
  {
    if n > 0 {
      FlatSums(units, check, n - 1);
      assert units[..n][..n - 1] == units[..n - 1];
      SumsOfConcat(FlatRooms(units[..n - 1]), units[n - 1].rooms);
    }
  }

  lemma {:induction false} AnsweredUnits(rooms: seq<RoomRequest>, check: nat -> Check, starts: seq<nat>, party: Option<Party>)
    requires InTurn(rooms, check, starts)
    ensures var units := UnitsAnswered(rooms, check, starts);
      && (OneHotel(units) <==> AnsweredHotel(check, |starts| - 1))
      && (HoldsParty(units, party) <==> AnsweredParty(check, |starts| - 1, party))
  {
    var units, n := UnitsAnswered(rooms, check, starts), |starts| - 1;
    forall u | 0 <= u < n
      ensures check(u).Check? && units[u].hotel == check(u).hotel && AnsweredRooms(check(u)) == units[u].rooms
    {
      assert PassesAt(rooms, check, starts, u);
    }
    FlatSums(units, check, n);
    assert units[..n] == units;
  }

  /** The answers cover all rooms, in one hotel, and hold the party. */
  predicate Cleared(rooms: seq<RoomRequest>, party: Option<Party>, check: nat -> Check, starts: seq<nat>) {
    AllPass(rooms, check, starts) && AnsweredHotel(check, |starts| - 1) && AnsweredParty(check, |starts| - 1, party)
  }

  /** How an attempt that sent nothing ended. */
  predicate NotSent(ended: Ended, outcome: Outcome, failure: Option<BookingRecords.FailureCode>) {
    ended == Ended(outcome, failure, 0)
  }

  /**
   What the answers say decides the attempt. It sends exactly when they clear it,
   the funds are reserved and it is still open, and then books their units. Each
   refusal has its own cause: the first answer that does not pass, two hotels, a
   party too large, or the wallet.
   */
  lemma {:induction false} AnswersDecide(
    rooms: seq<RoomRequest>, party: Option<Party>, check: nat -> Check, reply: nat -> Reply, backend: Backend,
    starts: seq<nat>)
    requires rooms != [] && Asked(rooms, check, starts) && backend.started
    ensures var ended, n := Attempted(rooms, party, check, reply, backend), |starts| - 1;
      var passed, cleared := AllPass(rooms, check, starts), Cleared(rooms, party, check, starts);
      && (ended.sent > 0 <==> cleared && backend.reserve == Reserved && backend.stillOpen)
      && (ended.sent > 0 ==> ended == BookedAs(UnitsAnswered(rooms, check, starts), reply, backend.saved))
      && (!passed ==> NotSent(ended, RejectedOutcome, Some(Cause(check(n)))))
      && (passed && !AnsweredHotel(check, n) ==> NotSent(ended, RejectedOutcome, Some(BookingRecords.MixedHotels)))
      && (passed && AnsweredHotel(check, n) && !AnsweredParty(check, n, party) ==>
            NotSent(ended, RejectedOutcome, Some(BookingRecords.RateMismatch)))
      && (cleared && backend.reserve == NotEnoughFunds ==>
            NotSent(ended, RejectedOutcome, Some(BookingRecords.InsufficientWalletBalance)))
      && (cleared && backend.reserve == ReserveFailed ==>
            NotSent(ended, RejectedOutcome, Some(BookingRecords.WalletReserveFailed)))
      && (cleared && backend.reserve == Reserved && !backend.stillOpen ==> NotSent(ended, Blocked, None))
  {
    BuiltFromAnswers(rooms, check, starts);
    AnsweredUnits(rooms, check, starts, party);
    NothingSentUnchecked(rooms, party, check, reply, backend);
  }

  lemma {:induction false} StartsAreUnique(rooms: seq<RoomRequest>, check: nat -> Check, starts: seq<nat>, other: seq<nat>, u: nat)
    requires InTurn(rooms, check, starts) && InTurn(rooms, check, other) && u < |starts| && u < |other|
    ensures starts[u] == other[u]
  {
    if u > 0 {
      StartsAreUnique(rooms, check, starts, other, u - 1);
      assert PassesAt(rooms, check, starts, u - 1) && PassesAt(rooms, check, other, u - 1);
    }
  }

  lemma {:induction false} NotPast(rooms: seq<RoomRequest>, check: nat -> Check, starts: seq<nat>, other: seq<nat>)
    requires InTurn(rooms, check, starts) && Asked(rooms, check, other)
    ensures |starts| <= |other|
  {
    var n: nat := |other| - 1;
    assert |starts| > |other| ==> PassesAt(rooms, check, starts, n);
    if n < |starts| {
      StartsAreUnique(rooms, check, starts, other, n);
    }
  }

  lemma {:induction false} AskedIsUnique(rooms: seq<RoomRequest>, check: nat -> Check, starts: seq<nat>, other: seq<nat>)
    requires Asked(rooms, check, starts) && Asked(rooms, check, other)
    ensures starts == other
  {
    NotPast(rooms, check, starts, other);
    NotPast(rooms, check, other, starts);
    forall u | 0 <= u < |starts| ensures starts[u] == other[u] {
      StartsAreUnique(rooms, check, starts, other, u);
    }
  }

  /**
   A booking request is sent if and only if the attempt started, the supplier's
   answers one after another pass, are for one hotel and hold the party, the funds
   are reserved and the attempt is still open.
   */
  lemma {:induction false} SentIffAnswersPass(
    rooms: seq<RoomRequest>, party: Option<Party>, check: nat -> Check, reply: nat -> Reply, backend: Backend)
    requires rooms != []
    ensures Attempted(rooms, party, check, reply, backend).sent > 0 <==>
      && backend.started && backend.reserve == Reserved && backend.stillOpen
      && exists starts :: Cleared(rooms, party, check, starts)
  {
    assert InTurn(rooms, check, [0]);
    var starts := AskOn(rooms, check, [0]);
    if backend.started {
      AnswersDecide(rooms, party, check, reply, backend, starts);
    }
    forall other | Cleared(rooms, party, check, other) ensures other == starts {
      assert Asked(rooms, check, other);
      AskedIsUnique(rooms, check, other, starts);
    }
  }

  // ---- Answers to the booking requests ------------------------------------------------------------

  /** The first `n` units were accepted. */
  predicate AllAccepted(reply: nat -> Reply, n: nat) {
    forall u | 0 <= u < n :: reply(u).Accepted?
  }

  /** Unit `r` is the first the supplier does not accept. */
  predicate StopsAt(units: seq<Unit>, reply: nat -> Reply, r: nat) {
    r < |units| && AllAccepted(reply, r) && !reply(r).Accepted?
  }

  lemma {:induction false} RefusedFirst(units: seq<Unit>, reply: nat -> Reply, r: nat)
    requires r <= |units| && AllAccepted(reply, r) && (r < |units| ==> !reply(r).Accepted?)
    ensures FirstRefusal(units, reply, 0) == r
  {
    FirstRefusalIs(units, reply, 0, r);
  }

  /** When every unit is accepted, all are sent; the code tells whether one was unconfirmed or the booking not saved. */
  lemma {:induction false} AcceptancesDecide(units: seq<Unit>, reply: nat -> Reply, saved: bool)
    requires units != [] && AllAccepted(reply, |units|)
    ensures var confirmed := forall u | 0 <= u < |units| :: reply(u) == Accepted(true);
      BookedAs(units, reply, saved) ==
        if !confirmed then Ended(Unknown, Some(BookingRecords.ProviderUnconfirmed), |units|)
        else if !saved then Ended(Unknown, Some(BookingRecords.SaveFailed), |units|)
        else Ended(Confirmed, None, |units|)
  {
    RefusedFirst(units, reply, |units|);
    if u :| 0 <= u < |units| && reply(u) != Accepted(true) {
      assert !reply(u).confirmed;
    }
  }

  /**
   Otherwise the first unit not accepted is the last one sent. A lost answer leaves
   the outcome unknown, a rejection after bookings a partial booking; a rejection of
   the first unit fails the attempt, as a group booking exactly if the supplier said so.
   */
  lemma {:induction false} RefusalDecides(units: seq<Unit>, reply: nat -> Reply, saved: bool, r: nat)
    requires StopsAt(units, reply, r)
    ensures var ended := BookedAs(units, reply, saved);
      && ended.sent == r + 1
      && (ended.failure == Some(BookingRecords.OutcomeUnknown) <==> reply(r).Lost?)
      && (ended.failure == Some(BookingRecords.PartialBooking) <==> reply(r).Rejected? && r > 0)
      && (ended.failure == Some(BookingRecords.GroupBookingRestricted) <==> reply(r) == Rejected(true) && r == 0)
      && (ended.failure == Some(BookingRecords.SupplierRejected) <==> reply(r) == Rejected(false) && r == 0)
      && (ended.outcome == RejectedOutcome <==> reply(r).Rejected? && r == 0)
  {
    RefusedFirst(units, reply, r);
  }
}
