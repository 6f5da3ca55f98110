/**
 One booking attempt against the supplier, and the late settlement of an attempt
 whose outcome was not known when it was made.
 */
module BookingAttempt {
  import opened Common
  import opened Rooms
  import opened Ledger
  import opened Planner
  import BookingRecords

  datatype RoomRequest = RoomRequest(rateKey: RateKey, shape: Option<Shape>)

  /** The rooms of an order; there is always one. */
  type RoomList = rooms: seq<Shape> | rooms != [] witness [Shape(1, 0)]

  /** The supplier's re-check of a rate; `rooms` is set when the rate is one order of several rooms. */
  datatype Check =
    | CheckFailed
    | Check(hotel: HotelCode, taxesAtProperty: bool, adults: nat, children: nat, rooms: Option<RoomList>)

  /** One supplier order: consecutive rooms of the attempt on one rate key. */
  datatype Unit = Unit(rateKey: RateKey, hotel: HotelCode, rooms: RoomList, asOrder: bool)

  datatype OrderStatus = OrderPending | OrderBooked | OrderFailed

  datatype Order = Order(room: nat, reference: nat, status: OrderStatus)

  // ---- From room requests to orders ----------------------------------------------

  function UnitRooms(units: seq<Unit>): nat {
    if units == [] then 0 else UnitRooms(units[..|units| - 1]) + |units[|units| - 1].rooms|
  }

  /** The supplier's rooms hold what was asked: exactly for an order, at least for a single room. */
  predicate UnitServes(unit: Unit, asked: seq<RoomRequest>) {
    && |asked| == |unit.rooms|
    && (forall r | r in asked :: r.rateKey == unit.rateKey)
    && (unit.asOrder && (forall r | r in asked :: r.shape.Some?) ==>
          multiset(AskedShapes(asked)) == multiset(unit.rooms))
    && (!unit.asOrder && asked[0].shape.Some? ==>
          |unit.rooms| == 1 && Covering(unit.rooms[0].adults, unit.rooms[0].children, asked[0].shape.value))
  }

  function AskedShapes(asked: seq<RoomRequest>): seq<Shape>
    requires forall r | r in asked :: r.shape.Some?
  {
    seq(|asked|, i requires 0 <= i < |asked| => assert asked[i] in asked; asked[i].shape.value)
  }

  /** The units lie one after another up to room `n`, each where it `serves`. */
  predicate Follow(units: seq<Unit>, n: nat, serves: (Unit, nat) -> bool) {
    if units == [] then n == 0 else
      var last := units[|units| - 1];
      |last.rooms| <= n && Follow(units[..|units| - 1], n - |last.rooms|, serves) && serves(last, n - |last.rooms|)
  }

  function ServingAt(rooms: seq<RoomRequest>): (Unit, nat) -> bool {
    (unit: Unit, index: nat) =>
      index + |unit.rooms| <= |rooms| && UnitServes(unit, rooms[index..index + |unit.rooms|])
  }

  /** The units follow the rooms one after another, and together they are all of the first `n`. */
  predicate UnitsFollow(units: seq<Unit>, rooms: seq<RoomRequest>, n: nat) {
    n <= |rooms| && Follow(units, n, ServingAt(rooms))
  }

  function OrderRooms(answer: Check): RoomList
    requires answer.Check?
  {
    if answer.rooms.Some? then answer.rooms.value else [Shape(answer.adults, answer.children)]
  }

  /** The re-check describes the rooms it covers. */
  predicate CheckMatches(answer: Check, rateKey: RateKey, covered: seq<RoomRequest>)
    requires answer.Check? && covered != []
  {
    && (forall r | r in covered :: r.rateKey == rateKey)
    && (if answer.rooms.Some? then
          (forall r | r in covered :: r.shape.Some?) ==> multiset(AskedShapes(covered)) == multiset(OrderRooms(answer))
        else
          covered[0].shape.Some? ==> Covering(answer.adults, answer.children, covered[0].shape.value))
  }

  /** One re-check: a unit of consecutive rooms, or why the attempt fails. */
  datatype CheckResult = UnitChecked(unit: Unit) | CheckRefused(code: BookingRecords.FailureCode)

  function CheckUnit(rooms: seq<RoomRequest>, index: nat, answer: Check): CheckResult
    requires index < |rooms|
  {
    if answer.CheckFailed? then CheckRefused(BookingRecords.RateCheckFailed)
    else if answer.taxesAtProperty then CheckRefused(BookingRecords.HotelPayableTaxes)
    else
      var orderRooms := OrderRooms(answer);
      var covered := rooms[index..Min(index + |orderRooms|, |rooms|)];
      if !CheckMatches(answer, rooms[index].rateKey, covered) then CheckRefused(BookingRecords.RateMismatch)
      else UnitChecked(Unit(rooms[index].rateKey, answer.hotel, orderRooms, answer.rooms.Some?))
  }

  /** The re-check of the rooms from an index on; `check(k)` is the supplier's k-th answer. */
  type Recheck = (nat, nat) -> CheckResult

  function RecheckOf(rooms: seq<RoomRequest>, check: nat -> Check): Recheck {
    (index: nat, k: nat) =>
      if index < |rooms| then CheckUnit(rooms, index, check(k)) else CheckRefused(BookingRecords.RateMismatch)
  }

  /** A re-checked unit that does not run over the end serves the rooms it covers. */
  ghost predicate Serves(recheck: Recheck, n: nat, serves: (Unit, nat) -> bool) {
    forall index: nat, k: nat | recheck(index, k).UnitChecked? ::
      index + |recheck(index, k).unit.rooms| <= n ==> serves(recheck(index, k).unit, index)
  }

  lemma {:induction false} CheckedUnitServes(rooms: seq<RoomRequest>, index: nat, answer: Check)
    requires index < |rooms| && CheckUnit(rooms, index, answer).UnitChecked?
    requires index + |CheckUnit(rooms, index, answer).unit.rooms| <= |rooms|
    ensures ServingAt(rooms)(CheckUnit(rooms, index, answer).unit, index)
  {
  }

  lemma {:induction false} RechecksServe(rooms: seq<RoomRequest>, check: nat -> Check)
    ensures Serves(RecheckOf(rooms, check), |rooms|, ServingAt(rooms))
  {
    var recheck := RecheckOf(rooms, check);
    forall index: nat, k: nat | recheck(index, k).UnitChecked? && index + |recheck(index, k).unit.rooms| <= |rooms|
      ensures ServingAt(rooms)(recheck(index, k).unit, index)
    {
      CheckedUnitServes(rooms, index, check(k));
    }
  }

  datatype Built = Built(units: seq<Unit>, failure: Option<BookingRecords.FailureCode>)

  /** Unit after unit from room `index` on; a unit that runs over the last room does not match the rate. */
  function BuildFrom(units: seq<Unit>, n: nat, index: nat, recheck: Recheck): Built
    requires index <= n
    decreases n - index
  {
    if index == n then Built(units, None) else
      match recheck(index, |units|)
      case CheckRefused(code) => Built(units, Some(code))
      case UnitChecked(unit) =>
        if index + |unit.rooms| > n then Built(units, Some(BookingRecords.RateMismatch))
        else BuildFrom(units + [unit], n, index + |unit.rooms|, recheck)
  }

  function BuiltUnits(rooms: seq<RoomRequest>, check: nat -> Check): Built {
    BuildFrom([], |rooms|, 0, RecheckOf(rooms, check))
  }

  method BuildUnits(rooms: seq<RoomRequest>, check: nat -> Check) returns (built: Built)
    ensures built == BuiltUnits(rooms, check)
  {
    var units: seq<Unit> := [];
    var index := 0;
    ghost var recheck := RecheckOf(rooms, check);
    while index < |rooms|
      invariant index <= |rooms|
      invariant BuiltUnits(rooms, check) == BuildFrom(units, |rooms|, index, recheck)
      decreases |rooms| - index
    {
      var checked := CheckUnit(rooms, index, check(|units|));
      assert checked == recheck(index, |units|);
      if checked.CheckRefused? {
        return Built(units, Some(checked.code));
      }
      if index + |checked.unit.rooms| > |rooms| {
        return Built(units, Some(BookingRecords.RateMismatch));
      }
      index := index + |checked.unit.rooms|;
      units := units + [checked.unit];
    }
    built := Built(units, None);
  }

  lemma {:induction false} FollowMore(units: seq<Unit>, unit: Unit, index: nat, serves: (Unit, nat) -> bool)
    requires Follow(units, index, serves) && serves(unit, index)
    ensures Follow(units + [unit], index + |unit.rooms|, serves)
  {
    assert (units + [unit])[..|units|] == units;
  }

  lemma {:induction false} BuiltFollow(
    units: seq<Unit>, n: nat, index: nat, recheck: Recheck, serves: (Unit, nat) -> bool)
    requires index <= n && Follow(units, index, serves) && Serves(recheck, n, serves)
    ensures var built := BuildFrom(units, n, index, recheck);
      built.failure.None? ==> Follow(built.units, n, serves)
    decreases n - index
  {
    if index < n {
      var checked := recheck(index, |units|);
      if checked.UnitChecked? && index + |checked.unit.rooms| <= n {
        FollowMore(units, checked.unit, index, serves);
        BuiltFollow(units + [checked.unit], n, index + |checked.unit.rooms|, recheck, serves);
      }
    }
  }

  /** Re-checked units follow the rooms of the attempt without gap or overlap, and each serves its rooms. */
  lemma {:induction false} BuiltUnitsFollow(rooms: seq<RoomRequest>, check: nat -> Check)
    ensures BuiltUnits(rooms, check).failure.None? ==> UnitsFollow(BuiltUnits(rooms, check).units, rooms, |rooms|)
  {
    RechecksServe(rooms, check);
    BuiltFollow([], |rooms|, 0, RecheckOf(rooms, check), ServingAt(rooms));
  }

  lemma {:induction false} FollowingUnitsCount(units: seq<Unit>, rooms: seq<RoomRequest>, n: nat)
    requires UnitsFollow(units, rooms, n)
    ensures UnitRooms(units) == n
    decreases |units|
  {
    if units != [] {
      FollowingUnitsCount(units[..|units| - 1], rooms, n - |units[|units| - 1].rooms|);
    }
  }

  function CountUp(start: nat, n: nat): seq<nat> {
    if n == 0 then [] else CountUp(start, n - 1) + [start + n]
  }

  /** Room numbers of each unit, counted up across units. */
  function Numbers(units: seq<Unit>): (numbers: seq<seq<nat>>)
    ensures |numbers| == |units|
  {
    if units == [] then [] else
      var front := units[..|units| - 1];
      Numbers(front) + [CountUp(UnitRooms(front), |units[|units| - 1].rooms|)]
  }

  method NumberRooms(units: seq<Unit>) returns (numbers: seq<seq<nat>>)
    ensures numbers == Numbers(units)
  {
    numbers := [];
    var roomNo := 0;
    for u := 0 to |units|
      invariant numbers == Numbers(units[..u]) && roomNo == UnitRooms(units[..u])
    {
      assert units[..u + 1][..u] == units[..u];
      var entry: seq<nat> := [];
      for i := 0 to |units[u].rooms|
        invariant roomNo == UnitRooms(units[..u]) + i
        invariant entry == CountUp(UnitRooms(units[..u]), i)
      {
        roomNo := roomNo + 1;
        entry := entry + [roomNo];
      }
      numbers := numbers + [entry];
    }
    assert units[..|units|] == units;
  }

  function Flat(xs: seq<seq<nat>>): seq<nat> {
    if xs == [] then [] else Flat(xs[..|xs| - 1]) + xs[|xs| - 1]
  }

  /** The rooms of an attempt are numbered 1 to n, each exactly once, whatever units they are in. */
  lemma {:induction false} RoomsAreNumberedOnce(units: seq<Unit>)
    ensures Flat(Numbers(units)) == CountUp(0, UnitRooms(units))
    ensures |CountUp(0, UnitRooms(units))| == UnitRooms(units)
    ensures forall i | 0 <= i < UnitRooms(units) :: CountUp(0, UnitRooms(units))[i] == i + 1
  {
    CountUpIs(0, UnitRooms(units));
    if units != [] {
      var front := units[..|units| - 1];
      RoomsAreNumberedOnce(front);
      assert Numbers(units)[..|Numbers(units)| - 1] == Numbers(front);
      CountUpTwice(UnitRooms(front), |units[|units| - 1].rooms|);
    }
  }

  lemma {:induction false} CountUpIs(start: nat, n: nat)
    ensures |CountUp(start, n)| == n
    ensures forall i | 0 <= i < n :: CountUp(start, n)[i] == start + i + 1
  {
    if n > 0 { CountUpIs(start, n - 1); }
  }

  lemma {:induction false} CountUpTwice(m: nat, n: nat)
    ensures CountUp(0, m) + CountUp(m, n) == CountUp(0, m + n)
  {
    if n > 0 {
      CountUpTwice(m, n - 1);
      assert CountUp(0, m) + CountUp(m, n) == (CountUp(0, m) + CountUp(m, n - 1)) + [m + n];
    } else {
      assert CountUp(0, m) + CountUp(m, 0) == CountUp(0, m);
    }
  }

  // ---- Booking unit after unit ------------------------------------------------------

  /** The supplier's answer to booking a unit; `booked` is what really happened when the answer got lost. */
  datatype Reply =
    | Accepted(confirmed: bool)
    | Rejected(groupRestricted: bool)
    | Lost(booked: bool)

  datatype Outcome = Confirmed | Unknown | RejectedOutcome | Blocked

  /** Rooms of the first `n` units that are really booked at the supplier. */
  function ReallyBooked(units: seq<Unit>, reply: nat -> Reply, n: nat): nat
    requires n <= |units|
  {
    if n == 0 then 0 else
      ReallyBooked(units, reply, n - 1)
      + match reply(n - 1)
        case Accepted(_) => |units[n - 1].rooms|
        case Rejected(_) => 0
        case Lost(booked) => if booked then |units[n - 1].rooms| else 0
  }

  /** How an attempt follows from its rooms: all, none, or anything else. */
  datatype Verdict = AllBooked | NoneBooked | NeedsCheck

  function Rule(booked: nat, total: nat, open: bool): Verdict {
    if open then NeedsCheck
    else if booked > 0 && booked == total then AllBooked
    else if booked == 0 then NoneBooked
    else NeedsCheck
  }

  /** The first unit the supplier does not accept. */
  function FirstRefusal(units: seq<Unit>, reply: nat -> Reply, from: nat): (r: nat)
    requires from <= |units|
    ensures from <= r <= |units| && forall u | from <= u < r :: reply(u).Accepted?
    ensures r < |units| ==> !reply(r).Accepted?
    decreases |units| - from
  {
    if from == |units| || !reply(from).Accepted? then from else FirstRefusal(units, reply, from + 1)
  }

  datatype Ended = Ended(outcome: Outcome, failure: Option<BookingRecords.FailureCode>, sent: nat)

  /** Units are booked in order until one is not accepted; `saved` is whether a confirmed booking could be stored. */
  function BookedAs(units: seq<Unit>, reply: nat -> Reply, saved: bool): Ended {
    var refused := FirstRefusal(units, reply, 0);
    if refused == |units| then
      if exists u | 0 <= u < |units| :: !reply(u).confirmed then
        Ended(Unknown, Some(BookingRecords.ProviderUnconfirmed), |units|)
      else if !saved then Ended(Unknown, Some(BookingRecords.SaveFailed), |units|)
      else Ended(Confirmed, None, |units|)
    else if reply(refused).Lost? then Ended(Unknown, Some(BookingRecords.OutcomeUnknown), refused + 1)
    else if refused > 0 then Ended(Unknown, Some(BookingRecords.PartialBooking), refused + 1)
    else
      Ended(RejectedOutcome,
            Some(if reply(0).groupRestricted then BookingRecords.GroupBookingRestricted else BookingRecords.SupplierRejected),
            1)
  }

  // ---- The orders recorded on the way ----------------------------------------------------

  /** The reference of the order created for a unit, if one was created before its booking. */
  type Recorder = nat -> Option<nat>

  function UnitOrders(numbers: seq<nat>, reference: nat, status: OrderStatus): seq<Order> {
    seq(|numbers|, i requires 0 <= i < |numbers| => Order(numbers[i], reference, status))
  }

  function StatusAfter(reply: Reply): OrderStatus {
    match reply
    case Accepted(_) => OrderBooked
    case Rejected(_) => OrderFailed
    case Lost(_) => OrderPending
  }

  function OrdersOfUnit(numbers: seq<nat>, recorded: Option<nat>, status: OrderStatus): seq<Order> {
    match recorded
    case None => []
    case Some(reference) => UnitOrders(numbers, reference, status)
  }

  /** One order per room of the units sent, in the state the supplier's answers left it. */
  function SentOrders(numbers: seq<seq<nat>>, reply: nat -> Reply, recorded: Recorder, n: nat): seq<Order>
    requires n <= |numbers|
  {
    if n == 0 then [] else
      SentOrders(numbers, reply, recorded, n - 1)
      + OrdersOfUnit(numbers[n - 1], recorded(n - 1), StatusAfter(reply(n - 1)))
  }

  function SetRooms(orders: seq<Order>, rooms: seq<nat>, status: OrderStatus): seq<Order> {
    seq(|orders|, i requires 0 <= i < |orders| =>
      if orders[i].room in rooms then orders[i].(status := status) else orders[i])
  }

  lemma {:induction false} NumbersAt(units: seq<Unit>, u: nat)
    requires u < |units|
    ensures Numbers(units)[u] == CountUp(UnitRooms(units[..u]), |units[u].rooms|)
    ensures UnitRooms(units[..u + 1]) == UnitRooms(units[..u]) + |units[u].rooms|
    decreases |units|
  {
    var front := units[..|units| - 1];
    if u < |front| {
      NumbersAt(front, u);
      assert front[..u] == units[..u] && front[..u + 1] == units[..u + 1];
    } else {
      assert units[..u + 1] == units && units[..u] == front;
    }
  }

  /** No room number is used in two units. */
  predicate RoomsApart(numbers: seq<seq<nat>>) {
    forall v, u | 0 <= v < u < |numbers| :: Apart(numbers[v], numbers[u])
  }

  predicate Apart(a: seq<nat>, b: seq<nat>) {
    forall r | r in a :: r !in b
  }

  /** No order is for one of these rooms. */
  predicate NoneOf(orders: seq<Order>, rooms: seq<nat>) {
    forall i | 0 <= i < |orders| :: orders[i].room !in rooms
  }

  lemma {:induction false} RoomsUpToGrow(units: seq<Unit>, m: nat, n: nat)
    requires m <= n <= |units|
    ensures UnitRooms(units[..m]) <= UnitRooms(units[..n])
  {
    if m < n {
      RoomsUpToGrow(units, m, n - 1);
      NumbersAt(units, n - 1);
    }
  }

  lemma {:induction false} NumbersApart(units: seq<Unit>)
    ensures RoomsApart(Numbers(units))
  {
    forall v, u | 0 <= v < u < |units|
      ensures Apart(Numbers(units)[v], Numbers(units)[u])
    {
      NumbersAt(units, v);
      NumbersAt(units, u);
      CountUpIs(UnitRooms(units[..v]), |units[v].rooms|);
      CountUpIs(UnitRooms(units[..u]), |units[u].rooms|);
      RoomsUpToGrow(units, v + 1, u);
    }
  }

  /** Orders recorded so far are for rooms of the units sent so far. */
  lemma {:induction false} SentRooms(
    numbers: seq<seq<nat>>, reply: nat -> Reply, recorded: Recorder, n: nat, u: nat)
    requires n <= u < |numbers| && RoomsApart(numbers)
    ensures NoneOf(SentOrders(numbers, reply, recorded, n), numbers[u])
  {
    if n > 0 {
      SentRooms(numbers, reply, recorded, n - 1, u);
      assert Apart(numbers[n - 1], numbers[u]);
    }
  }

  /** Setting the rooms of the unit just sent changes its own orders only: no room number is used twice. */
  lemma {:induction false} SetOwnRooms(before: seq<Order>, numbers: seq<nat>, recorded: Option<nat>, status: OrderStatus)
    requires NoneOf(before, numbers)
    ensures SetRooms(before + OrdersOfUnit(numbers, recorded, OrderPending), numbers, status)
         == before + OrdersOfUnit(numbers, recorded, status)
  {
  }

  /** Sends one unit: its orders are recorded undecided and then take the supplier's answer, if there is one. */
  method SendUnit(numbers: seq<nat>, reply: Reply, recorded: Option<nat>, before: seq<Order>)
    returns (orders: seq<Order>)
    requires NoneOf(before, numbers)
    ensures orders == before + OrdersOfUnit(numbers, recorded, StatusAfter(reply))
  {
    orders := before;
    if recorded.Some? {
      orders := orders + UnitOrders(numbers, recorded.value, OrderPending);
    }
    assert orders == before + OrdersOfUnit(numbers, recorded, OrderPending);
    if !reply.Lost? {
      SetOwnRooms(before, numbers, recorded, StatusAfter(reply));
      orders := SetRooms(orders, numbers, StatusAfter(reply));
    }
  }

  lemma {:induction false} FirstRefusalIs(units: seq<Unit>, reply: nat -> Reply, from: nat, r: nat)
    requires from <= r <= |units| && forall u | from <= u < r :: reply(u).Accepted?
    requires r < |units| ==> !reply(r).Accepted?
    ensures FirstRefusal(units, reply, from) == r
    decreases r - from
  {
    if from < r { FirstRefusalIs(units, reply, from + 1, r); }
  }

  lemma {:induction false} SentNext(numbers: seq<seq<nat>>, reply: nat -> Reply, recorded: Recorder, n: nat)
    requires n < |numbers| && RoomsApart(numbers)
    ensures SentOrders(numbers, reply, recorded, n + 1)
         == SentOrders(numbers, reply, recorded, n) + OrdersOfUnit(numbers[n], recorded(n), StatusAfter(reply(n)))
    ensures NoneOf(SentOrders(numbers, reply, recorded, n), numbers[n])
  {
    SentRooms(numbers, reply, recorded, n, n);
  }

  function AcceptedUpTo(reply: nat -> Reply, n: nat): bool {
    n == 0 || (AcceptedUpTo(reply, n - 1) && reply(n - 1).Accepted?)
  }

  function ConfirmedUpTo(reply: nat -> Reply, n: nat): bool {
    n == 0 || (ConfirmedUpTo(reply, n - 1) && reply(n - 1) == Accepted(true))
  }

  lemma {:induction false} UpToMeans(reply: nat -> Reply, n: nat)
    ensures AcceptedUpTo(reply, n) <==> forall u | 0 <= u < n :: reply(u).Accepted?
    ensures ConfirmedUpTo(reply, n) <==> forall u | 0 <= u < n :: reply(u) == Accepted(true)
  {
    if n > 0 { UpToMeans(reply, n - 1); }
  }

  method SendNext(
    numbers: seq<seq<nat>>, reply: nat -> Reply, recorded: Recorder, u: nat, before: seq<Order>)
    returns (orders: seq<Order>)
    requires u < |numbers| && RoomsApart(numbers) && before == SentOrders(numbers, reply, recorded, u)
    ensures orders == SentOrders(numbers, reply, recorded, u + 1)
  {
    SentNext(numbers, reply, recorded, u);
    orders := SendUnit(numbers[u], reply(u), recorded(u), before);
  }

  /** Sends unit after unit up to the first that is not accepted, which is sent too. */
  method SendUnits(numbers: seq<seq<nat>>, reply: nat -> Reply, recorded: Recorder)
    returns (refused: nat, allConfirmed: bool, orders: seq<Order>)
    requires RoomsApart(numbers)
    ensures refused <= |numbers| && AcceptedUpTo(reply, refused)
    ensures refused < |numbers| ==> !reply(refused).Accepted?
    ensures allConfirmed == ConfirmedUpTo(reply, refused)
    ensures orders == SentOrders(numbers, reply, recorded, Min(refused + 1, |numbers|))
  {
    refused, allConfirmed, orders := SendAccepted(numbers, reply, recorded);
    if refused < |numbers| {
      orders := SendNext(numbers, reply, recorded, refused, orders);
    }
  }

  method SendAccepted(numbers: seq<seq<nat>>, reply: nat -> Reply, recorded: Recorder)
    returns (refused: nat, allConfirmed: bool, orders: seq<Order>)
    requires RoomsApart(numbers)
    ensures refused <= |numbers| && AcceptedUpTo(reply, refused)
    ensures refused < |numbers| ==> !reply(refused).Accepted?
    ensures allConfirmed == ConfirmedUpTo(reply, refused)
    ensures orders == SentOrders(numbers, reply, recorded, refused)
  {
    refused, allConfirmed, orders := 0, true, [];
    while refused < |numbers| && reply(refused).Accepted?
      invariant refused <= |numbers| && AcceptedUpTo(reply, refused)
      invariant allConfirmed == ConfirmedUpTo(reply, refused)
      invariant orders == SentOrders(numbers, reply, recorded, refused)
    {
      orders := SendNext(numbers, reply, recorded, refused, orders);
      allConfirmed := allConfirmed && reply(refused).confirmed;
      refused := refused + 1;
    }
  }

  method BookUnits(units: seq<Unit>, reply: nat -> Reply, recorded: Recorder, saved: bool)
    returns (ended: Ended, orders: seq<Order>)
    ensures ended == BookedAs(units, reply, saved) && ended.sent <= |units|
    ensures orders == SentOrders(Numbers(units), reply, recorded, ended.sent)
  {
    var numbers := NumberRooms(units);
    NumbersApart(units);
    var refused, allConfirmed;
    refused, allConfirmed, orders := SendUnits(numbers, reply, recorded);
    UpToMeans(reply, refused);
    FirstRefusalIs(units, reply, 0, refused);
    if refused < |units| {
      if reply(refused).Lost? {
        return Ended(Unknown, Some(BookingRecords.OutcomeUnknown), refused + 1), orders;
      }
      if refused > 0 {
        return Ended(Unknown, Some(BookingRecords.PartialBooking), refused + 1), orders;
      }
      var code := if reply(0).groupRestricted then BookingRecords.GroupBookingRestricted
                  else BookingRecords.SupplierRejected;
      return Ended(RejectedOutcome, Some(code), 1), orders;
    }
    if !allConfirmed {
      return Ended(Unknown, Some(BookingRecords.ProviderUnconfirmed), |units|), orders;
    }
    if !saved {
      return Ended(Unknown, Some(BookingRecords.SaveFailed), |units|), orders;
    }
    ended := Ended(Confirmed, None, |units|);
  }

  lemma {:induction false} AcceptedRooms(units: seq<Unit>, reply: nat -> Reply, n: nat)
    requires n <= |units| && forall u | 0 <= u < n :: reply(u).Accepted?
    ensures ReallyBooked(units, reply, n) == UnitRooms(units[..n])
  {
    if n > 0 {
      AcceptedRooms(units, reply, n - 1);
      assert units[..n][..n - 1] == units[..n - 1];
    }
  }

  lemma {:induction false} RoomsUpTo(units: seq<Unit>, n: nat)
    requires n <= |units|
    ensures UnitRooms(units[..n]) <= UnitRooms(units)
    ensures UnitRooms(units[..n]) == UnitRooms(units) ==> n == |units|
    ensures UnitRooms(units[..n]) == 0 ==> n == 0
    decreases |units|
  {
    if n < |units| {
      var front := units[..|units| - 1];
      RoomsUpTo(front, n);
      assert front[..n] == units[..n];
    } else if n > 0 {
      assert units[..n] == units;
    }
  }

  /** Whether the supplier's answers leave the result open: lost, unconfirmed or not saved. */
  predicate LeftOpenBy(units: seq<Unit>, reply: nat -> Reply, saved: bool, sent: nat)
    requires sent > 0
  {
    || reply(sent - 1).Lost?
    || (sent == |units| && reply(sent - 1).Accepted? && (!saved || exists u | 0 <= u < |units| :: reply(u) == Accepted(false)))
  }

  function LiveRule(units: seq<Unit>, reply: nat -> Reply, saved: bool, sent: nat): Verdict
    requires 0 < sent <= |units|
  {
    Rule(ReallyBooked(units, reply, sent), UnitRooms(units), LeftOpenBy(units, reply, saved, sent))
  }

  function OutcomeOf(verdict: Verdict): Outcome {
    match verdict case AllBooked => Confirmed case NoneBooked => RejectedOutcome case NeedsCheck => Unknown
  }

  /**
   The live result is the all / none / mixed rule on the rooms really booked:
   confirmed exactly when all are, rejected exactly when none is, and anything that
   is mixed, lost, unconfirmed or unsaved is left for a manual check.
   */
  lemma {:induction false} LiveResultIsAllOrNone(units: seq<Unit>, reply: nat -> Reply, saved: bool)
    requires units != []
    ensures var ended := BookedAs(units, reply, saved);
      0 < ended.sent <= |units| && ended.outcome == OutcomeOf(LiveRule(units, reply, saved, ended.sent))
  {
    var refused := FirstRefusal(units, reply, 0);
    FewerRoomsBeforeRefusal(units, refused);
    RoomsBooked(units, reply, refused);
    if refused == |units| {
      AllAcceptedRule(units, reply, saved);
    }
  }

  lemma {:induction false} AllAcceptedRule(units: seq<Unit>, reply: nat -> Reply, saved: bool)
    requires units != [] && forall u | 0 <= u < |units| :: reply(u).Accepted?
    ensures LiveRule(units, reply, saved, |units|) ==
      if !saved || exists u | 0 <= u < |units| :: !reply(u).confirmed then NeedsCheck else AllBooked
  {
    RoomsBooked(units, reply, |units|);
    FewerRoomsBeforeRefusal(units, |units|);
  }

  lemma {:induction false} RoomsBooked(units: seq<Unit>, reply: nat -> Reply, refused: nat)
    requires refused <= |units| && forall u | 0 <= u < refused :: reply(u).Accepted?
    ensures ReallyBooked(units, reply, refused) == UnitRooms(units[..refused])
    ensures refused < |units| && reply(refused).Rejected? ==>
      ReallyBooked(units, reply, refused + 1) == UnitRooms(units[..refused])
  {
    AcceptedRooms(units, reply, refused);
  }

  lemma {:induction false} FewerRoomsBeforeRefusal(units: seq<Unit>, refused: nat)
    requires refused <= |units|
    ensures refused == |units| ==> UnitRooms(units[..refused]) == UnitRooms(units)
    ensures refused < |units| ==> UnitRooms(units[..refused]) < UnitRooms(units)
    ensures UnitRooms(units[..refused]) == 0 <==> refused == 0
  {
    RoomsUpTo(units, refused);
    assert units[..|units|] == units;
  }

  // ---- Booked rooms stay within the requested rooms ----------------------------------

  function RequestedOn(rooms: seq<RoomRequest>, k: RateKey): nat {
    if rooms == [] then 0 else
      RequestedOn(rooms[..|rooms| - 1], k) + if rooms[|rooms| - 1].rateKey == k then 1 else 0
  }

  /** Rooms of one rate that are really booked at the supplier. */
  function BookedOn(units: seq<Unit>, reply: nat -> Reply, n: nat, k: RateKey): nat
    requires n <= |units|
  {
    if n == 0 then 0 else
      BookedOn(units, reply, n - 1, k)
      + if units[n - 1].rateKey == k then ReallyBooked(units, reply, n) - ReallyBooked(units, reply, n - 1) else 0
  }

  lemma {:induction false} RequestedOnRun(rooms: seq<RoomRequest>, m: nat, n: nat, k: RateKey)
    requires m <= n <= |rooms|
    ensures RequestedOn(rooms[..m], k) <= RequestedOn(rooms[..n], k)
    ensures (forall r | r in rooms[m..n] :: r.rateKey == k) ==>
      RequestedOn(rooms[..n], k) == RequestedOn(rooms[..m], k) + n - m
  {
    if m < n {
      RequestedOnRun(rooms, m, n - 1, k);
      assert rooms[..n][..n - 1] == rooms[..n - 1];
      assert rooms[m..n] == rooms[m..n - 1] + [rooms[n - 1]];
    }
  }

  lemma {:induction false} LastUnitsRooms(units: seq<Unit>, rooms: seq<RoomRequest>, n: nat)
    requires units != [] && UnitsFollow(units, rooms, n)
    ensures var last := units[|units| - 1];
      && |last.rooms| <= n <= |rooms|
      && UnitsFollow(units[..|units| - 1], rooms, n - |last.rooms|)
      && forall r | r in rooms[n - |last.rooms|..n] :: r.rateKey == last.rateKey
  {
    var last := units[|units| - 1];
    var m := n - |last.rooms|;
    assert ServingAt(rooms)(last, m);
    assert UnitServes(last, rooms[m..m + |last.rooms|]);
  }

  /** The supplier never books more rooms of a rate than the attempt asked for on that rate. */
  lemma {:induction false} BookedWithinRequested(
    units: seq<Unit>, rooms: seq<RoomRequest>, n: nat, reply: nat -> Reply, sent: nat, k: RateKey)
    requires UnitsFollow(units, rooms, n) && sent <= |units| && n <= |rooms|
    ensures BookedOn(units, reply, sent, k) <= RequestedOn(rooms[..n], k)
    decreases |units|
  {
    if units != [] {
      var front, last := units[..|units| - 1], units[|units| - 1];
      var m := n - |last.rooms|;
      LastUnitsRooms(units, rooms, n);
      BookedWithinRequested(front, rooms, m, reply, Min(sent, |front|), k);
      SameBooked(units, reply, Min(sent, |front|), k);
      RequestedOnRun(rooms, m, n, k);
    }
  }

  lemma {:induction false} SameBooked(units: seq<Unit>, reply: nat -> Reply, n: nat, k: RateKey)
    requires n <= |units| - 1
    ensures ReallyBooked(units[..|units| - 1], reply, n) == ReallyBooked(units, reply, n)
    ensures BookedOn(units[..|units| - 1], reply, n, k) == BookedOn(units, reply, n, k)
  {
    if n > 0 {
      SameBooked(units, reply, n - 1, k);
    }
  }

  lemma {:induction false} BookedOnWithinBooked(units: seq<Unit>, reply: nat -> Reply, n: nat, k: RateKey)
    requires n <= |units|
    ensures BookedOn(units, reply, n, k) <= ReallyBooked(units, reply, n)
  {
    if n > 0 {
      BookedOnWithinBooked(units, reply, n - 1, k);
    }
  }

  datatype Party = Party(adults: nat, children: nat)

  function FlatRooms(units: seq<Unit>): seq<Shape> {
    if units == [] then [] else FlatRooms(units[..|units| - 1]) + units[|units| - 1].rooms
  }

  datatype Reserve = Reserved | NotEnoughFunds | ReserveFailed

  /** What the database and the wallet answer around the supplier calls. */
  datatype Backend = Backend(started: bool, reserve: Reserve, stillOpen: bool, saved: bool)

  predicate OneHotel(units: seq<Unit>) {
    forall u | 0 <= u < |units| :: units[u].hotel == units[0].hotel
  }

  predicate HoldsParty(units: seq<Unit>, party: Option<Party>) {
    party.Some? ==>
      SumAdults(FlatRooms(units)) >= party.value.adults && SumChildren(FlatRooms(units)) >= party.value.children
  }

  /** The whole attempt, from its start to what it tells its caller. */
  function Attempted(
    rooms: seq<RoomRequest>, party: Option<Party>, check: nat -> Check, reply: nat -> Reply, backend: Backend): Ended
    requires rooms != []
  {
    var built := BuiltUnits(rooms, check);
    if !backend.started then Ended(Blocked, None, 0)
    else if built.failure.Some? then Ended(RejectedOutcome, built.failure, 0)
    else if !OneHotel(built.units) then Ended(RejectedOutcome, Some(BookingRecords.MixedHotels), 0)
    else if !HoldsParty(built.units, party) then Ended(RejectedOutcome, Some(BookingRecords.RateMismatch), 0)
    else if backend.reserve == NotEnoughFunds then
      Ended(RejectedOutcome, Some(BookingRecords.InsufficientWalletBalance), 0)
    else if backend.reserve == ReserveFailed then Ended(RejectedOutcome, Some(BookingRecords.WalletReserveFailed), 0)
    else if !backend.stillOpen then Ended(Blocked, None, 0)
    else BookedAs(built.units, reply, backend.saved)
  }

  /** Besides its end, the attempt leaves the orders it recorded. */
  method AttemptHotelBooking(
    rooms: seq<RoomRequest>, party: Option<Party>, check: nat -> Check, reply: nat -> Reply, recorded: Recorder,
    backend: Backend)
    returns (ended: Ended, orders: seq<Order>)
    requires rooms != []
    ensures ended == Attempted(rooms, party, check, reply, backend) && ended.sent <= |UnitsOf(rooms, check)|
    ensures orders == SentOrders(Numbers(UnitsOf(rooms, check)), reply, recorded, ended.sent)
  {
    orders := [];
    if !backend.started {
      return Ended(Blocked, None, 0), [];
    }
    var built := BuildUnits(rooms, check);
    if built.failure.Some? {
      return Ended(RejectedOutcome, built.failure, 0), [];
    }
    if !OneHotel(built.units) {
      return Ended(RejectedOutcome, Some(BookingRecords.MixedHotels), 0), [];
    }
    if !HoldsParty(built.units, party) {
      return Ended(RejectedOutcome, Some(BookingRecords.RateMismatch), 0), [];
    }
    if backend.reserve != Reserved {
      var code := if backend.reserve == NotEnoughFunds then BookingRecords.InsufficientWalletBalance
                  else BookingRecords.WalletReserveFailed;
      return Ended(RejectedOutcome, Some(code), 0), [];
    }
    if !backend.stillOpen {
      return Ended(Blocked, None, 0), [];
    }
    BuiltUnitsFollow(rooms, check);
    FollowingUnitsCount(built.units, rooms, |rooms|);
    ended, orders := BookUnits(built.units, reply, recorded, backend.saved);
  }

  /** The units an attempt books. */
  function UnitsOf(rooms: seq<RoomRequest>, check: nat -> Check): seq<Unit>
  {
    BuiltUnits(rooms, check).units
  }

  lemma {:induction false} BookedAsIsSafe(units: seq<Unit>, reply: nat -> Reply, saved: bool)
    requires units != []
    ensures var ended := BookedAs(units, reply, saved);
      && 0 < ended.sent <= |units| && ended.outcome != Blocked
      && (ended.outcome == Confirmed ==> ReallyBooked(units, reply, ended.sent) == UnitRooms(units))
      && (ended.outcome == RejectedOutcome ==> ReallyBooked(units, reply, ended.sent) == 0)
      && (0 < ReallyBooked(units, reply, ended.sent) < UnitRooms(units) ==> ended.outcome == Unknown)
  {
    LiveResultIsAllOrNone(units, reply, saved);
  }

  /** Every check before the request passed. */
  predicate MaySend(rooms: seq<RoomRequest>, party: Option<Party>, check: nat -> Check, backend: Backend) {
    && backend.started && BuiltUnits(rooms, check).failure.None?
    && OneHotel(UnitsOf(rooms, check)) && HoldsParty(UnitsOf(rooms, check), party)
    && backend.reserve == Reserved && backend.stillOpen
  }

  /**
   A request is sent if and only if every check passed; otherwise the attempt ends
   rejected or blocked. It is blocked exactly when it was not started or, with all
   else in order, is no longer open.
   */
  lemma {:induction false} NothingSentUnchecked(
    rooms: seq<RoomRequest>, party: Option<Party>, check: nat -> Check, reply: nat -> Reply, backend: Backend)
    requires rooms != []
    ensures var ended := Attempted(rooms, party, check, reply, backend);
      && (ended.sent > 0 <==> MaySend(rooms, party, check, backend))
      && (ended.sent > 0 ==> ended == BookedAs(UnitsOf(rooms, check), reply, backend.saved))
      && (ended.sent == 0 ==> ended.outcome in {RejectedOutcome, Blocked})
      && (ended.outcome == Blocked <==>
            !backend.started
            || (!backend.stillOpen && MaySend(rooms, party, check, backend.(stillOpen := true))))
  {
    if MaySend(rooms, party, check, backend) {
      BuiltUnitsFollow(rooms, check);
      FollowingUnitsCount(UnitsOf(rooms, check), rooms, |rooms|);
      BookedAsIsSafe(UnitsOf(rooms, check), reply, backend.saved);
    }
  }

  /**
   Whatever the supplier, the wallet and the database answer: "confirmed" means
   all rooms of the attempt are booked, "rejected" and "blocked" mean none is, a
   mix is always reported unknown; and nothing is sent unless every room was
   re-checked, all are in one hotel that holds the party, and the attempt was
   still open when its request was marked sent.
   */
  lemma {:induction false} AttemptIsAllOrNone(
    rooms: seq<RoomRequest>, party: Option<Party>, check: nat -> Check, reply: nat -> Reply, backend: Backend)
    requires rooms != []
    ensures var ended := Attempted(rooms, party, check, reply, backend);
      var units := UnitsOf(rooms, check);
      && ended.sent <= |units|
      && (ended.outcome == Confirmed ==> ReallyBooked(units, reply, ended.sent) == |rooms|)
      && (ended.outcome in {RejectedOutcome, Blocked} ==> ReallyBooked(units, reply, ended.sent) == 0)
      && (0 < ReallyBooked(units, reply, ended.sent) < |rooms| ==> ended.outcome == Unknown)
      && (ended.sent > 0 ==>
            && backend.started && backend.stillOpen
            && UnitsFollow(units, rooms, |rooms|) && OneHotel(units) && HoldsParty(units, party))
  {
    var units := UnitsOf(rooms, check);
    NothingSentUnchecked(rooms, party, check, reply, backend);
    BuiltUnitsFollow(rooms, check);
    if BuiltUnits(rooms, check).failure.None? {
      FollowingUnitsCount(units, rooms, |rooms|);
      BookedAsIsSafe(units, reply, backend.saved);
    }
  }

  // ---- Late settlement --------------------------------------------------------------------

  function CountStatus(orders: seq<Order>, status: OrderStatus): nat {
    if orders == [] then 0 else
      CountStatus(orders[..|orders| - 1], status) + if orders[|orders| - 1].status == status then 1 else 0
  }

  function Reported(orders: seq<Order>, reference: nat, status: OrderStatus): seq<Order> {
    seq(|orders|, i requires 0 <= i < |orders| =>
      if orders[i].reference == reference then orders[i].(status := status) else orders[i])
  }

  /** `rows` is the attempt's number of rooms; a room never sent has no order. */
  function SettleFromSupplier(orders: seq<Order>, rows: nat): Verdict {
    Rule(CountStatus(orders, OrderBooked), Max(rows, |orders|), CountStatus(orders, OrderPending) > 0)
  }

  lemma {:induction false} CountAll(orders: seq<Order>, status: OrderStatus)
    ensures CountStatus(orders, status) <= |orders|
    ensures CountStatus(orders, status) == |orders| <==> forall i | 0 <= i < |orders| :: orders[i].status == status
    ensures CountStatus(orders, status) == 0 <==> forall i | 0 <= i < |orders| :: orders[i].status != status
  {
    if orders != [] {
      CountAll(orders[..|orders| - 1], status);
    }
  }

  /**
   A late settlement confirms exactly when every room of the attempt has a booked
   order, fails it exactly when no order is booked or undecided, and otherwise
   leaves it under manual check.
   */
  lemma {:induction false} LateSettlementIsAllOrNone(orders: seq<Order>, rows: nat)
    ensures SettleFromSupplier(orders, rows) == AllBooked <==>
            |orders| >= rows && |orders| > 0 && forall i | 0 <= i < |orders| :: orders[i].status == OrderBooked
    ensures SettleFromSupplier(orders, rows) == NoneBooked <==>
            forall i | 0 <= i < |orders| :: orders[i].status == OrderFailed
  {
    CountAll(orders, OrderBooked);
    CountAll(orders, OrderPending);
    if forall i | 0 <= i < |orders| :: orders[i].status == OrderBooked {
      assert orders != [] ==> orders[0].status == OrderBooked;
    }
  }

  /** What a later settlement makes of an attempt that ended like this. */
  function VerdictOf(failure: Option<BookingRecords.FailureCode>): Verdict {
    match failure
    case None => AllBooked
    case Some(code) =>
      if code in {BookingRecords.ProviderUnconfirmed, BookingRecords.SaveFailed} then AllBooked
      else if code in {BookingRecords.SupplierRejected, BookingRecords.GroupBookingRestricted} then NoneBooked
      else NeedsCheck
  }

  lemma {:induction false} AcceptedOrders(units: seq<Unit>, reply: nat -> Reply, recorded: Recorder, n: nat)
    requires n <= |units| && forall u | 0 <= u < n :: reply(u).Accepted? && recorded(u).Some?
    ensures var orders := SentOrders(Numbers(units), reply, recorded, n);
      |orders| == UnitRooms(units[..n]) && forall i | 0 <= i < |orders| :: orders[i].status == OrderBooked
  {
    if n > 0 {
      AcceptedOrders(units, reply, recorded, n - 1);
      NumbersAt(units, n - 1);
      CountUpIs(UnitRooms(units[..n - 1]), |units[n - 1].rooms|);
    }
  }

  /** The last unit's orders, after accepted ones. */
  lemma {:induction false} RefusedOrders(units: seq<Unit>, reply: nat -> Reply, recorded: Recorder, refused: nat)
    requires refused < |units| && forall u | 0 <= u <= refused :: recorded(u).Some?
    requires forall u | 0 <= u < refused :: reply(u).Accepted?
    ensures var orders := SentOrders(Numbers(units), reply, recorded, refused + 1);
      var n := |SentOrders(Numbers(units), reply, recorded, refused)|;
      && (n == 0 <==> refused == 0) && n < |orders|
      && (forall i | 0 <= i < n :: orders[i].status == OrderBooked)
      && (forall i | n <= i < |orders| :: orders[i].status == StatusAfter(reply(refused)))
  {
    AcceptedOrders(units, reply, recorded, refused);
    RoomsUpTo(units, refused);
    NumbersAt(units, refused);
    CountUpIs(UnitRooms(units[..refused]), |units[refused].rooms|);
  }

  lemma {:induction false} AcceptedOrdersSettle(units: seq<Unit>, reply: nat -> Reply, recorded: Recorder)
    requires units != [] && forall u | 0 <= u < |units| :: recorded(u).Some? && reply(u).Accepted?
    ensures SettleFromSupplier(SentOrders(Numbers(units), reply, recorded, |units|), UnitRooms(units)) == AllBooked
  {
    LateSettlementIsAllOrNone(SentOrders(Numbers(units), reply, recorded, |units|), UnitRooms(units));
    AcceptedOrders(units, reply, recorded, |units|);
    assert units[..|units|] == units;
    RoomsUpTo(units, 0);
  }

  lemma {:induction false} RefusedOrdersSettle(units: seq<Unit>, reply: nat -> Reply, recorded: Recorder, refused: nat)
    requires refused < |units| && forall u | 0 <= u < |units| :: recorded(u).Some?
    requires !reply(refused).Accepted? && forall u | 0 <= u < refused :: reply(u).Accepted?
    ensures SettleFromSupplier(SentOrders(Numbers(units), reply, recorded, refused + 1), UnitRooms(units))
         == if refused == 0 && reply(refused).Rejected? then NoneBooked else NeedsCheck
  {
    var orders := SentOrders(Numbers(units), reply, recorded, refused + 1);
    LateSettlementIsAllOrNone(orders, UnitRooms(units));
    RefusedOrders(units, reply, recorded, refused);
    assert orders[|orders| - 1].status == StatusAfter(reply(refused));
    assert refused > 0 ==> orders[0].status == OrderBooked;
  }

  function RefusalVerdict(units: seq<Unit>, reply: nat -> Reply, refused: nat): Verdict {
    if refused == |units| then AllBooked else if refused == 0 && reply(refused).Rejected? then NoneBooked else NeedsCheck
  }

  lemma {:induction false} OrdersSettleByRefusal(units: seq<Unit>, reply: nat -> Reply, recorded: Recorder, refused: nat)
    requires units != [] && forall u | 0 <= u < |units| :: recorded(u).Some?
    requires refused <= |units| && forall u | 0 <= u < refused :: reply(u).Accepted?
    requires refused < |units| ==> !reply(refused).Accepted?
    ensures SettleFromSupplier(SentOrders(Numbers(units), reply, recorded, Min(refused + 1, |units|)), UnitRooms(units))
         == RefusalVerdict(units, reply, refused)
  {
    if refused == |units| {
      AcceptedOrdersSettle(units, reply, recorded);
    } else {
      RefusedOrdersSettle(units, reply, recorded, refused);
    }
  }

  lemma {:induction false} FailureFollowsRefusal(units: seq<Unit>, reply: nat -> Reply, saved: bool)
    ensures var ended, refused := BookedAs(units, reply, saved), FirstRefusal(units, reply, 0);
      && ended.sent == Min(refused + 1, |units|)
      && VerdictOf(ended.failure) == RefusalVerdict(units, reply, refused)
  {
  }

  /**
   The recorded orders tell the same story as the live result: what a later check
   or webhook settles from them is what the attempt ended with, except that an
   accepted but unconfirmed or unsaved booking is then confirmed without asking the
   supplier again, because its orders are already booked.
   */
  lemma {:induction false} RecordedOrdersSettleLikeLive(units: seq<Unit>, reply: nat -> Reply, recorded: Recorder, saved: bool)
    requires units != [] && forall u | 0 <= u < |units| :: recorded(u).Some?
    ensures var ended := BookedAs(units, reply, saved);
      && ended.sent <= |units|
      && SettleFromSupplier(SentOrders(Numbers(units), reply, recorded, ended.sent), UnitRooms(units)) == VerdictOf(ended.failure)
  {
    var refused := FirstRefusal(units, reply, 0);
    FailureFollowsRefusal(units, reply, saved);
    OrdersSettleByRefusal(units, reply, recorded, refused);
  }

  datatype CheckReply = StillProcessing | Final(status: OrderStatus) | CheckError

  datatype Reconciled = Settled(verdict: Verdict) | FailedUnanswered | LeftOpen

  /** The references with an undecided order, each once, in order. */
  function OpenReferences(orders: seq<Order>): seq<nat> {
    if orders == [] then [] else
      var front := OpenReferences(orders[..|orders| - 1]);
      var last := orders[|orders| - 1];
      if last.status == OrderPending && last.reference !in front then front + [last.reference] else front
  }

  ghost predicate AllOpen(orders: seq<Order>, references: seq<nat>) {
    && (forall k | 0 <= k < |references| :: exists o | o in orders :: o.reference == references[k] && o.status == OrderPending)
    && (forall j, k | 0 <= j < k < |references| :: references[j] != references[k])
  }

  lemma {:induction false} OpenReferencesAreOpen(orders: seq<Order>)
    ensures AllOpen(orders, OpenReferences(orders))
    ensures forall o | o in orders && o.status == OrderPending :: o.reference in OpenReferences(orders)
  {
    if orders != [] {
      var front, last := orders[..|orders| - 1], orders[|orders| - 1];
      OpenReferencesAreOpen(front);
      assert orders == front + [last];
      var references := OpenReferences(orders);
      forall k | 0 <= k < |references|
        ensures exists o | o in orders :: o.reference == references[k] && o.status == OrderPending
      {
        if k < |OpenReferences(front)| {
          assert references[k] == OpenReferences(front)[k];
          var o :| o in front && o.reference == references[k] && o.status == OrderPending;
          assert o in orders;
        } else {
          assert last in orders;
        }
      }
    }
  }

  /** What the orders are after the supplier was asked about the references; a thrown error ends the questions. */
  function AskAll(orders: seq<Order>, references: seq<nat>, ask: nat -> CheckReply): (seq<Order>, bool)
    decreases |references|
  {
    if references == [] then (orders, false) else
      match ask(references[0])
      case StillProcessing => AskAll(orders, references[1..], ask)
      case CheckError => (orders, true)
      case Final(status) => AskAll(Reported(orders, references[0], status), references[1..], ask)
  }

  /** An order only ever takes the supplier's final answer, and without an error nothing answered is left undecided. */
  lemma {:induction false} AskAllIsFaithful(orders: seq<Order>, references: seq<nat>, ask: nat -> CheckReply)
    ensures var (after, threw) := AskAll(orders, references, ask);
      && |after| == |orders|
      && (forall i | 0 <= i < |orders| :: TookAnswer(orders[i], after[i], ask))
      && (!threw ==> forall i | 0 <= i < |orders| && orders[i].reference in references && ask(orders[i].reference).Final? ::
           after[i].status == ask(orders[i].reference).status)
    decreases |references|
  {
    if references != [] {
      match ask(references[0])
      case StillProcessing => AskAllIsFaithful(orders, references[1..], ask);
      case CheckError =>
      case Final(status) =>
        var next := Reported(orders, references[0], status);
        AskAllIsFaithful(next, references[1..], ask);
        var (after, threw) := AskAll(orders, references, ask);
        forall i | 0 <= i < |orders|
          ensures TookAnswer(orders[i], after[i], ask)
          ensures !threw && orders[i].reference in references && ask(orders[i].reference).Final? ==>
                  after[i].status == ask(orders[i].reference).status
        {
          assert TookAnswer(next[i], after[i], ask);
        }
    }
  }

  predicate TookAnswer(before: Order, after: Order, ask: nat -> CheckReply) {
    after == before || (ask(before.reference) == Final(after.status) && after == before.(status := after.status))
  }

  /** When the questions end with an error, the order asked about is still undecided. */
  lemma {:induction false} ErrorLeavesAnOrderOpen(orders: seq<Order>, references: seq<nat>, ask: nat -> CheckReply)
    requires AllOpen(orders, references) && AskAll(orders, references, ask).1
    ensures CountStatus(AskAll(orders, references, ask).0, OrderPending) > 0
    decreases |references|
  {
    match ask(references[0])
    case StillProcessing => ErrorLeavesAnOrderOpen(orders, references[1..], ask);
    case CheckError => CountAll(orders, OrderPending);
    case Final(status) =>
      var next := Reported(orders, references[0], status);
      forall k | 1 <= k < |references|
        ensures exists o | o in next :: o.reference == references[k] && o.status == OrderPending
      {
        var o :| o in orders && o.reference == references[k] && o.status == OrderPending;
        var i :| 0 <= i < |orders| && orders[i] == o;
        assert next[i] == o;
      }
      ErrorLeavesAnOrderOpen(next, references[1..], ask);
  }

  method AskSupplier(orders: seq<Order>, references: seq<nat>, ask: nat -> CheckReply)
    returns (after: seq<Order>, threw: bool)
    ensures (after, threw) == AskAll(orders, references, ask)
  {
    after, threw := orders, false;
    for k := 0 to |references|
      invariant AskAll(orders, references, ask) == AskAll(after, references[k..], ask)
    {
      match ask(references[k])
      case StillProcessing =>
      case CheckError => return after, true;
      case Final(status) => after := Reported(after, references[k], status);
    }
  }

  /** How storing a due settlement goes; it may throw before or after it took effect. */
  datatype Storing = StoredWell | ThrewBeforeStoring | ThrewAfterStoring

  /**
   One attempt of a post-run check: asks the supplier about every undecided
   order, settles what is known, and on the last check fails an attempt with no
   answer and nothing booked. `result` is what is stored; `counted` is whether the
   check reports the attempt as unresolved, which is what schedules its next check.
   */
  method ReconcileAttempt(
    orders: seq<Order>, rows: nat, ask: nat -> CheckReply, storing: Storing, lastCheck: bool)
    returns (after: seq<Order>, result: Reconciled, counted: bool)
    ensures after == AskAll(orders, OpenReferences(orders), ask).0
    ensures result == FailedUnanswered <==>
      lastCheck && CountStatus(after, OrderBooked) == 0 && CountStatus(after, OrderPending) > 0
    ensures result.Settled? ==> storing != ThrewBeforeStoring && result.verdict == SettleFromSupplier(after, rows)
    ensures counted <==> result != FailedUnanswered && SettleFromSupplier(after, rows) == NeedsCheck
    ensures Missed(result, counted) <==> storing == ThrewBeforeStoring && SettleFromSupplier(after, rows) != NeedsCheck
  {
    var references := OpenReferences(orders);
    OpenReferencesAreOpen(orders);
    var threw;
    after, threw := AskSupplier(orders, references, ask);
    if threw {
      ErrorLeavesAnOrderOpen(orders, references, ask);
    }
    CountAll(after, OrderBooked);
    result := if threw || storing == ThrewBeforeStoring then LeftOpen else Settled(SettleFromSupplier(after, rows));
    counted := false;
    var booked := CountStatus(after, OrderBooked);
    var open := CountStatus(after, OrderPending) > 0;
    if open && booked == 0 && lastCheck {
      result := FailedUnanswered;
    } else if open || (booked > 0 && booked < Max(rows, |after|)) {
      counted := true;
    }
  }

  /** The attempt stays under manual check, but this check does not report it, so it asks for no further one. */
  predicate Missed(result: Reconciled, counted: bool) {
    (result == LeftOpen || result == Settled(NeedsCheck)) && !counted
  }

  /**
   An attempt is missed exactly when its orders are all decided, call for a
   settlement, and that settlement could not be stored: here, one booked room.
   */
  method ReconcileCanMissAnAttempt() returns (result: Reconciled, counted: bool)
    ensures Missed(result, counted)
  {
    var orders := [Order(1, 7, OrderBooked)];
    CountAll(orders, OrderPending);
    CountAll(orders, OrderBooked);
    assert OpenReferences(orders) == [];
    var after;
    after, result, counted := ReconcileAttempt(orders, 1, _ => StillProcessing, ThrewBeforeStoring, true);
  }
}
