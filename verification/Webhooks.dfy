/**
 Supplier webhooks: what a reported order status does to an attempt, when the
 order and number of deliveries make no difference, and when they do.
 */
module Webhooks {
  import opened Common
  import BookingRecords
  import opened BookingAttempt

  datatype Report = Completed | ReportedFailed | OtherStatus

  /**
   The attempt a reference was found on; `rows` is its number of rooms, `notes`
   counts the late webhooks kept on its failure message.
   */
  datatype Stored = Stored(
    status: BookingRecords.AttemptStatus,
    failure: Option<BookingRecords.FailureCode>,
    orders: seq<Order>,
    rows: nat,
    notes: nat)

  /** Whether the attempt is past its live wait, and whether the wait still takes results. */
  datatype LiveWait = LiveWait(stale: bool, takesResult: bool)

  /** `refreshed`: the flight's totals are refreshed and its promotion is tried again. */
  datatype Handling =
    | Ignored(noted: bool, refreshed: bool)
    | KeptForLiveWait(status: OrderStatus)
    | AskedToRetry
    | Settling(orders: seq<Order>, verdict: Verdict)

  function KnownStatus(orders: seq<Order>, reference: nat): (r: Option<OrderStatus>)
    ensures r.None? <==> forall i | 0 <= i < |orders| :: orders[i].reference != reference
  {
    if orders == [] then None
    else if orders[0].reference == reference then Some(orders[0].status)
    else
      assert forall i | 0 < i < |orders| :: orders[1..][i - 1] == orders[i];
      KnownStatus(orders[1..], reference)
  }

  predicate IsSettled(a: Stored) {
    a.status == BookingRecords.Success || a.status == BookingRecords.Failed
  }

  /** The report says something else than the settled attempt. */
  predicate Contradicts(a: Stored, reference: nat, report: Report) {
    var known := KnownStatus(a.orders, reference);
    || (report == Completed
        && (known == Some(OrderFailed) || (a.status == BookingRecords.Failed && known == Some(OrderPending))))
    || (report == ReportedFailed && known == Some(OrderBooked))
  }

  function StateOf(report: Report): Option<OrderStatus> {
    match report
    case Completed => Some(OrderBooked)
    case ReportedFailed => Some(OrderFailed)
    case OtherStatus => None
  }

  function Handle(attempt: Option<Stored>, reference: nat, report: Report, wait: LiveWait): Handling {
    if attempt.None? then Ignored(false, false)
    else if IsSettled(attempt.value) then
      var contradicts := Contradicts(attempt.value, reference, report);
      Ignored(attempt.value.status == BookingRecords.Failed
              && (contradicts || attempt.value.failure == Some(BookingRecords.NoFinalStatus)),
              attempt.value.status == BookingRecords.Success && !contradicts)
    else if StateOf(report).None? || KnownStatus(attempt.value.orders, reference).None? then Ignored(false, false)
    else if attempt.value.status == BookingRecords.Pending && !wait.stale then
      if wait.takesResult then KeptForLiveWait(StateOf(report).value) else AskedToRetry
    else
      var orders := Reported(attempt.value.orders, reference, StateOf(report).value);
      Settling(orders, SettleFromSupplier(orders, attempt.value.rows))
  }

  method SetOrderStatus(orders: seq<Order>, reference: nat, status: OrderStatus) returns (after: seq<Order>)
    ensures after == Reported(orders, reference, status)
  {
    after := orders;
    for i := 0 to |orders|
      invariant |after| == |orders|
      invariant forall j | 0 <= j < i :: after[j] == Reported(orders, reference, status)[j]
      invariant forall j | i <= j < |orders| :: after[j] == orders[j]
    {
      if after[i].reference == reference {
        after := after[i := after[i].(status := status)];
      }
    }
  }

  method HandleSupplierBookingStatus(attempt: Option<Stored>, reference: nat, report: Report, wait: LiveWait)
    returns (handling: Handling)
    ensures handling == Handle(attempt, reference, report, wait)
  {
    if attempt.None? {
      return Ignored(false, false);
    }
    var a := attempt.value;
    if IsSettled(a) {
      var contradicts := Contradicts(a, reference, report);
      var late := a.status == BookingRecords.Failed && (contradicts || a.failure == Some(BookingRecords.NoFinalStatus));
      return Ignored(late, a.status == BookingRecords.Success && !contradicts);
    }
    var state := StateOf(report);
    if state.None? || KnownStatus(a.orders, reference).None? {
      return Ignored(false, false);
    }
    if a.status == BookingRecords.Pending && !wait.stale {
      return if wait.takesResult then KeptForLiveWait(state.value) else AskedToRetry;
    }
    var orders := SetOrderStatus(a.orders, reference, state.value);
    handling := Settling(orders, SettleFromSupplier(orders, a.rows));
  }

  // ---- What a handling stores ------------------------------------------------------------

  /** In the live wait only orders still undecided take a result. */
  function KeepPending(orders: seq<Order>, reference: nat, status: OrderStatus): seq<Order> {
    seq(|orders|, i requires 0 <= i < |orders| =>
      if orders[i].reference == reference && orders[i].status == OrderPending
      then orders[i].(status := status) else orders[i])
  }

  predicate Undecided(orders: seq<Order>) {
    exists i | 0 <= i < |orders| :: orders[i].status == OrderPending
  }

  function StoreVerdict(a: Stored, orders: seq<Order>, verdict: Verdict): Stored {
    match verdict
    case AllBooked => a.(status := BookingRecords.Success, orders := orders, failure := None)
    case NoneBooked =>
      a.(status := BookingRecords.Failed, orders := orders, failure := Some(BookingRecords.SupplierRejected))
    case NeedsCheck =>
      a.(status := BookingRecords.ManualCheck, orders := orders,
         failure := if Undecided(orders) then a.failure else Some(BookingRecords.PartialBooking))
  }

  function AfterHandling(a: Stored, reference: nat, handling: Handling): Stored {
    match handling
    case Ignored(noted, _) => if noted then a.(notes := a.notes + 1) else a
    case KeptForLiveWait(status) => a.(orders := KeepPending(a.orders, reference, status))
    case AskedToRetry => a
    case Settling(orders, verdict) => StoreVerdict(a, orders, verdict)
  }

  datatype Delivery = Delivery(reference: nat, report: Report, wait: LiveWait)

  /** The attempt after one delivery. */
  function Deliver(a: Stored, d: Delivery): Stored {
    AfterHandling(a, d.reference, Handle(Some(a), d.reference, d.report, d.wait))
  }

  /** The attempt after a stream of deliveries. */
  function DeliverAll(a: Stored, stream: seq<Delivery>): Stored {
    if stream == [] then a else Deliver(DeliverAll(a, stream[..|stream| - 1]), stream[|stream| - 1])
  }

  lemma {:induction false} KnownMeans(orders: seq<Order>, reference: nat, status: OrderStatus)
    requires forall i | 0 <= i < |orders| && orders[i].reference == reference :: orders[i].status == status
    ensures KnownStatus(orders, reference) in {None, Some(status)}
  {
    if orders != [] {
      assert forall i | 0 < i < |orders| :: orders[1..][i - 1] == orders[i];
      KnownMeans(orders[1..], reference, status);
    }
  }

  /**
   Delivering a webhook again changes nothing, except that a failed attempt which
   notes the report notes it once more; that attempt had failed before the first delivery.
   */
  lemma {:induction false} DeliveredTwice(a: Stored, d: Delivery)
    ensures var once := Deliver(a, d);
      var noted := a.status == BookingRecords.Failed && Handle(Some(a), d.reference, d.report, d.wait).noted;
      Deliver(once, d) == if noted then once.(notes := once.notes + 1) else once
  {
    var handling := Handle(Some(a), d.reference, d.report, d.wait);
    var once := Deliver(a, d);
    match handling
    case Settling(orders, verdict) =>
      var status := StateOf(d.report).value;
      LateSettlementIsAllOrNone(orders, a.rows);
      KnownMeans(orders, d.reference, status);
      assert Reported(orders, d.reference, status) == orders;
    case KeptForLiveWait(status) =>
      assert KeepPending(once.orders, d.reference, status) == once.orders;
    case _ =>
  }

  /**
   A "completed" report on a failed attempt is passed over without a note exactly
   when the attempt has no such order, or already recorded it as booked, and the
   attempt did not fail for want of a final status.
   */
  lemma {:induction false} LateCompletionIsNoted(a: Stored, reference: nat, wait: LiveWait)
    requires a.status == BookingRecords.Failed
    ensures Handle(Some(a), reference, Completed, wait) == Ignored(false, false) <==>
      (KnownStatus(a.orders, reference) == None || KnownStatus(a.orders, reference) == Some(OrderBooked))
      && a.failure != Some(BookingRecords.NoFinalStatus)
  {
    var known := KnownStatus(a.orders, reference);
    if known.Some? {
      assert known.value == OrderPending || known.value == OrderBooked || known.value == OrderFailed;
    }
  }

  // ---- During the live wait: the first result counts ------------------------------------------

  /** The first final report for a reference that came while the wait still took results. */
  function FirstTaken(stream: seq<Delivery>, reference: nat): (first: Option<OrderStatus>)
    ensures first != Some(OrderPending)
  {
    if stream == [] then None else
      var before := FirstTaken(stream[..|stream| - 1], reference);
      var last := stream[|stream| - 1];
      if before.Some? then before
      else if last.reference == reference && last.wait.takesResult then StateOf(last.report)
      else None
  }

  /** While an attempt is in its live wait, an undecided order takes the first result reported for it and keeps it. */
  lemma {:induction false} FirstResultCountsInLiveWait(a: Stored, stream: seq<Delivery>, i: nat)
    requires a.status == BookingRecords.Pending && i < |a.orders|
    requires forall d | d in stream :: !d.wait.stale
    ensures var after := DeliverAll(a, stream);
      && after == a.(orders := after.orders) && |after.orders| == |a.orders|
      && after.orders[i] ==
           (var first := FirstTaken(stream, a.orders[i].reference);
            if a.orders[i].status == OrderPending && first.Some? then a.orders[i].(status := first.value) else a.orders[i])
  {
    if stream != [] {
      var front, last := stream[..|stream| - 1], stream[|stream| - 1];
      assert last in stream && forall d | d in front :: d in stream;
      FirstResultCountsInLiveWait(a, front, i);
      var before := DeliverAll(a, front);
      assert before.orders[i].reference == a.orders[i].reference;
      if last.reference == a.orders[i].reference {
        assert KnownStatus(before.orders, last.reference).Some?;
      }
    }
  }

  // ---- After it: reports that agree may come in any order ---------------------------------------

  predicate Says(stream: set<Delivery>, reference: nat, report: Report) {
    exists d | d in stream :: d.reference == reference && d.report == report
  }

  function SetOf(stream: seq<Delivery>): set<Delivery> {
    set d | d in stream
  }

  predicate ReportedBoth(reports: set<Delivery>, reference: nat) {
    Says(reports, reference, Completed) && Says(reports, reference, ReportedFailed)
  }

  predicate SomeReported(a: Stored, reports: set<Delivery>, report: Report) {
    exists i | 0 <= i < |a.orders| :: Says(reports, a.orders[i].reference, report)
  }

  /** Reports of this kind alone bring every order to its state, enough to settle the attempt. */
  predicate CanSettle(a: Stored, reports: set<Delivery>, report: Report) {
    && (report == Completed ==> |a.orders| >= a.rows)
    && forall i | 0 <= i < |a.orders| ::
         Some(a.orders[i].status) == StateOf(report) || Says(reports, a.orders[i].reference, report)
  }

  /**
   No order is reported both booked and failed; and if there are reports of both
   kinds, then neither kind alone would settle the attempt before the other came.
   */
  predicate Agree(a: Stored, reports: set<Delivery>) {
    && (forall i | 0 <= i < |a.orders| :: !ReportedBoth(reports, a.orders[i].reference))
    && (SomeReported(a, reports, Completed) && SomeReported(a, reports, ReportedFailed) ==>
          !CanSettle(a, reports, Completed) && !CanSettle(a, reports, ReportedFailed))
  }

  /** The attempt is open, and none of the deliveries falls into a live wait of it. */
  predicate PastLiveWait(a: Stored, reports: set<Delivery>) {
    || a.status == BookingRecords.ManualCheck
    || (a.status == BookingRecords.Pending && forall d | d in reports :: d.wait.stale)
  }

  function OrderAfter(o: Order, reports: set<Delivery>): Order {
    if Says(reports, o.reference, Completed) then o.(status := OrderBooked)
    else if Says(reports, o.reference, ReportedFailed) then o.(status := OrderFailed)
    else o
  }

  /** Every order with the status reported for it. */
  function OrdersAfter(orders: seq<Order>, reports: set<Delivery>): seq<Order> {
    seq(|orders|, i requires 0 <= i < |orders| => OrderAfter(orders[i], reports))
  }

  predicate Concerns(d: Delivery, orders: seq<Order>) {
    d.report != OtherStatus && exists i | 0 <= i < |orders| :: orders[i].reference == d.reference
  }

  /** What the reports amount to, in whatever order they came: the late-settlement rule on the reported orders. */
  function Outcome(a: Stored, reports: set<Delivery>): Stored {
    if exists d | d in reports :: Concerns(d, a.orders) then
      var orders := OrdersAfter(a.orders, reports);
      StoreVerdict(a, orders, SettleFromSupplier(orders, a.rows))
    else a
  }

  lemma {:induction false} SaysMore(reports: set<Delivery>, d: Delivery, reference: nat, report: Report)
    ensures Says(reports + {d}, reference, report) <==>
            Says(reports, reference, report) || (d.reference == reference && d.report == report)
  {
    if d.reference == reference && d.report == report {
      assert d in reports + {d};
    }
  }

  lemma {:induction false} UnknownReference(orders: seq<Order>, d: Delivery)
    requires !Concerns(d, orders)
    ensures KnownStatus(orders, d.reference).None? || d.report == OtherStatus
  {
  }

  lemma {:induction false} UnconcernedOrders(orders: seq<Order>, reports: set<Delivery>, d: Delivery)
    requires !Concerns(d, orders)
    ensures OrdersAfter(orders, reports) == OrdersAfter(orders, reports + {d})
  {
    forall i | 0 <= i < |orders|
      ensures OrderAfter(orders[i], reports) == OrderAfter(orders[i], reports + {d})
    {
      SaysMore(reports, d, orders[i].reference, Completed);
      SaysMore(reports, d, orders[i].reference, ReportedFailed);
    }
  }

  lemma {:induction false} UnconcernedOutcome(a: Stored, reports: set<Delivery>, d: Delivery)
    requires !Concerns(d, a.orders)
    ensures Outcome(a, reports) == Outcome(a, reports + {d})
  {
    UnconcernedOrders(a.orders, reports, d);
    if e :| e in reports && Concerns(e, a.orders) {
      assert e in reports + {d};
    }
  }

  /** A report the attempt has no order for, or no final one, leaves it. */
  lemma {:induction false} UnconcernedDelivery(a: Stored, reports: set<Delivery>, d: Delivery)
    requires PastLiveWait(a, reports + {d}) && !Concerns(d, a.orders)
    ensures Deliver(Outcome(a, reports), d) == Outcome(a, reports + {d})
  {
    var t := Outcome(a, reports);
    UnconcernedOutcome(a, reports, d);
    assert SameReferences(t.orders, a.orders);
    assert !Concerns(d, t.orders) by {
      if i :| 0 <= i < |t.orders| && t.orders[i].reference == d.reference {
        assert a.orders[i].reference == d.reference;
      }
    }
    UnknownReference(t.orders, d);
  }

  lemma {:induction false} AgreeingOrders(a: Stored, reports: set<Delivery>, d: Delivery)
    requires Agree(a, reports + {d}) && d.report != OtherStatus
    ensures OrdersAfter(a.orders, reports + {d})
         == Reported(OrdersAfter(a.orders, reports), d.reference, StateOf(d.report).value)
  {
    forall i | 0 <= i < |a.orders|
      ensures OrderAfter(a.orders[i], reports + {d})
           == Reported(OrdersAfter(a.orders, reports), d.reference, StateOf(d.report).value)[i]
    {
      SaysMore(reports, d, a.orders[i].reference, Completed);
      SaysMore(reports, d, a.orders[i].reference, ReportedFailed);
    }
  }

  /** Once the reports of one kind have settled the attempt, an agreeing report is of that kind. */
  lemma {:induction false} SameKind(a: Stored, reports: set<Delivery>, e: Delivery, d: Delivery, kind: Report)
    requires Agree(a, reports + {d}) && Concerns(d, a.orders) && Concerns(e, a.orders) && e in reports
    requires kind != OtherStatus && (kind == Completed ==> |a.orders| >= a.rows)
    requires forall i | 0 <= i < |a.orders| :: Some(OrderAfter(a.orders[i], reports).status) == StateOf(kind)
    ensures d.report == kind
  {
    forall i | 0 <= i < |a.orders|
      ensures Some(a.orders[i].status) == StateOf(kind) || Says(reports + {d}, a.orders[i].reference, kind)
    {
      SaysMore(reports, d, a.orders[i].reference, Completed);
      SaysMore(reports, d, a.orders[i].reference, ReportedFailed);
    }
    var k :| 0 <= k < |a.orders| && a.orders[k].reference == e.reference;
    SaysMore(reports, d, e.reference, Completed);
    SaysMore(reports, d, e.reference, ReportedFailed);
    assert !ReportedBoth(reports + {d}, a.orders[k].reference);
    assert Says(reports + {d}, a.orders[k].reference, kind);
    var l :| 0 <= l < |a.orders| && a.orders[l].reference == d.reference;
    SaysMore(reports, d, d.reference, d.report);
    assert Says(reports + {d}, a.orders[l].reference, d.report);
    assert CanSettle(a, reports + {d}, kind);
  }

  /** An agreeing report on a settled attempt says what it already knows. */
  lemma {:induction false} SettledAgrees(a: Stored, reports: set<Delivery>, d: Delivery)
    requires Agree(a, reports + {d}) && Concerns(d, a.orders)
    requires exists e | e in reports :: Concerns(e, a.orders)
    requires SettleFromSupplier(OrdersAfter(a.orders, reports), a.rows) != NeedsCheck
    ensures OrdersAfter(a.orders, reports + {d}) == OrdersAfter(a.orders, reports)
    ensures KnownStatus(OrdersAfter(a.orders, reports), d.reference) in {None, StateOf(d.report)}
  {
    var orders := OrdersAfter(a.orders, reports);
    LateSettlementIsAllOrNone(orders, a.rows);
    AgreeingOrders(a, reports, d);
    var e :| e in reports && Concerns(e, a.orders);
    var kind := if SettleFromSupplier(orders, a.rows) == AllBooked then Completed else ReportedFailed;
    forall i | 0 <= i < |a.orders|
      ensures Some(OrderAfter(a.orders[i], reports).status) == StateOf(kind)
    {
      assert orders[i] == OrderAfter(a.orders[i], reports);
    }
    SameKind(a, reports, e, d, kind);
    KnownMeans(orders, d.reference, StateOf(d.report).value);
    assert Reported(orders, d.reference, StateOf(d.report).value) == orders;
  }

  /** An open attempt past its live wait is settled from its orders. */
  lemma {:induction false} ConcernedSettles(t: Stored, d: Delivery)
    requires t.status == BookingRecords.ManualCheck || (t.status == BookingRecords.Pending && d.wait.stale)
    requires Concerns(d, t.orders)
    ensures var orders := Reported(t.orders, d.reference, StateOf(d.report).value);
      Deliver(t, d) == StoreVerdict(t, orders, SettleFromSupplier(orders, t.rows))
  {
  }

  lemma {:induction false} ConcernedOpen(a: Stored, reports: set<Delivery>, d: Delivery)
    requires Agree(a, reports + {d}) && PastLiveWait(a, reports + {d}) && Concerns(d, a.orders)
    requires exists e | e in reports :: Concerns(e, a.orders)
    requires SettleFromSupplier(OrdersAfter(a.orders, reports), a.rows) == NeedsCheck
    ensures Deliver(Outcome(a, reports), d) == Outcome(a, reports + {d})
  {
    var t := Outcome(a, reports);
    var i :| 0 <= i < |a.orders| && a.orders[i].reference == d.reference;
    assert t.orders[i].reference == d.reference;
    AgreeingOrders(a, reports, d);
    ConcernedSettles(t, d);
    assert d in reports + {d};
    ReportsDecide(t.orders, d);
  }

  /** A report never makes an order undecided again. */
  lemma {:induction false} ReportsDecide(orders: seq<Order>, d: Delivery)
    requires d.report != OtherStatus
    ensures Undecided(Reported(orders, d.reference, StateOf(d.report).value)) ==> Undecided(orders)
  {
    var after := Reported(orders, d.reference, StateOf(d.report).value);
    if i :| 0 <= i < |after| && after[i].status == OrderPending {
      assert orders[i].status == OrderPending;
    }
  }

  lemma {:induction false} ConcernedSettled(a: Stored, reports: set<Delivery>, d: Delivery)
    requires Agree(a, reports + {d}) && Concerns(d, a.orders)
    requires exists e | e in reports :: Concerns(e, a.orders)
    requires SettleFromSupplier(OrdersAfter(a.orders, reports), a.rows) != NeedsCheck
    ensures Deliver(Outcome(a, reports), d) == Outcome(a, reports + {d})
  {
    SettledAgrees(a, reports, d);
    assert d in reports + {d};
  }

  lemma {:induction false} ConcernedFirst(a: Stored, reports: set<Delivery>, d: Delivery)
    requires Agree(a, reports + {d}) && PastLiveWait(a, reports + {d}) && Concerns(d, a.orders)
    requires !exists e | e in reports :: Concerns(e, a.orders)
    ensures Deliver(Outcome(a, reports), d) == Outcome(a, reports + {d})
  {
    NobodyConcerned(a, reports);
    AgreeingOrders(a, reports, d);
    assert d in reports + {d};
    ConcernedSettles(a, d);
  }

  lemma {:induction false} ConcernedDelivery(a: Stored, reports: set<Delivery>, d: Delivery)
    requires Agree(a, reports + {d}) && PastLiveWait(a, reports + {d}) && Concerns(d, a.orders)
    ensures Deliver(Outcome(a, reports), d) == Outcome(a, reports + {d})
  {
    if !exists e | e in reports :: Concerns(e, a.orders) {
      ConcernedFirst(a, reports, d);
    } else if SettleFromSupplier(OrdersAfter(a.orders, reports), a.rows) == NeedsCheck {
      ConcernedOpen(a, reports, d);
    } else {
      ConcernedSettled(a, reports, d);
    }
  }

  lemma {:induction false} NobodyConcerned(a: Stored, reports: set<Delivery>)
    requires !exists e | e in reports :: Concerns(e, a.orders)
    ensures OrdersAfter(a.orders, reports) == a.orders
  {
    forall i | 0 <= i < |a.orders|
      ensures OrderAfter(a.orders[i], reports) == a.orders[i]
    {
      forall d | d in reports && d.reference == a.orders[i].reference
        ensures d.report == OtherStatus
      {
        assert !Concerns(d, a.orders);
      }
    }
  }

  /**
   When the reports agree, the attempt ends as the late-settlement rule says of all
   of them together: their order and their repetition make no difference.
   */
  lemma {:induction false} AgreeingReportsSettleAlike(a: Stored, stream: seq<Delivery>)
    requires Agree(a, SetOf(stream)) && PastLiveWait(a, SetOf(stream))
    ensures DeliverAll(a, stream) == Outcome(a, SetOf(stream))
  {
    if stream != [] {
      var front, last := stream[..|stream| - 1], stream[|stream| - 1];
      assert stream == front + [last];
      assert SetOf(stream) == SetOf(front) + {last};
      FewerReportsAgree(a, SetOf(front), last);
      AgreeingReportsSettleAlike(a, front);
      if Concerns(last, a.orders) {
        ConcernedDelivery(a, SetOf(front), last);
      } else {
        UnconcernedDelivery(a, SetOf(front), last);
      }
    }
  }

  lemma {:induction false} FewerReportsAgree(a: Stored, reports: set<Delivery>, d: Delivery)
    requires Agree(a, reports + {d})
    ensures Agree(a, reports)
  {
    forall i | 0 <= i < |a.orders|
      ensures Says(reports, a.orders[i].reference, Completed) ==> Says(reports + {d}, a.orders[i].reference, Completed)
      ensures Says(reports, a.orders[i].reference, ReportedFailed) ==>
              Says(reports + {d}, a.orders[i].reference, ReportedFailed)
      ensures !ReportedBoth(reports + {d}, a.orders[i].reference)
    {
      SaysMore(reports, d, a.orders[i].reference, Completed);
      SaysMore(reports, d, a.orders[i].reference, ReportedFailed);
    }
  }

  /**
   A report on an order of an open attempt past its live wait is written on that order
   only. The attempt then succeeds if every room has a booked order, fails if every
   order failed, and otherwise stays under manual check, as a partial booking once no
   order is undecided.
   */
  lemma {:induction false} DeliverySettles(a: Stored, d: Delivery)
    requires a.status == BookingRecords.ManualCheck || (a.status == BookingRecords.Pending && d.wait.stale)
    requires Concerns(d, a.orders)
    ensures var after := Deliver(a, d);
      && |after.orders| == |a.orders| && after.rows == a.rows && after.notes == a.notes
      && (forall i | 0 <= i < |a.orders| ::
            after.orders[i] ==
              if a.orders[i].reference != d.reference then a.orders[i]
              else a.orders[i].(status := if d.report == Completed then OrderBooked else OrderFailed))
      && (after.status == BookingRecords.Success <==>
            |a.orders| >= a.rows && forall i | 0 <= i < |a.orders| :: after.orders[i].status == OrderBooked)
      && (after.status == BookingRecords.Failed <==>
            forall i | 0 <= i < |a.orders| :: after.orders[i].status == OrderFailed)
      && after.status in {BookingRecords.Success, BookingRecords.Failed, BookingRecords.ManualCheck}
      && (after.status == BookingRecords.Success ==> after.failure == None)
      && (after.status == BookingRecords.Failed ==> after.failure == Some(BookingRecords.SupplierRejected))
      && (after.status == BookingRecords.ManualCheck ==>
            after.failure ==
              if exists i | 0 <= i < |a.orders| :: after.orders[i].status == OrderPending
              then a.failure else Some(BookingRecords.PartialBooking))
  {
    ConcernedSettles(a, d);
    var orders := Reported(a.orders, d.reference, StateOf(d.report).value);
    LateSettlementIsAllOrNone(orders, a.rows);
    var i :| 0 <= i < |a.orders| && a.orders[i].reference == d.reference;
    assert orders[i].status == StateOf(d.report).value;
  }

  // ---- Reports that disagree: the order decides ---------------------------------------------------

  /**
   Whatever order the same deliveries come in, and however often each comes, the
   attempt ends the same, with the same orders, failure and notes.
   */
  ghost predicate OrderDoesNotMatter(a: Stored, deliveries: seq<Delivery>) {
    forall one: seq<Delivery>, other: seq<Delivery> ::
      SetOf(one) == SetOf(deliveries) && SetOf(other) == SetOf(deliveries) ==> DeliverAll(a, one) == DeliverAll(a, other)
  }

  lemma {:induction false} DeliverOneMore(a: Stored, stream: seq<Delivery>, d: Delivery)
    ensures DeliverAll(a, stream + [d]) == Deliver(DeliverAll(a, stream), d)
  {
    assert (stream + [d])[..|stream|] == stream;
  }

  lemma {:induction false} DeliverMore(a: Stored, one: seq<Delivery>, more: seq<Delivery>)
    ensures DeliverAll(a, one + more) == DeliverAll(DeliverAll(a, one), more)
  {
    if more == [] {
      assert one + more == one;
    } else {
      var front, last := more[..|more| - 1], more[|more| - 1];
      DeliverMore(a, one, front);
      DeliverBoth(a, DeliverAll(a, one), one + front, front, last);
      assert more == front + [last] && one + more == (one + front) + [last];
    }
  }

  /** Streams that leave the same attempt still do after one more delivery. */
  lemma {:induction false} DeliverBoth(a: Stored, b: Stored, one: seq<Delivery>, other: seq<Delivery>, d: Delivery)
    requires DeliverAll(a, one) == DeliverAll(b, other)
    ensures DeliverAll(a, one + [d]) == DeliverAll(b, other + [d])
  {
    DeliverOneMore(a, one, d);
    DeliverOneMore(b, other, d);
  }

  predicate SameReferences(a: seq<Order>, b: seq<Order>) {
    |a| == |b| && forall i | 0 <= i < |a| :: a[i].reference == b[i].reference
  }

  /** The attempt's orders bear out its status, as every settlement from them leaves it. */
  predicate OrdersTell(t: Stored) {
    && (t.status == BookingRecords.Success ==>
          |t.orders| >= t.rows && forall i | 0 <= i < |t.orders| :: t.orders[i].status == OrderBooked)
    && (t.status == BookingRecords.Failed ==>
          t.failure == Some(BookingRecords.SupplierRejected)
          && forall i | 0 <= i < |t.orders| :: t.orders[i].status == OrderFailed)
  }

  /** Past its live wait, open or settled from its orders. */
  predicate Waited(t: Stored, reports: set<Delivery>) {
    OrdersTell(t) && (t.status == BookingRecords.Pending ==> forall d | d in reports :: d.wait.stale)
  }

  /** What every delivery past the live wait keeps. */
  lemma {:induction false} PastWaitIsKept(a: Stored, stream: seq<Delivery>)
    requires Waited(a, SetOf(stream))
    ensures var t := DeliverAll(a, stream);
      && SameReferences(t.orders, a.orders) && t.rows == a.rows && OrdersTell(t)
      && (IsSettled(t) || t.status == a.status || t.status == BookingRecords.ManualCheck)
  {
    if stream != [] {
      var front, last := stream[..|stream| - 1], stream[|stream| - 1];
      assert stream == front + [last] && last in SetOf(stream);
      assert forall d | d in SetOf(front) :: d in SetOf(stream);
      PastWaitIsKept(a, front);
      StepPastWait(DeliverAll(a, front), last);
    }
  }

  lemma {:induction false} StoredVerdictTells(t: Stored, orders: seq<Order>)
    requires !IsSettled(t)
    ensures var after := StoreVerdict(t, orders, SettleFromSupplier(orders, t.rows));
      OrdersTell(after) && (IsSettled(after) || after.status == BookingRecords.ManualCheck)
  {
    LateSettlementIsAllOrNone(orders, t.rows);
  }

  lemma {:induction false} StepWhenSettled(t: Stored, d: Delivery)
    requires IsSettled(t)
    ensures var after := Deliver(t, d);
      after == t.(notes := after.notes) && after.notes >= t.notes
      && (t.status == BookingRecords.Success ==> after == t)
  {
  }

  lemma {:induction false} StepWhenOpen(t: Stored, d: Delivery)
    requires t.status == BookingRecords.ManualCheck || (t.status == BookingRecords.Pending && d.wait.stale)
    ensures Deliver(t, d) ==
      if !Concerns(d, t.orders) then t
      else var orders := Reported(t.orders, d.reference, StateOf(d.report).value);
           StoreVerdict(t, orders, SettleFromSupplier(orders, t.rows))
  {
    if Concerns(d, t.orders) {
      ConcernedSettles(t, d);
    } else {
      UnknownReference(t.orders, d);
    }
  }

  lemma {:induction false} StepPastWait(t: Stored, d: Delivery)
    requires Waited(t, {d})
    ensures var after := Deliver(t, d);
      && SameReferences(after.orders, t.orders) && after.rows == t.rows && OrdersTell(after)
      && (IsSettled(t) ==> after == t.(notes := after.notes))
      && (IsSettled(after) || after.status == t.status || after.status == BookingRecords.ManualCheck)
  {
    if IsSettled(t) {
      StepWhenSettled(t, d);
    } else {
      assert t.status == BookingRecords.Pending ==> d in {d} && d.wait.stale;
      StepWhenOpen(t, d);
      if Concerns(d, t.orders) {
        StoredVerdictTells(t, Reported(t.orders, d.reference, StateOf(d.report).value));
      }
    }
  }

  /** A report takes effect unless the attempt has already ended the other way. */
  lemma {:induction false} ReportTakes(t: Stored, d: Delivery, i: nat)
    requires Waited(t, {d}) && i < |t.orders| && t.orders[i].reference == d.reference && d.report != OtherStatus
    requires t.status != EndOf(Opposite(d.report))
    ensures var after := Deliver(t, d);
      |after.orders| == |t.orders| && after.orders[i] == t.orders[i].(status := StateOf(d.report).value)
  {
    if IsSettled(t) {
      StepWhenSettled(t, d);
    } else {
      assert t.status == BookingRecords.Pending ==> d in {d} && d.wait.stale;
      ConcernedSettles(t, d);
    }
  }

  function Opposite(report: Report): Report {
    match report
    case Completed => ReportedFailed
    case ReportedFailed => Completed
    case OtherStatus => OtherStatus
  }

  /** How an attempt ends when all its orders are reported like this. */
  function EndOf(report: Report): BookingRecords.AttemptStatus {
    if report == Completed then BookingRecords.Success else BookingRecords.Failed
  }

  lemma {:induction false} StepNeverBrings(t: Stored, d: Delivery, i: nat, kind: Report)
    requires i < |t.orders| && Some(t.orders[i].status) != StateOf(kind)
    requires d.reference == t.orders[i].reference ==> d.report != kind
    ensures var after := Deliver(t, d);
      |after.orders| == |t.orders| && after.orders[i].reference == t.orders[i].reference
      && Some(after.orders[i].status) != StateOf(kind)
  {
  }

  /** An order reaches a state only by a report of it. */
  lemma {:induction false} NeverBrought(a: Stored, stream: seq<Delivery>, i: nat, kind: Report)
    requires i < |a.orders| && Some(a.orders[i].status) != StateOf(kind)
    requires !Says(SetOf(stream), a.orders[i].reference, kind)
    ensures var t := DeliverAll(a, stream);
      |t.orders| == |a.orders| && t.orders[i].reference == a.orders[i].reference
      && Some(t.orders[i].status) != StateOf(kind)
  {
    if stream != [] {
      var front, last := stream[..|stream| - 1], stream[|stream| - 1];
      assert stream == front + [last] && last in SetOf(stream);
      assert forall d | d in SetOf(front) :: d in SetOf(stream);
      NeverBrought(a, front, i, kind);
      StepNeverBrings(DeliverAll(a, front), last, i, kind);
    }
  }

  lemma {:induction false} SettledStays(a: Stored, stream: seq<Delivery>)
    requires IsSettled(a)
    ensures DeliverAll(a, stream).status == a.status
  {
    if stream != [] { SettledStays(a, stream[..|stream| - 1]); }
  }

  /** The deliveries with a property, in their order. */
  function Part(stream: seq<Delivery>, has: Delivery -> bool): (part: seq<Delivery>)
    ensures forall d :: d in part <==> d in stream && has(d)
  {
    if stream == [] then [] else
      var last := stream[|stream| - 1];
      var before := Part(stream[..|stream| - 1], has);
      assert stream == stream[..|stream| - 1] + [last];
      if has(last) then before + [last] else before
  }

  // ---- Reports of both kinds, one of which settles the attempt if it comes first ----------------------

  /** The reports of one kind first: they settle the attempt. */
  lemma {:induction false} KindFirst(a: Stored, deliveries: seq<Delivery>, kind: Report) returns (stream: seq<Delivery>)
    requires PastLiveWait(a, SetOf(deliveries)) && kind != OtherStatus
    requires SomeReported(a, SetOf(deliveries), kind) && CanSettle(a, SetOf(deliveries), kind)
    ensures SetOf(stream) == SetOf(deliveries)
    ensures DeliverAll(a, stream).status == EndOf(kind)
  {
    var part := Part(deliveries, (d: Delivery) => d.report == kind);
    stream := part + deliveries;
    assert SetOf(stream) == SetOf(deliveries);
    KindSettles(a, deliveries, part, kind);
    DeliverMore(a, part, deliveries);
    SettledStays(DeliverAll(a, part), deliveries);
  }

  lemma {:induction false} KindSettles(a: Stored, deliveries: seq<Delivery>, part: seq<Delivery>, kind: Report)
    requires PastLiveWait(a, SetOf(deliveries)) && kind != OtherStatus
    requires SomeReported(a, SetOf(deliveries), kind) && CanSettle(a, SetOf(deliveries), kind)
    requires forall d :: d in part <==> d in deliveries && d.report == kind
    ensures DeliverAll(a, part).status == EndOf(kind)
  {
    var all, own := SetOf(deliveries), SetOf(part);
    assert forall reference :: Says(own, reference, kind) <==> Says(all, reference, kind) by {
      forall reference | Says(all, reference, kind) ensures Says(own, reference, kind) {
        var d :| d in all && d.reference == reference && d.report == kind;
        assert d in own;
      }
    }
    assert forall reference :: !Says(own, reference, Opposite(kind));
    AgreeingReportsSettleAlike(a, part);
    var i :| 0 <= i < |a.orders| && Says(own, a.orders[i].reference, kind);
    var d :| d in own && d.reference == a.orders[i].reference && d.report == kind;
    assert Concerns(d, a.orders);
    var orders := OrdersAfter(a.orders, own);
    LateSettlementIsAllOrNone(orders, a.rows);
    forall j | 0 <= j < |orders| ensures Some(orders[j].status) == StateOf(kind) {
      assert orders[j] == OrderAfter(a.orders[j], own);
    }
    assert orders[i] == OrderAfter(a.orders[i], own);
  }

  /** A report that no other delivery contradicts, first: the attempt does not end the other way. */
  lemma {:induction false} ReportFirst(a: Stored, deliveries: seq<Delivery>, d: Delivery, i: nat)
    requires PastLiveWait(a, SetOf(deliveries)) && d in deliveries && d.report != OtherStatus
    requires i < |a.orders| && a.orders[i].reference == d.reference
    requires !Says(SetOf(deliveries), d.reference, Opposite(d.report))
    ensures SetOf([d] + deliveries) == SetOf(deliveries)
    ensures DeliverAll(a, [d] + deliveries).status != EndOf(Opposite(d.report))
  {
    assert SetOf([d] + deliveries) == SetOf(deliveries);
    assert d in SetOf(deliveries);
    ReportTakes(a, d, i);
    assert [d][..0] == [];
    assert DeliverAll(a, [d]) == Deliver(a, d);
    assert a.orders[i].reference == Deliver(a, d).orders[i].reference;
    NeverBrought(Deliver(a, d), deliveries, i, Opposite(d.report));
    DeliverMore(a, [d], deliveries);
    PastWaitIsKept(a, [d] + deliveries);
  }

  lemma {:induction false} KindsMatter(a: Stored, deliveries: seq<Delivery>, kind: Report)
    requires PastLiveWait(a, SetOf(deliveries)) && kind != OtherStatus
    requires forall i | 0 <= i < |a.orders| :: !ReportedBoth(SetOf(deliveries), a.orders[i].reference)
    requires SomeReported(a, SetOf(deliveries), kind) && SomeReported(a, SetOf(deliveries), Opposite(kind))
    requires CanSettle(a, SetOf(deliveries), kind)
    ensures !OrderDoesNotMatter(a, deliveries)
  {
    var one := KindFirst(a, deliveries, kind);
    var i :| 0 <= i < |a.orders| && Says(SetOf(deliveries), a.orders[i].reference, Opposite(kind));
    var d :| d in SetOf(deliveries) && d.reference == a.orders[i].reference && d.report == Opposite(kind);
    assert !ReportedBoth(SetOf(deliveries), a.orders[i].reference);
    ReportFirst(a, deliveries, d, i);
    assert DeliverAll(a, one) != DeliverAll(a, [d] + deliveries);
  }

  // ---- An order reported both booked and failed ----------------------------------------------------------

  /** All other orders, and there are some, are booked and not reported failed; the attempt has an order for every room. */
  predicate OnlyItIsInDoubt(a: Stored, reports: set<Delivery>, reference: nat) {
    && |a.orders| >= a.rows
    && (exists j | 0 <= j < |a.orders| :: a.orders[j].reference != reference)
    && forall j | 0 <= j < |a.orders| && a.orders[j].reference != reference ::
         a.orders[j].status == OrderBooked && !Says(reports, a.orders[j].reference, ReportedFailed)
  }

  /**
   Some stream of the same deliveries does not end in success: either the failed
   report comes first and settles, or it comes last of its reference while another
   order is not booked.
   */
  lemma {:induction false} AvoidSuccess(a: Stored, deliveries: seq<Delivery>, failed: Delivery, i: nat) returns (stream: seq<Delivery>)
    requires PastLiveWait(a, SetOf(deliveries)) && i < |a.orders|
    requires failed in deliveries && failed.report == ReportedFailed && failed.reference == a.orders[i].reference
    requires !OnlyItIsInDoubt(a, SetOf(deliveries), failed.reference)
    ensures SetOf(stream) == SetOf(deliveries)
    ensures DeliverAll(a, stream).status != BookingRecords.Success
  {
    var r := failed.reference;
    if |a.orders| < a.rows {
      stream := deliveries;
      PastWaitIsKept(a, stream);
    } else if j :| 0 <= j < |a.orders| && a.orders[j].reference != r && a.orders[j].status != OrderBooked {
      stream := OwnThenOthers(a, deliveries, failed, i, j);
    } else if j :| 0 <= j < |a.orders| && a.orders[j].reference != r
                   && Says(SetOf(deliveries), a.orders[j].reference, ReportedFailed) {
      stream := OtherFirst(a, deliveries, failed, i, j);
    } else {
      stream := [failed] + deliveries;
      assert SetOf(stream) == SetOf(deliveries);
      assert failed in SetOf(deliveries);
      OnlyReferenceFails(a, failed, i);
      DeliverMore(a, [failed], deliveries);
      SettledStays(DeliverAll(a, [failed]), deliveries);
    }
  }

  lemma {:induction false} OnlyReferenceFails(a: Stored, failed: Delivery, i: nat)
    requires PastLiveWait(a, {failed}) && i < |a.orders|
    requires failed.report == ReportedFailed && forall j | 0 <= j < |a.orders| :: a.orders[j].reference == failed.reference
    ensures DeliverAll(a, [failed]).status == BookingRecords.Failed
  {
    assert [failed][..0] == [];
    assert DeliverAll(a, [failed]) == Deliver(a, failed);
    assert failed in {failed} && a.orders[i].reference == failed.reference;
    assert KnownStatus(a.orders, failed.reference).Some?;
    LateSettlementIsAllOrNone(Reported(a.orders, failed.reference, OrderFailed), a.rows);
  }

  lemma {:induction false} OwnThenOthers(a: Stored, deliveries: seq<Delivery>, failed: Delivery, i: nat, j: nat)
    returns (stream: seq<Delivery>)
    requires Waited(a, SetOf(deliveries)) && i < |a.orders| && j < |a.orders|
    requires failed in deliveries && failed.report == ReportedFailed
    requires failed.reference == a.orders[i].reference != a.orders[j].reference
    requires a.orders[j].status != OrderBooked
    ensures SetOf(stream) == SetOf(deliveries)
    ensures DeliverAll(a, stream).status != BookingRecords.Success
  {
    var r := failed.reference;
    var own := Part(deliveries, (d: Delivery) => d.reference == r);
    var others := Part(deliveries, (d: Delivery) => d.reference != r);
    stream := own + [failed] + others;
    assert SetOf(stream) == SetOf(deliveries);
    OwnFails(a, own, failed, i, j);
    var u := DeliverAll(a, own + [failed]);
    NeverBrought(u, others, i, Completed);
    DeliverMore(a, own + [failed], others);
    PastWaitIsKept(a, stream);
  }

  lemma {:induction false} OwnFails(a: Stored, own: seq<Delivery>, failed: Delivery, i: nat, j: nat)
    requires Waited(a, SetOf(own)) && Waited(a, {failed}) && i < |a.orders| && j < |a.orders|
    requires failed.report == ReportedFailed && failed.reference == a.orders[i].reference != a.orders[j].reference
    requires a.orders[j].status != OrderBooked
    requires forall d | d in own :: d.reference == failed.reference
    ensures var u := DeliverAll(a, own + [failed]);
      |u.orders| == |a.orders| && u.orders[i].reference == a.orders[i].reference && u.orders[i].status == OrderFailed
  {
    NeverBrought(a, own, j, Completed);
    PastWaitIsKept(a, own);
    DeliverOneMore(a, own, failed);
    var t := DeliverAll(a, own);
    assert t.orders[i].reference == a.orders[i].reference;
    assert failed in {failed};
    ReportTakes(t, failed, i);
  }

  lemma {:induction false} OtherFirst(a: Stored, deliveries: seq<Delivery>, failed: Delivery, i: nat, j: nat)
    returns (stream: seq<Delivery>)
    requires PastLiveWait(a, SetOf(deliveries)) && i < |a.orders| && j < |a.orders|
    requires failed in deliveries && failed.report == ReportedFailed
    requires failed.reference == a.orders[i].reference != a.orders[j].reference
    requires Says(SetOf(deliveries), a.orders[j].reference, ReportedFailed)
    ensures SetOf(stream) == SetOf(deliveries)
    ensures DeliverAll(a, stream).status != BookingRecords.Success
  {
    var d :| d in SetOf(deliveries) && d.reference == a.orders[j].reference && d.report == ReportedFailed;
    var t := Deliver(a, d);
    ReportTakes(a, d, j);
    StepPastWait(a, d);
    assert t.orders[i].reference == a.orders[i].reference && t.orders[j].reference == a.orders[j].reference;
    var rest := OwnThenOthers(t, deliveries, failed, i, j);
    stream := [d] + rest;
    assert SetOf(stream) == SetOf(deliveries) by { assert d in SetOf(rest); }
    assert [d][..0] == [];
    assert DeliverAll(a, [d]) == t;
    DeliverMore(a, [d], rest);
  }

  /** Two last reports that disagree leave different attempts behind, unless the attempt succeeded before. */
  lemma {:induction false} LastReportTells(t: Stored, booked: Delivery, failed: Delivery, i: nat)
    requires i < |t.orders| && t.orders[i].reference == booked.reference == failed.reference
    requires booked.report == Completed && failed.report == ReportedFailed
    requires t.status == BookingRecords.Pending ==> booked.wait.stale && failed.wait.stale
    requires t.status == BookingRecords.Failed ==> forall j | 0 <= j < |t.orders| :: t.orders[j].status == OrderFailed
    requires t.status != BookingRecords.Success
    ensures Deliver(t, booked) != Deliver(t, failed) || Deliver(t, booked) != t
  {
    assert KnownStatus(t.orders, booked.reference).Some?;
    if t.status == BookingRecords.Failed {
      KnownMeans(t.orders, booked.reference, OrderFailed);
      assert Deliver(t, booked).notes == t.notes + 1;
    } else {
      assert Deliver(t, booked).orders[i].status == OrderBooked;
      assert Deliver(t, failed).orders[i].status == OrderFailed;
    }
  }

  lemma {:induction false} DisagreementMatters(a: Stored, deliveries: seq<Delivery>, i: nat)
    requires PastLiveWait(a, SetOf(deliveries)) && i < |a.orders|
    requires ReportedBoth(SetOf(deliveries), a.orders[i].reference)
    requires !OnlyItIsInDoubt(a, SetOf(deliveries), a.orders[i].reference)
    ensures !OrderDoesNotMatter(a, deliveries)
  {
    var r := a.orders[i].reference;
    var booked :| booked in SetOf(deliveries) && booked.reference == r && booked.report == Completed;
    var failed :| failed in SetOf(deliveries) && failed.reference == r && failed.report == ReportedFailed;
    var stream := AvoidSuccess(a, deliveries, failed, i);
    assert booked in SetOf(stream) && failed in SetOf(stream);
    var one, other := stream + [booked], stream + [failed];
    assert SetOf(one) == SetOf(stream) == SetOf(other);
    PastWaitIsKept(a, stream);
    DeliverOneMore(a, stream, booked);
    DeliverOneMore(a, stream, failed);
    LastReportTells(DeliverAll(a, stream), booked, failed, i);
    assert !(DeliverAll(a, one) == DeliverAll(a, other) && DeliverAll(a, one) == DeliverAll(a, stream));
  }

  /** The attempt with every order booked. */
  function Won(a: Stored): Stored {
    a.(status := BookingRecords.Success, failure := None,
       orders := seq(|a.orders|, i requires 0 <= i < |a.orders| => a.orders[i].(status := OrderBooked)))
  }

  /** What the deliveries leave of `a` until `reference` is reported booked. */
  predicate StillInDoubt(a: Stored, t: Stored, reference: nat) {
    && Won(t) == Won(a) && (t.status == a.status || t.status == BookingRecords.ManualCheck)
    && forall j | 0 <= j < |t.orders| && t.orders[j].reference != reference :: t.orders[j].status == OrderBooked
  }

  lemma {:induction false} SameWon(t: Stored, orders: seq<Order>)
    requires |orders| == |t.orders|
    requires forall j | 0 <= j < |orders| :: orders[j].(status := OrderBooked) == t.orders[j].(status := OrderBooked)
    ensures Won(t.(orders := orders)) == Won(t)
    ensures (forall j | 0 <= j < |orders| :: orders[j].status == OrderBooked) ==> orders == Won(t).orders
  {
  }

  /** In that state a report of the others changes nothing, and one of `reference` decides it. */
  lemma {:induction false} DoubtStep(a: Stored, reports: set<Delivery>, t: Stored, d: Delivery, reference: nat)
    requires PastLiveWait(a, reports) && OnlyItIsInDoubt(a, reports, reference) && d in reports
    requires StillInDoubt(a, t, reference)
    ensures Deliver(t, d) == Won(a) || StillInDoubt(a, Deliver(t, d), reference)
    ensures d.reference == reference && d.report == Completed && Concerns(d, a.orders) ==> Deliver(t, d) == Won(a)
  {
    OrdersOfWon(a, t);
    StepWhenOpen(t, d);
    if Concerns(d, t.orders) {
      var orders := Reported(t.orders, d.reference, StateOf(d.report).value);
      SameWon(t, orders);
      LateSettlementIsAllOrNone(orders, t.rows);
      var k :| 0 <= k < |a.orders| && a.orders[k].reference != reference;
      forall j | 0 <= j < |orders| && orders[j].reference != reference
        ensures orders[j].status == OrderBooked
      {
        assert a.orders[j].reference == t.orders[j].reference;
        if d.reference == a.orders[j].reference {
          assert !Says(reports, a.orders[j].reference, ReportedFailed);
        }
      }
      assert orders[k].status == OrderBooked;
    }
  }

  lemma {:induction false} OrdersOfWon(a: Stored, t: Stored)
    requires Won(t) == Won(a)
    ensures |t.orders| == |a.orders| && t.rows == a.rows && t.notes == a.notes
    ensures forall j | 0 <= j < |a.orders| :: t.orders[j].reference == a.orders[j].reference
  {
    assert |Won(t).orders| == |Won(a).orders|;
    forall j | 0 <= j < |a.orders| ensures t.orders[j].reference == a.orders[j].reference {
      assert Won(t).orders[j] == Won(a).orders[j];
    }
  }

  /** With all others booked, the attempt succeeds as soon as the order in doubt is reported booked, if not before. */
  lemma {:induction false} DoubtEnds(a: Stored, stream: seq<Delivery>, reference: nat)
    requires PastLiveWait(a, SetOf(stream)) && OnlyItIsInDoubt(a, SetOf(stream), reference)
    ensures DeliverAll(a, stream) == Won(a) || StillInDoubt(a, DeliverAll(a, stream), reference)
    ensures (exists d | d in stream :: d.reference == reference && d.report == Completed && Concerns(d, a.orders))
            ==> DeliverAll(a, stream) == Won(a)
  {
    if stream != [] {
      var front, last := stream[..|stream| - 1], stream[|stream| - 1];
      assert stream == front + [last] && last in SetOf(stream);
      assert forall d | d in SetOf(front) :: d in SetOf(stream);
      DoubtEnds(a, front, reference);
      var t := DeliverAll(a, front);
      if t == Won(a) {
        StepWhenSettled(t, last);
      } else {
        DoubtStep(a, SetOf(stream), t, last, reference);
      }
    }
  }

  lemma {:induction false} HarmlessDoubt(a: Stored, deliveries: seq<Delivery>, i: nat)
    requires PastLiveWait(a, SetOf(deliveries)) && i < |a.orders|
    requires ReportedBoth(SetOf(deliveries), a.orders[i].reference)
    requires OnlyItIsInDoubt(a, SetOf(deliveries), a.orders[i].reference)
    ensures OrderDoesNotMatter(a, deliveries)
  {
    var r := a.orders[i].reference;
    var booked :| booked in SetOf(deliveries) && booked.reference == r && booked.report == Completed;
    assert Concerns(booked, a.orders);
    forall stream: seq<Delivery> | SetOf(stream) == SetOf(deliveries)
      ensures DeliverAll(a, stream) == Won(a)
    {
      assert booked in SetOf(stream);
      DoubtEnds(a, stream, r);
    }
  }

  /**
   The order and repetition of an attempt's webhooks make no difference if and only
   if they agree, or the one order reported both booked and failed is the only one
   that stands between the attempt and its success.
   */
  lemma {:induction false} OrderDoesNotMatterIff(a: Stored, deliveries: seq<Delivery>)
    requires PastLiveWait(a, SetOf(deliveries))
    ensures OrderDoesNotMatter(a, deliveries) <==>
      || Agree(a, SetOf(deliveries))
      || exists i | 0 <= i < |a.orders| ::
           ReportedBoth(SetOf(deliveries), a.orders[i].reference)
           && OnlyItIsInDoubt(a, SetOf(deliveries), a.orders[i].reference)
  {
    var reports := SetOf(deliveries);
    if Agree(a, reports) {
      AgreementSuffices(a, deliveries);
    } else if i :| 0 <= i < |a.orders| && ReportedBoth(reports, a.orders[i].reference) {
      if OnlyItIsInDoubt(a, reports, a.orders[i].reference) {
        HarmlessDoubt(a, deliveries, i);
      } else {
        DisagreementMatters(a, deliveries, i);
      }
    } else {
      KindsMatter(a, deliveries, if CanSettle(a, reports, Completed) then Completed else ReportedFailed);
    }
  }

  lemma {:induction false} AgreementSuffices(a: Stored, deliveries: seq<Delivery>)
    requires Agree(a, SetOf(deliveries)) && PastLiveWait(a, SetOf(deliveries))
    ensures OrderDoesNotMatter(a, deliveries)
  {
    forall one: seq<Delivery>, other: seq<Delivery>
           | SetOf(one) == SetOf(deliveries) && SetOf(other) == SetOf(deliveries)
      ensures DeliverAll(a, one) == DeliverAll(a, other)
    {
      AgreeingReportsSettleAlike(a, one);
      AgreeingReportsSettleAlike(a, other);
    }
  }

  /**
   Contradicting webhooks for a one-room attempt: the first one settles it for good.
   Failed then completed ends FAILED with a note, completed then failed ends SUCCESS.
   */
  lemma {:induction false} FirstDecisiveReportWins(reference: nat, wait: LiveWait)
    ensures var a := Stored(BookingRecords.ManualCheck, None, [Order(1, reference, OrderPending)], 1, 0);
      var failed, booked := Delivery(reference, ReportedFailed, wait), Delivery(reference, Completed, wait);
      && DeliverAll(a, [failed, booked]).status == BookingRecords.Failed
      && DeliverAll(a, [failed, booked]).notes == 1
      && DeliverAll(a, [booked, failed]).status == BookingRecords.Success
  {
    var a := Stored(BookingRecords.ManualCheck, None, [Order(1, reference, OrderPending)], 1, 0);
    var failed, booked := Delivery(reference, ReportedFailed, wait), Delivery(reference, Completed, wait);
    OneOrderSettles(a, failed);
    OneOrderSettles(a, booked);
    TwoDeliveries(a, failed, booked);
    TwoDeliveries(a, booked, failed);
  }

  lemma {:induction false} OneOrderSettles(a: Stored, d: Delivery)
    requires a.status == BookingRecords.ManualCheck && a.rows == 1 && d.report != OtherStatus
    requires a.orders == [Order(1, d.reference, OrderPending)]
    ensures var after := Deliver(a, d);
      && after.orders == [Order(1, d.reference, StateOf(d.report).value)] && after.notes == a.notes
      && after.status == if d.report == Completed then BookingRecords.Success else BookingRecords.Failed
  {
    var orders := Reported(a.orders, d.reference, StateOf(d.report).value);
    assert orders == [Order(1, d.reference, StateOf(d.report).value)];
    LateSettlementIsAllOrNone(orders, 1);
  }

  lemma {:induction false} TwoDeliveries(a: Stored, first: Delivery, second: Delivery)
    ensures DeliverAll(a, [first, second]) == Deliver(Deliver(a, first), second)
  {
    DeliverOneMore(a, [], first);
    DeliverOneMore(a, [first], second);
    assert [] + [first] == [first] && [first] + [second] == [first, second];
  }
}
