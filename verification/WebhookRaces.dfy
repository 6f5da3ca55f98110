/**
 Webhooks that overlap: each reads the attempt without a lock, and what it stores
 later it works out from that copy. What such races can settle, when they end like
 deliveries one after another, and when a report is lost.
 */
module WebhookRaces {
  import opened Common
  import BookingRecords
  import opened BookingAttempt
  import opened Webhooks

  /** What the handling of `d`, worked out from an earlier copy, makes of the attempt. */
  function Land(a: Stored, copy: Stored, d: Delivery): Stored {
    match Handle(Some(copy), d.reference, d.report, d.wait)
    case Ignored(noted, _) => if noted && a.status == BookingRecords.Failed then a.(notes := a.notes + 1) else a
    case KeptForLiveWait(status) =>
      if a.status == BookingRecords.Pending then a.(orders := KeepPending(a.orders, d.reference, status)) else a
    case AskedToRetry => a
    case Settling(orders, verdict) => if IsSettled(a) then a else StoreVerdict(a, orders, verdict)
  }

  /** Delivery `k` reads the attempt, or stores its result. */
  datatype Event = Reads(k: nat) | Lands(k: nat)

  /** The attempt, and the copies of the deliveries under way. */
  datatype Race = Race(attempt: Stored, copies: map<nat, Stored>)

  function Next(r: Race, deliveries: seq<Delivery>, e: Event): Race
    requires forall k | k in r.copies :: k < |deliveries|
  {
    match e
    case Reads(k) => if k < |deliveries| then r.(copies := r.copies[k := r.attempt]) else r
    case Lands(k) =>
      if k in r.copies then Race(Land(r.attempt, r.copies[k], deliveries[k]), r.copies - {k}) else r
  }

  /** Any interleaving; a delivery may also be read again, or never land. */
  function Run(a: Stored, deliveries: seq<Delivery>, events: seq<Event>): (r: Race)
    ensures r.copies.Keys == Underway(|deliveries|, events)
  {
    if events == [] then Race(a, map[])
    else Next(Run(a, deliveries, events[..|events| - 1]), deliveries, events[|events| - 1])
  }

  /** Deliveries that have read and not yet landed. */
  function Underway(n: nat, events: seq<Event>): (ks: set<nat>)
    ensures forall k | k in ks :: k < n
  {
    if events == [] then {} else
      var before := Underway(n, events[..|events| - 1]);
      match events[|events| - 1]
      case Reads(k) => if k < n then before + {k} else before
      case Lands(k) => before - {k}
  }

  /** The deliveries that landed, in that order. */
  function Landed(deliveries: seq<Delivery>, events: seq<Event>): seq<Delivery> {
    if events == [] then [] else
      var front, last := events[..|events| - 1], events[|events| - 1];
      Landed(deliveries, front)
        + if last.Lands? && last.k in Underway(|deliveries|, front) then [deliveries[last.k]] else []
  }

  /** Without another landing in between, reading and storing is one delivery. */
  lemma {:induction false} LandsAlone(a: Stored, d: Delivery)
    ensures Land(a, a, d) == Deliver(a, d)
  {
  }

  // ---- What a copy still shares with the attempt ------------------------------------------

  /** The same rooms and references; only statuses may differ. */
  predicate SameRooms(a: seq<Order>, b: seq<Order>) {
    |a| == |b| && forall i | 0 <= i < |a| :: a[i] == b[i].(status := a[i].status)
  }

  /** What a copy read earlier still tells of the attempt. */
  predicate ReadFrom(a: Stored, copy: Stored) {
    && SameRooms(a.orders, copy.orders) && a.rows == copy.rows
    && (IsSettled(copy) ==> a == copy.(notes := a.notes))
  }

  lemma {:induction false} SameKnown(a: seq<Order>, b: seq<Order>, reference: nat)
    requires SameRooms(a, b)
    ensures KnownStatus(a, reference).None? <==> KnownStatus(b, reference).None?
  {
    assert forall i | 0 <= i < |a| :: a[i].reference == b[i].reference;
  }

  lemma {:induction false} StoredKeepsRooms(a: Stored, copy: Stored, d: Delivery)
    requires ReadFrom(a, copy)
    ensures var t := Land(a, copy, d);
      SameRooms(t.orders, a.orders) && t.rows == a.rows && (IsSettled(a) ==> t == a.(notes := t.notes) && t.notes >= a.notes)
  {
  }

  lemma {:induction false} StaysReadFrom(a: Stored, copy: Stored, t: Stored)
    requires ReadFrom(a, copy) && SameRooms(t.orders, a.orders) && t.rows == a.rows
    requires IsSettled(a) ==> t == a.(notes := t.notes)
    ensures ReadFrom(t, copy)
  {
  }

  /** In every interleaving copies share their rooms with the attempt, and what was settled before the copy stays. */
  lemma {:induction false} CopiesAreReadFrom(a: Stored, deliveries: seq<Delivery>, events: seq<Event>)
    ensures var r := Run(a, deliveries, events);
      && SameRooms(r.attempt.orders, a.orders) && r.attempt.rows == a.rows && r.attempt.notes >= a.notes
      && forall k | k in r.copies :: ReadFrom(r.attempt, r.copies[k])
  {
    if events != [] {
      var front, last := events[..|events| - 1], events[|events| - 1];
      CopiesAreReadFrom(a, deliveries, front);
      var r := Run(a, deliveries, front);
      var t := Run(a, deliveries, events);
      if last.Lands? && last.k in r.copies {
        StoredKeepsRooms(r.attempt, r.copies[last.k], deliveries[last.k]);
        forall k | k in t.copies ensures ReadFrom(t.attempt, t.copies[k]) {
          StaysReadFrom(r.attempt, r.copies[k], t.attempt);
        }
      }
    }
  }

  // ---- Races settle on reports only ------------------------------------------------------------

  /** Every order is as it was, or as some delivery reported it. */
  predicate Told(orders: seq<Order>, start: seq<Order>, deliveries: seq<Delivery>) {
    && SameRooms(orders, start)
    && forall i | 0 <= i < |orders| :: orders[i] == start[i] || Reports(deliveries, start[i].reference, orders[i].status)
  }

  predicate Reports(deliveries: seq<Delivery>, reference: nat, status: OrderStatus) {
    exists d | d in deliveries :: d.reference == reference && StateOf(d.report) == Some(status)
  }

  lemma {:induction false} LandTold(a: Stored, copy: Stored, start: seq<Order>, deliveries: seq<Delivery>, d: Delivery)
    requires ReadFrom(a, copy) && d in deliveries && OrdersTell(a)
    requires Told(a.orders, start, deliveries) && Told(copy.orders, start, deliveries)
    ensures Told(Land(a, copy, d).orders, start, deliveries) && OrdersTell(Land(a, copy, d))
  {
    match Handle(Some(copy), d.reference, d.report, d.wait)
    case Settling(orders, verdict) =>
      LateSettlementIsAllOrNone(orders, copy.rows);
      TellTold(copy.orders, start, deliveries, d);
    case KeptForLiveWait(status) =>
      forall i | 0 <= i < |a.orders|
        ensures var o := KeepPending(a.orders, d.reference, status)[i];
          o == start[i] || Reports(deliveries, start[i].reference, o.status)
      {
        assert a.orders[i].reference == start[i].reference;
      }
    case _ =>
  }

  lemma {:induction false} TellTold(orders: seq<Order>, start: seq<Order>, deliveries: seq<Delivery>, d: Delivery)
    requires Told(orders, start, deliveries) && d in deliveries && d.report != OtherStatus
    ensures Told(Reported(orders, d.reference, StateOf(d.report).value), start, deliveries)
  {
    var after := Reported(orders, d.reference, StateOf(d.report).value);
    forall i | 0 <= i < |after|
      ensures after[i] == start[i] || Reports(deliveries, start[i].reference, after[i].status)
    {
      assert orders[i].reference == start[i].reference;
    }
  }

  lemma {:induction false} RaceTold(a: Stored, deliveries: seq<Delivery>, events: seq<Event>)
    requires OrdersTell(a)
    ensures var r := Run(a, deliveries, events);
      && Told(r.attempt.orders, a.orders, deliveries) && OrdersTell(r.attempt)
      && forall k | k in r.copies :: Told(r.copies[k].orders, a.orders, deliveries)
  {
    if events != [] {
      var front, last := events[..|events| - 1], events[|events| - 1];
      RaceTold(a, deliveries, front);
      CopiesAreReadFrom(a, deliveries, front);
      var r := Run(a, deliveries, front);
      if last.Lands? && last.k in r.copies {
        LandTold(r.attempt, r.copies[last.k], a.orders, deliveries, deliveries[last.k]);
      }
    }
  }

  /**
   However webhooks race, in or after the live wait, with contradictions and old
   copies: an open attempt succeeds only if every order was booked already or is
   reported booked, with an order for every room, and fails only if every order had
   failed already or is reported failed.
   */
  lemma {:induction false} RacesSettleOnReports(a: Stored, deliveries: seq<Delivery>, events: seq<Event>)
    requires !IsSettled(a)
    ensures var t := Run(a, deliveries, events).attempt;
      && (t.status == BookingRecords.Success ==>
            |a.orders| >= a.rows
            && forall i | 0 <= i < |a.orders| ::
                 a.orders[i].status == OrderBooked || Reports(deliveries, a.orders[i].reference, OrderBooked))
      && (t.status == BookingRecords.Failed ==>
            forall i | 0 <= i < |a.orders| ::
              a.orders[i].status == OrderFailed || Reports(deliveries, a.orders[i].reference, OrderFailed))
  {
    RaceTold(a, deliveries, events);
    CopiesAreReadFrom(a, deliveries, events);
    var t := Run(a, deliveries, events).attempt;
    forall i | 0 <= i < |a.orders|
      ensures t.orders[i].status == a.orders[i].status || Reports(deliveries, a.orders[i].reference, t.orders[i].status)
    {
    }
  }

  /** What is settled stays settled, with the same orders, whatever still lands. */
  lemma {:induction false} RacesKeepSettled(a: Stored, deliveries: seq<Delivery>, events: seq<Event>, n: nat)
    requires n <= |events| && IsSettled(Run(a, deliveries, events[..n]).attempt)
    ensures var settled, t := Run(a, deliveries, events[..n]).attempt, Run(a, deliveries, events).attempt;
      t == settled.(notes := t.notes) && t.notes >= settled.notes
  {
    if n == |events| {
      assert events[..n] == events;
    } else {
      var front, last := events[..|events| - 1], events[|events| - 1];
      assert front[..n] == events[..n];
      RacesKeepSettled(a, deliveries, front, n);
      CopiesAreReadFrom(a, deliveries, front);
      var r := Run(a, deliveries, front);
      if last.Lands? && last.k in r.copies {
        StoredKeepsRooms(r.attempt, r.copies[last.k], deliveries[last.k]);
      }
    }
  }

  // ---- When a landing is as good as a delivery -------------------------------------------------------

  /** No live wait is concerned. */
  predicate PastWait(a: Stored, d: Delivery) {
    a.status == BookingRecords.Pending ==> d.wait.stale
  }

  /** The copy has the present status of every order the delivery is not about. */
  predicate SameElsewhere(a: seq<Order>, copy: seq<Order>, reference: nat)
    requires |a| == |copy|
  {
    forall i | 0 <= i < |a| && a[i].reference != reference :: a[i] == copy[i]
  }

  /** A settled attempt would note the report. */
  predicate Notes(a: Stored, d: Delivery) {
    var handling := Handle(Some(a), d.reference, d.report, d.wait);
    handling.Ignored? && handling.noted
  }

  lemma {:induction false} SameConcern(a: seq<Order>, copy: seq<Order>, d: Delivery)
    requires SameRooms(a, copy)
    ensures Concerns(d, a) <==> Concerns(d, copy)
  {
    assert forall i | 0 <= i < |a| :: a[i].reference == copy[i].reference;
  }

  lemma {:induction false} NothingStored(a: Stored, copy: Stored, d: Delivery)
    requires !IsSettled(a) && !IsSettled(copy) && ReadFrom(a, copy) && !Concerns(d, a.orders)
    ensures Land(a, copy, d) == a == Deliver(a, d)
  {
    SameConcern(a.orders, copy.orders, d);
    UnknownReference(a.orders, d);
    UnknownReference(copy.orders, d);
  }

  /** What a landing stores comes from the copy, but for the failure code of an attempt left open. */
  lemma {:induction false} StoredFromCopy(a: Stored, copy: Stored, d: Delivery)
    requires !IsSettled(a) && !IsSettled(copy) && ReadFrom(a, copy) && Concerns(d, a.orders)
    requires PastWait(a, d) && PastWait(copy, d)
    ensures var orders := Reported(copy.orders, d.reference, StateOf(d.report).value);
      Land(a, copy, d) == StoreVerdict(a, orders, SettleFromSupplier(orders, a.rows))
    ensures Land(a, copy, d).orders == Deliver(copy, d).orders && Land(a, copy, d).status == Deliver(copy, d).status
    ensures Deliver(a, d).orders == Reported(a.orders, d.reference, StateOf(d.report).value)
  {
    SameConcern(a.orders, copy.orders, d);
    ConcernedSettles(a, d);
    ConcernedSettles(copy, d);
  }

  lemma {:induction false} SameReport(a: seq<Order>, copy: seq<Order>, d: Delivery)
    requires SameRooms(a, copy) && d.report != OtherStatus
    ensures Reported(copy, d.reference, StateOf(d.report).value) == Reported(a, d.reference, StateOf(d.report).value)
       <==> SameElsewhere(a, copy, d.reference)
  {
    var one, other := Reported(copy, d.reference, StateOf(d.report).value), Reported(a, d.reference, StateOf(d.report).value);
    if one == other {
      forall i | 0 <= i < |a| && a[i].reference != d.reference ensures a[i] == copy[i] {
        assert one[i] == other[i] && copy[i].reference == a[i].reference;
      }
    } else {
      var i :| 0 <= i < |a| && one[i] != other[i];
      assert copy[i].reference == a[i].reference;
    }
  }

  /**
   Exactly when a landing does what a delivery at that moment would do: the copy was
   settled already; or the attempt has settled since and would not note the report;
   or it is open, and the copy is up to date on every order the report is not about.
   */
  lemma {:induction false} LandsAsDeliveredIff(a: Stored, copy: Stored, d: Delivery)
    requires ReadFrom(a, copy) && PastWait(a, d) && PastWait(copy, d)
    ensures Land(a, copy, d) == Deliver(a, d) <==>
      || IsSettled(copy)
      || (IsSettled(a) && !Notes(a, d))
      || (!IsSettled(a) && (!Concerns(d, a.orders) || SameElsewhere(a.orders, copy.orders, d.reference)))
  {
    if IsSettled(copy) {
      assert a == copy.(notes := a.notes);
    } else if !IsSettled(a) {
      if Concerns(d, a.orders) {
        StoredFromCopy(a, copy, d);
        SameReport(a.orders, copy.orders, d);
        ConcernedSettles(a, d);
      } else {
        NothingStored(a, copy, d);
      }
    } else {
      SettledSince(a, copy, d);
    }
  }

  lemma {:induction false} SettledSince(a: Stored, copy: Stored, d: Delivery)
    requires IsSettled(a) && !IsSettled(copy) && PastWait(copy, d)
    ensures Land(a, copy, d) == a && (Deliver(a, d) == a <==> !Notes(a, d))
  {
  }

  /** In the live wait the rows are written one by one where they are undecided: old copies do no harm. */
  lemma {:induction false} LandsInLiveWait(a: Stored, copy: Stored, d: Delivery)
    requires a.status == copy.status == BookingRecords.Pending && ReadFrom(a, copy) && !d.wait.stale
    ensures Land(a, copy, d) == Deliver(a, d)
  {
    SameKnown(a.orders, copy.orders, d.reference);
  }

  /** So every race within the live wait is a stream of deliveries, in the order they landed. */
  lemma {:induction false} LiveWaitRacesAreSerial(a: Stored, deliveries: seq<Delivery>, events: seq<Event>)
    requires a.status == BookingRecords.Pending && forall d | d in deliveries :: !d.wait.stale
    ensures var r := Run(a, deliveries, events);
      && r.attempt == DeliverAll(a, Landed(deliveries, events)) && r.attempt.status == BookingRecords.Pending
      && forall k | k in r.copies :: r.copies[k].status == BookingRecords.Pending
  {
    if events != [] {
      var front, last := events[..|events| - 1], events[|events| - 1];
      LiveWaitRacesAreSerial(a, deliveries, front);
      CopiesAreReadFrom(a, deliveries, front);
      var r := Run(a, deliveries, front);
      if last.Lands? && last.k in r.copies {
        LandsInLiveWait(r.attempt, r.copies[last.k], deliveries[last.k]);
        DeliverOneMore(a, Landed(deliveries, front), deliveries[last.k]);
      } else {
        assert Landed(deliveries, front) + [] == Landed(deliveries, front);
      }
    }
  }

  // ---- Overlapping deliveries of one order ----------------------------------------------------------------

  /** Whenever a delivery lands, all others under way are about the same reference. */
  predicate OneOrderAtATime(deliveries: seq<Delivery>, events: seq<Event>) {
    events == [] ||
      var front, last := events[..|events| - 1], events[|events| - 1];
      && OneOrderAtATime(deliveries, front)
      && (last.Lands? && last.k in Underway(|deliveries|, front) ==>
            forall j | j in Underway(|deliveries|, front) :: deliveries[j].reference == deliveries[last.k].reference)
  }

  /** A copy that misses at most reports about its own reference, or the settlement. */
  predicate UpToDate(a: Stored, copy: Stored, d: Delivery) {
    && ReadFrom(a, copy) && (copy.status == BookingRecords.Pending ==> d.wait.stale)
    && (!IsSettled(a) ==> SameElsewhere(a.orders, copy.orders, d.reference))
  }

  predicate AllUpToDate(r: Race, deliveries: seq<Delivery>)
    requires forall k | k in r.copies :: k < |deliveries|
  {
    forall k | k in r.copies :: UpToDate(r.attempt, r.copies[k], deliveries[k])
  }

  lemma {:induction false} OpenAttemptSettles(t: Stored, d: Delivery)
    requires !IsSettled(t) && PastWait(t, d)
    ensures var after := Deliver(t, d);
      SameRooms(after.orders, t.orders) && SameElsewhere(after.orders, t.orders, d.reference)
      && after.rows == t.rows && after.notes == t.notes
      && (after.status == BookingRecords.Pending ==> t.status == BookingRecords.Pending)
  {
  }

  lemma {:induction false} LandsUpToDate(a: Stored, copy: Stored, d: Delivery)
    requires UpToDate(a, copy, d) && PastWait(a, d)
    ensures var t, after := Land(a, copy, d), Deliver(a, d);
      t == after.(notes := t.notes) && a.notes <= t.notes <= after.notes
  {
    LandsAsDeliveredIff(a, copy, d);
    if !IsSettled(copy) && IsSettled(a) {
      SettledSince(a, copy, d);
    } else if !IsSettled(a) {
      OpenAttemptSettles(a, d);
    }
  }

  lemma {:induction false} StaysUpToDate(a: Stored, copy: Stored, d: Delivery, e: Delivery, t: Stored)
    requires UpToDate(a, copy, d) && PastWait(a, e) && e.reference == d.reference
    requires t == Deliver(a, e).(notes := t.notes)
    ensures UpToDate(t, copy, d)
  {
    if !IsSettled(a) {
      OpenAttemptSettles(a, e);
    }
  }

  /** Notes do not change what a delivery does otherwise. */
  lemma {:induction false} NotesAside(a: Stored, b: Stored, d: Delivery)
    requires a == b.(notes := a.notes) && a.notes <= b.notes
    ensures var after, other := Deliver(a, d), Deliver(b, d);
      after == other.(notes := after.notes) && after.notes <= other.notes
  {
  }

  lemma {:induction false} RaceStep(a: Stored, deliveries: seq<Delivery>, events: seq<Event>)
    requires events != [] && PastLiveWait(a, SetOf(deliveries)) && OneOrderAtATime(deliveries, events)
    requires var r := Run(a, deliveries, events[..|events| - 1]);
      AllUpToDate(r, deliveries) && (r.attempt.status == BookingRecords.Pending ==> a.status == BookingRecords.Pending)
    ensures var r := Run(a, deliveries, events);
      AllUpToDate(r, deliveries) && (r.attempt.status == BookingRecords.Pending ==> a.status == BookingRecords.Pending)
  {
    var front, last := events[..|events| - 1], events[|events| - 1];
    var r, t := Run(a, deliveries, front), Run(a, deliveries, events);
    forall k | 0 <= k < |deliveries| ensures PastWait(r.attempt, deliveries[k]) {
      assert deliveries[k] in SetOf(deliveries);
    }
    if last.Lands? && last.k in r.copies {
      var d := deliveries[last.k];
      LandsUpToDate(r.attempt, r.copies[last.k], d);
      forall k | k in t.copies ensures UpToDate(t.attempt, t.copies[k], deliveries[k]) {
        StaysUpToDate(r.attempt, r.copies[k], deliveries[k], d, t.attempt);
      }
      if !IsSettled(r.attempt) { OpenAttemptSettles(r.attempt, d); }
    }
  }

  /**
   As long as only deliveries of one order overlap, a race ends like the same
   deliveries one after another, in the order they landed, but for notes it may miss.
   */
  lemma {:induction false} OneOrderRacesAreSerial(a: Stored, deliveries: seq<Delivery>, events: seq<Event>)
    requires PastLiveWait(a, SetOf(deliveries)) && OneOrderAtATime(deliveries, events)
    ensures var r, serial := Run(a, deliveries, events), DeliverAll(a, Landed(deliveries, events));
      && r.attempt == serial.(notes := r.attempt.notes) && a.notes <= r.attempt.notes <= serial.notes
      && AllUpToDate(r, deliveries)
      && (r.attempt.status == BookingRecords.Pending ==> a.status == BookingRecords.Pending)
  {
    if events != [] {
      var front, last := events[..|events| - 1], events[|events| - 1];
      OneOrderRacesAreSerial(a, deliveries, front);
      RaceStep(a, deliveries, events);
      var r := Run(a, deliveries, front);
      if last.Lands? && last.k in r.copies {
        var d := deliveries[last.k];
        assert d in SetOf(deliveries);
        LandsUpToDate(r.attempt, r.copies[last.k], d);
        NotesAside(r.attempt, DeliverAll(a, Landed(deliveries, front)), d);
        DeliverOneMore(a, Landed(deliveries, front), d);
      } else {
        assert Landed(deliveries, front) + [] == Landed(deliveries, front);
      }
    }
  }

  lemma {:induction false} LandedAreDeliveries(deliveries: seq<Delivery>, events: seq<Event>)
    ensures SetOf(Landed(deliveries, events)) <= SetOf(deliveries)
  {
    if events != [] {
      LandedAreDeliveries(deliveries, events[..|events| - 1]);
      forall d | d in Landed(deliveries, events) ensures d in deliveries {
        if d !in Landed(deliveries, events[..|events| - 1]) {
          assert d == deliveries[events[|events| - 1].k];
        } else {
          assert d in SetOf(Landed(deliveries, events[..|events| - 1]));
          assert d in SetOf(deliveries);
        }
      }
    }
  }

  /** If moreover the reports agree, the race ends as they say together. */
  lemma {:induction false} AgreeingRacesSettleAlike(a: Stored, deliveries: seq<Delivery>, events: seq<Event>)
    requires PastLiveWait(a, SetOf(deliveries)) && OneOrderAtATime(deliveries, events)
    requires Agree(a, SetOf(Landed(deliveries, events)))
    ensures Run(a, deliveries, events).attempt == Webhooks.Outcome(a, SetOf(Landed(deliveries, events)))
  {
    OneOrderRacesAreSerial(a, deliveries, events);
    LandedAreDeliveries(deliveries, events);
    AgreeingReportsSettleAlike(a, Landed(deliveries, events));
  }

  // ---- Lost reports ---------------------------------------------------------------------------------------

  /** Two deliveries that read before either lands. */
  function Overlapping(): seq<Event> {
    [Reads(0), Reads(1), Lands(0), Lands(1)]
  }

  lemma {:induction false} RunOverlapping(a: Stored, e: Delivery, d: Delivery)
    ensures Run(a, [e, d], Overlapping()).attempt == Land(Deliver(a, e), a, d)
  {
    var events := Overlapping();
    var two := [e, d];
    assert events[..3] == [Reads(0), Reads(1), Lands(0)] && events[..3][..2] == [Reads(0), Reads(1)];
    assert [Reads(0), Reads(1)][..1] == [Reads(0)] && [Reads(0)][..0] == [];
    assert Run(a, two, []) == Race(a, map[]);
    assert Run(a, two, [Reads(0)]) == Race(a, map[0 := a]);
    assert Run(a, two, [Reads(0), Reads(1)]) == Race(a, map[0 := a, 1 := a]);
    LandsAlone(a, e);
    assert Run(a, two, events[..3]).attempt == Deliver(a, e) && Run(a, two, events[..3]).copies[1] == a;
  }

  /**
   Two overlapping webhooks of an open attempt, both about orders it has. If the
   first to land settles it, the second is dropped, without a note even if it
   contradicts. Otherwise the attempt ends as if only the second had come: the first
   report is lost if and only if it is about another reference and told something new.
   */
  lemma {:induction false} OverlapLosesReportIff(a: Stored, e: Delivery, d: Delivery)
    requires !IsSettled(a) && PastLiveWait(a, {d, e}) && Concerns(d, a.orders) && Concerns(e, a.orders)
    ensures var once, t := Deliver(a, e), Run(a, [e, d], Overlapping()).attempt;
      if IsSettled(once) then t == once
      else t.orders == Deliver(a, d).orders && t.status == Deliver(a, d).status
           && (t == Deliver(once, d) <==> d.reference == e.reference || once.orders == a.orders)
  {
    var once := Deliver(a, e);
    assert d in {d, e} && e in {d, e};
    RunOverlapping(a, e, d);
    OpenAttemptSettles(a, e);
    if IsSettled(once) {
      SettledSince(once, a, d);
    } else {
      StoredFromCopy(once, a, d);
      ConcernedSettles(a, d);
      ConcernedSettles(a, e);
      LandsAsDeliveredIff(once, a, d);
      NewsElsewhere(a.orders, e, d);
    }
  }

  lemma {:induction false} NewsElsewhere(orders: seq<Order>, e: Delivery, d: Delivery)
    requires e.report != OtherStatus
    ensures var after := Reported(orders, e.reference, StateOf(e.report).value);
      SameElsewhere(after, orders, d.reference) <==> d.reference == e.reference || after == orders
  {
    var after := Reported(orders, e.reference, StateOf(e.report).value);
    if d.reference != e.reference && SameElsewhere(after, orders, d.reference) {
      assert forall i | 0 <= i < |orders| :: after[i] == orders[i];
    }
  }

  lemma {:induction false} OneOfTwo(a: Stored, d: Delivery, i: nat, orders: seq<Order>)
    requires a.status == BookingRecords.ManualCheck && a.rows == 2 == |a.orders| && i < 2
    requires a.orders[0].reference != a.orders[1].reference && d.reference == a.orders[i].reference && d.report == Completed
    requires orders == a.orders[i := a.orders[i].(status := OrderBooked)] && a.orders[1 - i].status != OrderFailed
    ensures Concerns(d, a.orders) && Deliver(a, d).orders == orders && Deliver(a, d).rows == 2
    ensures Deliver(a, d).status
         == if a.orders[1 - i].status == OrderBooked then BookingRecords.Success else BookingRecords.ManualCheck
  {
    assert Reported(a.orders, d.reference, OrderBooked) == orders;
    ConcernedSettles(a, d);
    LateSettlementIsAllOrNone(orders, 2);
    assert orders[1 - i] == a.orders[1 - i] && orders[i].status == OrderBooked;
  }

  /**
   Both rooms of an attempt are reported booked at the same time: it stays under
   manual check with the first room undecided again. One after the other they confirm it.
   */
  lemma {:induction false} ConfirmationCanBeLost(one: nat, other: nat, wait: LiveWait)
    requires one != other
    ensures var a := Stored(
        BookingRecords.ManualCheck, None, [Order(1, one, OrderPending), Order(2, other, OrderPending)], 2, 0);
      var e, d := Delivery(one, Completed, wait), Delivery(other, Completed, wait);
      var t := Run(a, [e, d], Overlapping()).attempt;
      && t.status == BookingRecords.ManualCheck
      && t.orders == [Order(1, one, OrderPending), Order(2, other, OrderBooked)]
      && DeliverAll(a, [e, d]).status == BookingRecords.Success
  {
    var a := Stored(
      BookingRecords.ManualCheck, None, [Order(1, one, OrderPending), Order(2, other, OrderPending)], 2, 0);
    var e, d := Delivery(one, Completed, wait), Delivery(other, Completed, wait);
    var first := [Order(1, one, OrderBooked), Order(2, other, OrderPending)];
    var second := [Order(1, one, OrderPending), Order(2, other, OrderBooked)];
    var both := [Order(1, one, OrderBooked), Order(2, other, OrderBooked)];
    OneOfTwo(a, e, 0, first);
    OneOfTwo(a, d, 1, second);
    OneOfTwo(Deliver(a, e), d, 1, both);
    TwoDeliveries(a, e, d);
    assert PastLiveWait(a, {d, e});
    OverlapLosesReportIff(a, e, d);
  }
}
