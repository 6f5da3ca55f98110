/**
 The ledger a booking run starts with: the allotments its stored candidates
 offer, less the rooms that attempts of the same plans already take.
 */
module PlanLedger {
  import opened Common
  import opened Ledger
  import opened Sorting
  import opened Planner
  import opened RateSelection
  import opened AllocationRun
  import opened AllocationTheorems

  datatype Offer = Offer(rateKey: RateKey, allotment: nat, planId: nat, candidate: nat)

  /** A stored attempt, one rate key per room; a manual booking has no candidate and so no plan. */
  datatype StoredAttempt = StoredAttempt(failed: bool, rateKeys: seq<RateKey>, planId: Option<nat>)

  // ---- The snapshot of offered rates ------------------------------------------------

  function OptionOffers(c: Candidate, options: seq<RateOption>): seq<Offer> {
    if options == [] then [] else
      var last := options[|options| - 1];
      OptionOffers(c, options[..|options| - 1]) + [Offer(last.rateKey, last.allotment, c.planId, c.id)]
  }

  function RoomOffers(c: Candidate, rooms: seq<RoomPlan>): seq<Offer> {
    if rooms == [] then [] else
      RoomOffers(c, rooms[..|rooms| - 1]) + OptionOffers(c, rooms[|rooms| - 1].options)
  }

  function Offers(candidates: seq<Candidate>): seq<Offer> {
    if candidates == [] then [] else
      var last := candidates[|candidates| - 1];
      Offers(candidates[..|candidates| - 1]) + RoomOffers(last, last.rooms)
  }

  /** A rate offered more than once keeps its last offer. */
  function LastOffers(offers: seq<Offer>): map<RateKey, Offer> {
    if offers == [] then map[] else
      var last := offers[|offers| - 1];
      LastOffers(offers[..|offers| - 1])[last.rateKey := last]
  }

  function ById(c: Candidate): seq<int> {
    [c.id]
  }

  function Snapshot(candidates: seq<Candidate>): map<RateKey, Offer> {
    LastOffers(Offers(Sort(ById, candidates)))
  }

  lemma {:induction false} LastOffersAppend(offers: seq<Offer>, o: Offer)
    ensures LastOffers(offers + [o]) == LastOffers(offers)[o.rateKey := o]
  {
    assert (offers + [o])[..|offers|] == offers;
  }

  method TakeSnapshot(candidates: seq<Candidate>) returns (snapshot: map<RateKey, Offer>)
    ensures snapshot == Snapshot(candidates)
  {
    var sorted := Sort(ById, candidates);
    snapshot := map[];
    for i := 0 to |sorted|
      invariant snapshot == LastOffers(Offers(sorted[..i]))
    {
      snapshot := AddCandidateOffers(snapshot, sorted[i], Offers(sorted[..i]));
      assert sorted[..i + 1][..i] == sorted[..i];
    }
    assert sorted[..|sorted|] == sorted;
  }

  method AddCandidateOffers(snapshot: map<RateKey, Offer>, c: Candidate, ghost before: seq<Offer>)
    returns (after: map<RateKey, Offer>)
    requires snapshot == LastOffers(before)
    ensures after == LastOffers(before + RoomOffers(c, c.rooms))
  {
    after := snapshot;
    assert before + RoomOffers(c, c.rooms[..0]) == before;
    for j := 0 to |c.rooms|
      invariant after == LastOffers(before + RoomOffers(c, c.rooms[..j]))
    {
      after := AddRoomOffers(after, c, c.rooms[j].options, before + RoomOffers(c, c.rooms[..j]));
      assert c.rooms[..j + 1][..j] == c.rooms[..j];
      assert before + RoomOffers(c, c.rooms[..j + 1])
          == before + RoomOffers(c, c.rooms[..j]) + OptionOffers(c, c.rooms[j].options);
    }
    assert c.rooms[..|c.rooms|] == c.rooms;
  }

  method AddRoomOffers(
    snapshot: map<RateKey, Offer>, c: Candidate, options: seq<RateOption>, ghost before: seq<Offer>)
    returns (after: map<RateKey, Offer>)
    requires snapshot == LastOffers(before)
    ensures after == LastOffers(before + OptionOffers(c, options))
  {
    after := snapshot;
    assert before + OptionOffers(c, options[..0]) == before;
    for n := 0 to |options|
      invariant after == LastOffers(before + OptionOffers(c, options[..n]))
    {
      var offer := Offer(options[n].rateKey, options[n].allotment, c.planId, c.id);
      after := after[offer.rateKey := offer];
      assert options[..n + 1][..n] == options[..n];
      LastOffersAppend(before + OptionOffers(c, options[..n]), offer);
      assert before + OptionOffers(c, options[..n + 1]) == before + OptionOffers(c, options[..n]) + [offer];
    }
    assert options[..|options|] == options;
  }

  // ---- The snapshot is the newest offer of each rate -----------------------------------

  predicate IsOffer(c: Candidate, o: Offer) {
    && o.planId == c.planId && o.candidate == c.id
    && exists plan | plan in c.rooms :: exists option | option in plan.options ::
         option.rateKey == o.rateKey && option.allotment == o.allotment
  }

  lemma {:induction false} OptionOffersAre(c: Candidate, options: seq<RateOption>, o: Offer)
    ensures o in OptionOffers(c, options) <==>
      o.planId == c.planId && o.candidate == c.id
      && exists option | option in options :: option.rateKey == o.rateKey && option.allotment == o.allotment
  {
    if options != [] {
      OptionOffersAre(c, options[..|options| - 1], o);
      assert options == options[..|options| - 1] + [options[|options| - 1]];
    }
  }

  lemma {:induction false} RoomOffersAre(c: Candidate, rooms: seq<RoomPlan>, o: Offer)
    ensures o in RoomOffers(c, rooms) <==>
      o.planId == c.planId && o.candidate == c.id
      && exists plan | plan in rooms :: exists option | option in plan.options ::
           option.rateKey == o.rateKey && option.allotment == o.allotment
  {
    if rooms != [] {
      RoomOffersAre(c, rooms[..|rooms| - 1], o);
      OptionOffersAre(c, rooms[|rooms| - 1].options, o);
      assert rooms == rooms[..|rooms| - 1] + [rooms[|rooms| - 1]];
    }
  }

  lemma {:induction false} OffersAre(candidates: seq<Candidate>, o: Offer)
    ensures o in Offers(candidates) <==> exists c | c in candidates :: IsOffer(c, o)
  {
    if candidates != [] {
      var last := candidates[|candidates| - 1];
      OffersAre(candidates[..|candidates| - 1], o);
      RoomOffersAre(last, last.rooms, o);
      assert o in RoomOffers(last, last.rooms) <==> IsOffer(last, o);
      forall c
        ensures c in candidates <==> c in candidates[..|candidates| - 1] || c == last
      {
        assert candidates == candidates[..|candidates| - 1] + [last];
      }
    }
  }

  predicate Ordered(offers: seq<Offer>) {
    forall i, j | 0 <= i < j < |offers| :: offers[i].candidate <= offers[j].candidate
  }

  lemma {:induction false} OffersAreOrdered(candidates: seq<Candidate>)
    requires SortedBy(ById, candidates)
    ensures Ordered(Offers(candidates))
  {
    if candidates != [] {
      var front, last := candidates[..|candidates| - 1], candidates[|candidates| - 1];
      OffersAreOrdered(front);
      forall o | o in Offers(front)
        ensures o.candidate <= last.id
      {
        OffersAre(front, o);
        var c :| c in front && IsOffer(c, o);
        var i :| 0 <= i < |front| && front[i] == c;
        assert LexLeq(ById(candidates[i]), ById(last));
      }
      forall o | o in RoomOffers(last, last.rooms)
        ensures o.candidate == last.id
      {
        RoomOffersAre(last, last.rooms, o);
      }
    }
  }

  lemma {:induction false} LastIsNewest(offers: seq<Offer>)
    requires Ordered(offers) && offers != []
    ensures Ordered(offers[..|offers| - 1])
    ensures forall o | o in offers :: o.candidate <= offers[|offers| - 1].candidate
    ensures forall o :: o in offers <==> o in offers[..|offers| - 1] || o == offers[|offers| - 1]
  {
    assert offers == offers[..|offers| - 1] + [offers[|offers| - 1]];
  }

  lemma {:induction false} LastOffersWin(offers: seq<Offer>, k: RateKey)
    requires Ordered(offers)
    ensures k in LastOffers(offers) <==> exists o | o in offers :: o.rateKey == k
    ensures k in LastOffers(offers) ==>
      && LastOffers(offers)[k] in offers && LastOffers(offers)[k].rateKey == k
      && forall o | o in offers && o.rateKey == k :: o.candidate <= LastOffers(offers)[k].candidate
  {
    if offers != [] {
      LastIsNewest(offers);
      LastOffersWin(offers[..|offers| - 1], k);
    }
  }

  /** The snapshot has exactly the offered rates, each as its newest candidate offers it. */
  lemma {:induction false} SnapshotIsNewest(candidates: seq<Candidate>, k: RateKey)
    ensures k in Snapshot(candidates) <==> exists c | c in candidates :: k in OfferedKeys(c)
    ensures k in Snapshot(candidates) ==>
      exists c | c in candidates ::
        && IsOffer(c, Snapshot(candidates)[k])
        && forall other | other in candidates && k in OfferedKeys(other) :: other.id <= c.id
  {
    var sorted := Sort(ById, candidates);
    SortIsSortedPermutation(ById, candidates);
    SortKeepsElements(ById, candidates);
    OffersAreOrdered(sorted);
    LastOffersWin(Offers(sorted), k);
    forall c | c in sorted && k in OfferedKeys(c)
      ensures k in Snapshot(candidates) && c.id <= Snapshot(candidates)[k].candidate
    {
      var plan, option :| plan in c.rooms && option in plan.options && option.rateKey == k;
      OffersAre(sorted, Offer(k, option.allotment, c.planId, c.id));
    }
    if k in Snapshot(candidates) {
      OffersAre(sorted, Snapshot(candidates)[k]);
    }
  }

  function OfferedKeys(c: Candidate): set<RateKey> {
    set plan, option | plan in c.rooms && option in plan.options :: option.rateKey
  }

  // ---- Rooms already taken ---------------------------------------------------------------

  function Occurrences(keys: seq<RateKey>, k: RateKey): nat {
    if keys == [] then 0 else
      Occurrences(keys[..|keys| - 1], k) + if keys[|keys| - 1] == k then 1 else 0
  }

  /** Rooms on this rate of live attempts that belong to this plan. */
  function LiveRooms(attempts: seq<StoredAttempt>, k: RateKey, planId: Option<nat>): nat {
    if attempts == [] then 0 else
      var last := attempts[|attempts| - 1];
      LiveRooms(attempts[..|attempts| - 1], k, planId)
        + if !last.failed && last.planId == planId then Occurrences(last.rateKeys, k) else 0
  }

  /** The rooms, by attempt and position, that live attempts of this plan have on this rate. */
  function Taken(attempts: seq<StoredAttempt>, k: RateKey, planId: Option<nat>): set<(nat, nat)> {
    set a: nat, r: nat | a < |attempts| && r < |attempts[a].rateKeys|
      && !attempts[a].failed && attempts[a].planId == planId && attempts[a].rateKeys[r] == k :: (a, r)
  }

  function Positions(keys: seq<RateKey>, k: RateKey): set<nat> {
    set r: nat | r < |keys| && keys[r] == k
  }

  lemma {:induction false} OccurrencesAre(keys: seq<RateKey>, k: RateKey)
    ensures Occurrences(keys, k) == |Positions(keys, k)|
  {
    if keys != [] {
      var n := |keys| - 1;
      OccurrencesAre(keys[..n], k);
      assert Positions(keys, k) == Positions(keys[..n], k) + if keys[n] == k then {n} else {};
    }
  }

  function Pairs(a: nat, rs: set<nat>): set<(nat, nat)> {
    set r | r in rs :: (a, r)
  }

  lemma {:induction false} PairsCount(a: nat, rs: set<nat>)
    ensures |Pairs(a, rs)| == |rs|
  {
    if rs != {} {
      var r :| r in rs;
      PairsCount(a, rs - {r});
      assert Pairs(a, rs) == Pairs(a, rs - {r}) + {(a, r)};
    }
  }

  /** Live rooms are counted one by one: each room of a live attempt of the plan on the rate, and no other. */
  lemma {:induction false} LiveRoomsAre(attempts: seq<StoredAttempt>, k: RateKey, planId: Option<nat>)
    ensures LiveRooms(attempts, k, planId) == |Taken(attempts, k, planId)|
  {
    if attempts != [] {
      var n, last := |attempts| - 1, attempts[|attempts| - 1];
      LiveRoomsAre(attempts[..n], k, planId);
      OccurrencesAre(last.rateKeys, k);
      PairsCount(n, Positions(last.rateKeys, k));
      TakenByLast(attempts, k, planId);
    }
  }

  lemma {:induction false} TakenByLast(attempts: seq<StoredAttempt>, k: RateKey, planId: Option<nat>)
    requires attempts != []
    ensures var n, last := |attempts| - 1, attempts[|attempts| - 1];
      var more := if !last.failed && last.planId == planId then Pairs(n, Positions(last.rateKeys, k)) else {};
      |Taken(attempts, k, planId)| == |Taken(attempts[..n], k, planId)| + |more|
  {
    var n, last := |attempts| - 1, attempts[|attempts| - 1];
    var before := Taken(attempts[..n], k, planId);
    var more := if !last.failed && last.planId == planId then Pairs(n, Positions(last.rateKeys, k)) else {};
    assert Taken(attempts, k, planId) == before + more;
    assert before !! more;
  }

  function PlanOf(snapshot: map<RateKey, Offer>, k: RateKey): Option<nat> {
    if k in snapshot then Some(snapshot[k].planId) else None
  }

  function Left(remaining: map<RateKey, int>, k: RateKey): int {
    if k in remaining then remaining[k] else 0
  }

  function Allotted(snapshot: map<RateKey, Offer>, k: RateKey): nat {
    if k in snapshot then snapshot[k].allotment else 0
  }

  ghost predicate LeftAfter(
    remaining: map<RateKey, int>, snapshot: map<RateKey, Offer>, attempts: seq<StoredAttempt>)
  {
    forall k: RateKey ::
      Left(remaining, k) == Allotted(snapshot, k) - LiveRooms(attempts, k, PlanOf(snapshot, k))
  }

  method DeductAttempt(
    remaining: map<RateKey, int>, snapshot: map<RateKey, Offer>, attempt: StoredAttempt)
    returns (after: map<RateKey, int>)
    requires !attempt.failed
    ensures forall k: RateKey :: Left(after, k) == Left(remaining, k)
              - if attempt.planId == PlanOf(snapshot, k) then Occurrences(attempt.rateKeys, k) else 0
  {
    after := remaining;
    for n := 0 to |attempt.rateKeys|
      invariant forall k: RateKey :: Left(after, k) == Left(remaining, k)
                  - if attempt.planId == PlanOf(snapshot, k) then Occurrences(attempt.rateKeys[..n], k) else 0
    {
      assert attempt.rateKeys[..n + 1][..n] == attempt.rateKeys[..n];
      var k := attempt.rateKeys[n];
      if PlanOf(snapshot, k) == attempt.planId {
        after := after[k := Left(after, k) - 1];
      }
    }
    assert attempt.rateKeys[..|attempt.rateKeys|] == attempt.rateKeys;
  }

  /** Allotment less live rooms, never below zero; a rate nobody offers has no rooms. */
  function StartingRooms(candidates: seq<Candidate>, attempts: seq<StoredAttempt>, k: RateKey): nat {
    var snapshot := Snapshot(candidates);
    Max(0, Allotted(snapshot, k) - LiveRooms(attempts, k, PlanOf(snapshot, k)))
  }

  method BuildPlanLedger(candidates: seq<Candidate>, attempts: seq<StoredAttempt>) returns (ledger: AllotmentLedger)
    ensures fresh(ledger) && ledger.Valid() && ledger.handedOut == []
    ensures forall k: RateKey :: Available(ledger.remaining, k) == StartingRooms(candidates, attempts, k)
  {
    var snapshot := TakeSnapshot(candidates);
    var remaining: map<RateKey, int> := map k | k in snapshot :: snapshot[k].allotment;
    for i := 0 to |attempts|
      invariant LeftAfter(remaining, snapshot, attempts[..i])
    {
      assert attempts[..i + 1][..i] == attempts[..i];
      if attempts[i].failed {
        continue;
      }
      remaining := DeductAttempt(remaining, snapshot, attempts[i]);
    }
    assert attempts[..|attempts|] == attempts;
    ledger := new AllotmentLedger(remaining);
  }

  /** A rate starts with what its newest offer allots less the rooms taken of that offer's plan; without an offer with none. */
  lemma {:induction false} StartingRoomsAre(candidates: seq<Candidate>, attempts: seq<StoredAttempt>, k: RateKey)
    ensures var snapshot, start := Snapshot(candidates), StartingRooms(candidates, attempts, k);
      && (k in snapshot ==>
            start == Max(0, snapshot[k].allotment - |Taken(attempts, k, Some(snapshot[k].planId))|))
      && (k !in snapshot ==> start == 0)
  {
    LiveRoomsAre(attempts, k, PlanOf(Snapshot(candidates), k));
  }

  /**
   From the stored plans to the supplier: however the workers of a run interleave,
   when they book rooms of a rate, those rooms and the rooms that live attempts of
   the same plan already hold stay within the rate's allotment.
   */
  lemma {:induction false} AllotmentIsNotExceeded(
    candidates: seq<Candidate>, attempts: seq<StoredAttempt>, start: Run, stock: Stock, steps: seq<Step>, k: RateKey)
    requires Fresh(start, stock) && forall key: RateKey :: Available(stock, key) == StartingRooms(candidates, attempts, key)
    ensures var snapshot, booked := Snapshot(candidates), BookedRooms(Exec(start, steps).booked, k);
      booked > 0 ==>
        k in snapshot && booked + LiveRooms(attempts, k, Some(snapshot[k].planId)) <= snapshot[k].allotment
  {
    NoOverbooking(start, stock, steps, k);
  }
}
