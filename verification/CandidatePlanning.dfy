/**
 Ranked candidate hotels of one PNR, and the party they preserve from the split
 rule down to the rooms sent to the supplier.
 */
module CandidatePlanning {
  import opened Common
  import opened Rooms
  import opened Ledger
  import opened Planner
  import opened RateSelection
  import opened Sorting

  /** How the locale orders rate keys and hotel codes; it only breaks ties. */
  datatype Collation = Collation(rate: RateKey -> int, hotel: HotelCode -> int)

  /** Rate keys of the supply pool, per room type. */
  type Pools = map<Shape, set<RateKey>>

  function InPool(pools: Pools, shape: Shape, k: RateKey): bool {
    shape in pools && k in pools[shape]
  }

  function Flag(b: bool): int {
    if b then 0 else 1
  }

  function RateRank(pools: Pools, shape: Shape, c: Collation): Rate -> seq<int> {
    (r: Rate) => [
      Flag(InPool(pools, shape, r.rateKey)),
      Flag(RateShape(r) == shape),
      r.adults + r.children - (shape.adults + shape.children),
      r.netPrice,
      c.rate(r.rateKey)]
  }

  function RatesFor(rates: seq<Rate>, shape: Shape, pools: Pools, c: Collation): seq<Rate> {
    Sort(RateRank(pools, shape, c), Filter(r => HasAllotment(r) && Covering(r.adults, r.children, shape), rates))
  }

  function OptionOf(r: Rate, inPool: bool, orderRooms: Option<nat>): RateOption {
    RateOption(r.rateKey, r.adults, r.children, r.netPrice, Max(0, FreeOf(r)), inPool, orderRooms)
  }

  function RoomPlanFor(rates: seq<Rate>, need: RoomNeed, pools: Pools, c: Collation): RoomPlan {
    var sorted := RatesFor(rates, need.shape, pools, c);
    RoomPlan(need.shape, need.roomsNeeded,
      seq(|sorted|, i requires 0 <= i < |sorted| =>
        OptionOf(sorted[i], InPool(pools, need.shape, sorted[i].rateKey), None)))
  }

  function RoomPlansFor(rates: seq<Rate>, needs: seq<RoomNeed>, pools: Pools, c: Collation): seq<RoomPlan> {
    seq(|needs|, i requires 0 <= i < |needs| => RoomPlanFor(rates, needs[i], pools, c))
  }

  function OptionsStock(options: seq<RateOption>): Stock {
    if options == [] then map[] else
      OptionsStock(options[..|options| - 1])[options[|options| - 1].rateKey := options[|options| - 1].allotment]
  }

  /** Allotments of all options, as at search time. */
  function SnapshotStock(rooms: seq<RoomPlan>): Stock {
    if rooms == [] then map[] else SnapshotStock(rooms[..|rooms| - 1]) + OptionsStock(rooms[|rooms| - 1].options)
  }

  function PicksPrice(picks: seq<Pick>): int {
    if picks == [] then 0 else picks[0].netPrice * picks[0].roomsNeeded + PicksPrice(picks[1..])
  }

  function BuildCandidate(hotel: Hotel, needs: seq<RoomNeed>, pools: Pools, c: Collation): Option<Candidate> {
    var rooms := RoomPlansFor(hotel.rates, needs, pools, c);
    match SelectRates(rooms, SnapshotStock(rooms), {})
    case None => None
    case Some(picks) =>
      Some(Candidate(0, 0, hotel.code, hotel.stars, hotel.radius, PicksPrice(picks),
                     exists pick | pick in picks :: !pick.inPool, rooms))
  }

  /** The whole order at one price: every room plan offers the same order rates. */
  function BuildOrderCandidate(hotel: Hotel, rooms: seq<Shape>, c: Collation): Option<Candidate> {
    var rates := Sort((r: Rate) => [r.netPrice, c.rate(r.rateKey)], Filter(r => IsOrderRate(r, rooms), hotel.rates));
    if rates == [] then None else
      var options := seq(|rates|, i requires 0 <= i < |rates| => OptionOf(rates[i], true, Some(|rooms|)));
      var needs := RoomNeeds(rooms);
      Some(Candidate(0, 0, hotel.code, hotel.stars, hotel.radius, rates[0].netPrice, false,
        seq(|needs|, i requires 0 <= i < |needs| => RoomPlan(needs[i].shape, needs[i].roomsNeeded, options))))
  }

  /** Stars first, then price, then the nearest ring, then the supply pool. */
  function CandidateRank(c: Collation): Candidate -> seq<int> {
    (x: Candidate) => [-x.stars, x.estimatedPrice, x.radius, Flag(!x.overflow), c.hotel(x.hotelCode)]
  }

  function Eligible(hotels: seq<Hotel>, minStars: int, build: Hotel -> Option<Candidate>): seq<Candidate> {
    if hotels == [] then [] else
      var front := Eligible(hotels[..|hotels| - 1], minStars, build);
      var hotel := hotels[|hotels| - 1];
      if hotel.stars >= minStars && build(hotel).Some? then front + [build(hotel).value] else front
  }

  function CandidatePlans(hotels: seq<Hotel>, needs: seq<RoomNeed>, pools: Pools, minStars: int, c: Collation): seq<Candidate> {
    Sort(CandidateRank(c), Eligible(hotels, minStars, h => BuildCandidate(h, needs, pools, c)))
  }

  function OrderCandidatePlans(hotels: seq<Hotel>, rooms: seq<Shape>, minStars: int, c: Collation): seq<Candidate> {
    Sort(CandidateRank(c), Eligible(hotels, minStars, h => BuildOrderCandidate(h, rooms, c)))
  }

  method BuildCandidatePlan(hotels: seq<Hotel>, needs: seq<RoomNeed>, pools: Pools, minStars: int, c: Collation)
    returns (candidates: seq<Candidate>)
    ensures candidates == CandidatePlans(hotels, needs, pools, minStars, c)
  {
    candidates := [];
    ghost var build := h => BuildCandidate(h, needs, pools, c);
    for i := 0 to |hotels|
      invariant candidates == Eligible(hotels[..i], minStars, build)
    {
      assert hotels[..i + 1][..i] == hotels[..i];
      if hotels[i].stars < minStars {
        continue;
      }
      var candidate := BuildCandidate(hotels[i], needs, pools, c);
      if candidate.None? {
        continue;
      }
      candidates := candidates + [candidate.value];
    }
    assert hotels[..|hotels|] == hotels;
    candidates := Sort(CandidateRank(c), candidates);
  }

  // ---- Ranking ------------------------------------------------------------------

  /** Exactly the hotels that meet the minimum and can be built into a candidate. */
  lemma {:induction false} EligibleAre(hotels: seq<Hotel>, minStars: int, build: Hotel -> Option<Candidate>, x: Candidate)
    ensures x in Eligible(hotels, minStars, build) <==>
            exists h | h in hotels :: h.stars >= minStars && build(h) == Some(x)
  {
    if hotels != [] {
      var front, last := hotels[..|hotels| - 1], hotels[|hotels| - 1];
      EligibleAre(front, minStars, build, x);
      assert forall h :: h in hotels <==> h in front || h == last;
    }
  }

  /** A candidate comes from a hotel of the search that meets the class minimum. */
  lemma {:induction false} CandidateComesFromHotel(
    hotels: seq<Hotel>, needs: seq<RoomNeed>, pools: Pools, minStars: int, c: Collation, x: Candidate) returns (hotel: Hotel)
    requires x in CandidatePlans(hotels, needs, pools, minStars, c)
    ensures hotel in hotels && hotel.stars >= minStars && BuildCandidate(hotel, needs, pools, c) == Some(x)
  {
    var build := h => BuildCandidate(h, needs, pools, c);
    SortKeepsElements(CandidateRank(c), Eligible(hotels, minStars, build));
    EligibleAre(hotels, minStars, build, x);
    hotel :| hotel in hotels && hotel.stars >= minStars && build(hotel) == Some(x);
  }

  lemma {:induction false} RankComparesStarsThenPrice(c: Collation, x: Candidate, y: Candidate)
    requires LexLeq(CandidateRank(c)(x), CandidateRank(c)(y))
    ensures x.stars >= y.stars && (x.stars == y.stars ==> x.estimatedPrice <= y.estimatedPrice)
  {
    var a, b := CandidateRank(c)(x), CandidateRank(c)(y);
    assert LexLeq(a[1..], b[1..]) ==> a[1] <= b[1];
  }

  /**
   Exactly the hotels that meet the class minimum and can host the rooms are
   candidates, best stars first, cheapest first within the same stars.
   */
  lemma {:induction false} CandidatesAreRanked(
    hotels: seq<Hotel>, needs: seq<RoomNeed>, pools: Pools, minStars: int, c: Collation, plans: seq<Candidate>)
    requires plans == CandidatePlans(hotels, needs, pools, minStars, c)
    ensures forall x :: x in plans <==>
              exists h | h in hotels :: h.stars >= minStars && BuildCandidate(h, needs, pools, c) == Some(x)
    ensures forall i, j | 0 <= i < j < |plans| ::
              plans[i].stars >= plans[j].stars
              && (plans[i].stars == plans[j].stars ==> plans[i].estimatedPrice <= plans[j].estimatedPrice)
  {
    var build := h => BuildCandidate(h, needs, pools, c);
    var eligible := Eligible(hotels, minStars, build);
    SortKeepsElements(CandidateRank(c), eligible);
    SortIsSortedPermutation(CandidateRank(c), eligible);
    forall x: Candidate
      ensures x in plans <==> exists h | h in hotels :: h.stars >= minStars && build(h) == Some(x)
    {
      EligibleAre(hotels, minStars, build, x);
    }
    forall i, j | 0 <= i < j < |plans|
      ensures plans[i].stars >= plans[j].stars
              && (plans[i].stars == plans[j].stars ==> plans[i].estimatedPrice <= plans[j].estimatedPrice)
    {
      RankComparesStarsThenPrice(c, plans[i], plans[j]);
    }
  }

  // ---- The party is preserved ---------------------------------------------------------

  datatype SentRoom = SentRoom(rateKey: RateKey, shape: Shape)

  function Copies(room: SentRoom, n: nat): seq<SentRoom> {
    if n == 0 then [] else [room] + Copies(room, n - 1)
  }

  /** The rooms a selection sends to the supplier, one entry per room. */
  function RoomsSent(picks: seq<Pick>): seq<SentRoom> {
    if picks == [] then []
    else Copies(SentRoom(picks[0].rateKey, picks[0].shape), picks[0].roomsNeeded) + RoomsSent(picks[1..])
  }

  function Shapes(rooms: seq<SentRoom>): seq<Shape> {
    seq(|rooms|, i requires 0 <= i < |rooms| => rooms[i].shape)
  }

  lemma {:induction false} ShapesOfConcat(a: seq<SentRoom>, b: seq<SentRoom>)
    ensures Shapes(a + b) == Shapes(a) + Shapes(b)
  {
  }

  lemma {:induction false} ShapesOfCopies(room: SentRoom, n: nat)
    ensures Shapes(Copies(room, n)) == Replicate(room.shape, n)
  {
    if n > 0 {
      ShapesOfCopies(room, n - 1);
      ShapesOfConcat([room], Copies(room, n - 1));
      assert Shapes([room]) == [room.shape];
    }
  }

  lemma {:induction false} SentShapesAreExpandedNeeds(picks: seq<Pick>, needs: seq<RoomNeed>)
    requires |picks| == |needs|
    requires forall i | 0 <= i < |needs| ::
               picks[i].shape == needs[i].shape && picks[i].roomsNeeded == needs[i].roomsNeeded
    ensures Shapes(RoomsSent(picks)) == Expand(needs)
  {
    if picks != [] {
      var room := SentRoom(picks[0].rateKey, picks[0].shape);
      ShapesOfCopies(room, picks[0].roomsNeeded);
      SentShapesAreExpandedNeeds(picks[1..], needs[1..]);
      ShapesOfConcat(Copies(room, picks[0].roomsNeeded), RoomsSent(picks[1..]));
    }
  }

  lemma {:induction false} SumsOfConcat(a: seq<Shape>, b: seq<Shape>)
    ensures SumAdults(a + b) == SumAdults(a) + SumAdults(b)
    ensures SumChildren(a + b) == SumChildren(a) + SumChildren(b)
  {
    if a == [] {
      assert a + b == b;
    } else {
      assert (a + b)[1..] == a[1..] + b;
      SumsOfConcat(a[1..], b);
    }
  }

  lemma {:induction false} TakeOut(rooms: seq<Shape>, i: nat)
    requires i < |rooms|
    ensures var rest := rooms[..i] + rooms[i + 1..];
      && SumAdults(rooms) == rooms[i].adults + SumAdults(rest)
      && SumChildren(rooms) == rooms[i].children + SumChildren(rest)
      && multiset(rooms) == multiset(rest) + multiset{rooms[i]}
  {
    var front, back := rooms[..i], rooms[i + 1..];
    assert rooms == front + ([rooms[i]] + back);
    SumsOfConcat(front, back);
    SumsOfConcat(front, [rooms[i]] + back);
    assert ([rooms[i]] + back)[1..] == back;
  }

  /** The party a list of rooms holds does not depend on their order. */
  lemma {:induction false} SumsIgnoreOrder(a: seq<Shape>, b: seq<Shape>)
    requires multiset(a) == multiset(b)
    ensures SumAdults(a) == SumAdults(b) && SumChildren(a) == SumChildren(b)
  {
    if a == [] {
      assert |multiset(b)| == 0;
    } else {
      assert a == [a[0]] + a[1..];
      assert a[0] in multiset(b);
      var i :| 0 <= i < |b| && b[i] == a[0];
      TakeOut(b, i);
      assert multiset(a[1..]) == multiset(b) - multiset{a[0]};
      SumsIgnoreOrder(a[1..], b[..i] + b[i + 1..]);
    }
  }

  lemma {:induction false} SameRoomsSameSplit(adults: int, children: int, rooms: seq<Shape>, sent: seq<Shape>)
    requires ValidateSplit(adults, children, rooms) && multiset(sent) == multiset(rooms)
    ensures ValidateSplit(adults, children, sent)
  {
    SumsIgnoreOrder(sent, rooms);
    forall room | room in sent
      ensures room in rooms
    {
      assert room in multiset(rooms);
    }
  }

  lemma {:induction false} ExpandedPicksAreTheSplit(rooms: seq<Shape>, picks: seq<Pick>)
    requires |picks| == |RoomNeeds(rooms)|
    requires forall i | 0 <= i < |picks| ::
               picks[i].shape == RoomNeeds(rooms)[i].shape && picks[i].roomsNeeded == RoomNeeds(rooms)[i].roomsNeeded
    ensures multiset(Shapes(RoomsSent(picks))) == multiset(rooms)
  {
    SentShapesAreExpandedNeeds(picks, RoomNeeds(rooms));
    ExpandRoomNeeds(rooms);
  }

  /** A hotel offers this rate for at least this room. */
  predicate RateHolds(hotel: Hotel, k: RateKey, shape: Shape) {
    exists r | r in hotel.rates :: r.rateKey == k && Covering(r.adults, r.children, shape) && HasAllotment(r)
  }

  lemma {:induction false} OptionsHoldTheRoom(hotel: Hotel, need: RoomNeed, pools: Pools, c: Collation, k: RateKey)
    requires OffersKey(RoomPlanFor(hotel.rates, need, pools, c), k)
    ensures RateHolds(hotel, k, need.shape)
  {
    var plan := RoomPlanFor(hotel.rates, need, pools, c);
    var sorted := RatesFor(hotel.rates, need.shape, pools, c);
    var o :| o in plan.options && o.rateKey == k;
    var i :| 0 <= i < |plan.options| && plan.options[i] == o;
    SortKeepsElements(RateRank(pools, need.shape, c),
      Filter(r => HasAllotment(r) && Covering(r.adults, r.children, need.shape), hotel.rates));
    assert sorted[i] in sorted;
  }

  lemma {:induction false} CandidatePicks(
    hotel: Hotel, needs: seq<RoomNeed>, pools: Pools, c: Collation, x: Candidate,
    stock: Stock, excluded: set<RateKey>, picks: seq<Pick>)
    requires BuildCandidate(hotel, needs, pools, c) == Some(x) && SelectRates(x.rooms, stock, excluded) == Some(picks)
    ensures |picks| == |needs|
    ensures forall i | 0 <= i < |needs| ::
              picks[i].shape == needs[i].shape && picks[i].roomsNeeded == needs[i].roomsNeeded
              && RateHolds(hotel, picks[i].rateKey, picks[i].shape)
  {
    PicksMatchRooms(x.rooms, stock, excluded);
    assert x.rooms == RoomPlansFor(hotel.rates, needs, pools, c);
    forall i | 0 <= i < |needs|
      ensures picks[i].shape == needs[i].shape && picks[i].roomsNeeded == needs[i].roomsNeeded
      ensures RateHolds(hotel, picks[i].rateKey, picks[i].shape)
    {
      assert x.rooms[i] == RoomPlanFor(hotel.rates, needs[i], pools, c);
      OptionsHoldTheRoom(hotel, needs[i], pools, c, picks[i].rateKey);
    }
  }

  /**
   From the chosen split to the supplier: for every valid split of a party, every
   candidate planned for it and every selection of that candidate's rates, the
   rooms sent are exactly the split's rooms. They hold the whole party with an
   adult in each, and every rate holds its room.
   */
  lemma {:induction false} PartyIsPreserved(
    adults: int, children: int, rooms: seq<Shape>,
    hotels: seq<Hotel>, pools: Pools, minStars: int, c: Collation, x: Candidate,
    stock: Stock, excluded: set<RateKey>, picks: seq<Pick>)
    requires ValidateSplit(adults, children, rooms)
    requires x in CandidatePlans(hotels, RoomNeeds(rooms), pools, minStars, c)
    requires SelectRates(x.rooms, stock, excluded) == Some(picks)
    ensures multiset(Shapes(RoomsSent(picks))) == multiset(rooms)
    ensures ValidateSplit(adults, children, Shapes(RoomsSent(picks)))
    ensures exists hotel | hotel in hotels ::
              hotel.stars >= minStars
              && forall i | 0 <= i < |picks| :: RateHolds(hotel, picks[i].rateKey, picks[i].shape)
  {
    var needs := RoomNeeds(rooms);
    var hotel := CandidateComesFromHotel(hotels, needs, pools, minStars, c, x);
    CandidatePicks(hotel, needs, pools, c, x, stock, excluded, picks);
    ExpandedPicksAreTheSplit(rooms, picks);
    SameRoomsSameSplit(adults, children, rooms, Shapes(RoomsSent(picks)));
  }

  /** In particular the rooms a run sends for a party with a configured rule hold exactly that party. */
  lemma {:induction false} RuleRoomsAreValid(adults: int, children: int, plan: SplitPlan, rooms: seq<Shape>)
    requires ResolveRoomSplitPlan(adults, children) == Split(plan) && (rooms == plan.preferred || rooms in plan.fallbacks)
    ensures ValidateSplit(adults, children, rooms)
  {
    var rule := SplitRule(adults, children).value;
    RulesAreUsedAsConfigured(adults, children, rule);
  }

  lemma {:induction false} OrderPickRate(
    hotel: Hotel, rooms: seq<Shape>, c: Collation, x: Candidate, stock: Stock, excluded: set<RateKey>, picks: seq<Pick>)
    returns (rate: Rate)
    requires BuildOrderCandidate(hotel, rooms, c) == Some(x)
    requires SelectRates(x.rooms, stock, excluded) == Some(picks) && rooms != []
    ensures rate in hotel.rates && IsOrderRate(rate, rooms)
    ensures forall i | 0 <= i < |picks| :: picks[i].rateKey == rate.rateKey
  {
    var key := (r: Rate) => [r.netPrice, c.rate(r.rateKey)];
    var kept := Filter(r => IsOrderRate(r, rooms), hotel.rates);
    var rates := Sort(key, kept);
    SortKeepsElements(key, kept);
    assert x.rooms != [] && x.rooms[0].options[0].orderRooms == Some(|rooms|);
    assert x.rooms[0].options[0] in x.rooms[0].options;
    var option := FirstOrder(x.rooms[0].options, x.rooms, stock, excluded).value;
    var i :| 0 <= i < |rates| && x.rooms[0].options[i] == option;
    rate := rates[i];
    assert rate in rates;
  }

  lemma {:induction false} OrderCandidateComesFromHotel(hotels: seq<Hotel>, rooms: seq<Shape>, minStars: int, c: Collation, x: Candidate)
    returns (hotel: Hotel)
    requires x in OrderCandidatePlans(hotels, rooms, minStars, c)
    ensures hotel in hotels && hotel.stars >= minStars && BuildOrderCandidate(hotel, rooms, c) == Some(x)
  {
    var build := h => BuildOrderCandidate(h, rooms, c);
    SortKeepsElements(CandidateRank(c), Eligible(hotels, minStars, build));
    EligibleAre(hotels, minStars, build, x);
    hotel :| hotel in hotels && hotel.stars >= minStars && build(hotel) == Some(x);
  }

  /** A multiroom order books the same rooms: one rate, for exactly the split, on every room plan. */
  lemma {:induction false} OrderPartyIsPreserved(
    adults: int, children: int, rooms: seq<Shape>, hotels: seq<Hotel>, minStars: int, c: Collation, x: Candidate,
    stock: Stock, excluded: set<RateKey>, picks: seq<Pick>) returns (rate: Rate)
    requires ValidateSplit(adults, children, rooms) && rooms != []
    requires x in OrderCandidatePlans(hotels, rooms, minStars, c)
    requires SelectRates(x.rooms, stock, excluded) == Some(picks)
    ensures ValidateSplit(adults, children, Shapes(RoomsSent(picks)))
    ensures multiset(Shapes(RoomsSent(picks))) == multiset(rooms)
    ensures (exists hotel | hotel in hotels :: rate in hotel.rates) && IsOrderRate(rate, rooms)
    ensures forall i | 0 <= i < |picks| :: picks[i].rateKey == rate.rateKey
  {
    var hotel := OrderCandidateComesFromHotel(hotels, rooms, minStars, c, x);
    PicksMatchRooms(x.rooms, stock, excluded);
    ExpandedPicksAreTheSplit(rooms, picks);
    SameRoomsSameSplit(adults, children, rooms, Shapes(RoomsSent(picks)));
    rate := OrderPickRate(hotel, rooms, c, x, stock, excluded, picks);
  }
}
