/**
 The orders behind a candidate list, told key by key: which rates a room type is
 offered first, which hotels come first, and what a candidate says of its hotel.
 */
module Rankings {
  import opened Common
  import opened Rooms
  import opened Ledger
  import opened Planner
  import opened RateSelection
  import opened CandidatePlanning
  import opened Sorting

  lemma {:induction false} LexStep(x: int, xs: seq<int>, y: int, ys: seq<int>)
    ensures LexLeq([x] + xs, [y] + ys) <==> x < y || (x == y && LexLeq(xs, ys))
  {
    assert ([x] + xs)[1..] == xs && ([y] + ys)[1..] == ys;
  }

  /** Five keys compared left to right. */
  lemma {:induction false} LexFive(a: seq<int>, b: seq<int>)
    requires |a| == 5 == |b|
    ensures LexLeq(a, b) <==>
      a[0] < b[0]
      || (a[0] == b[0]
          && (a[1] < b[1]
              || (a[1] == b[1]
                  && (a[2] < b[2]
                      || (a[2] == b[2] && (a[3] < b[3] || (a[3] == b[3] && a[4] <= b[4])))))))
  {
    assert a == [a[0]] + ([a[1]] + ([a[2]] + ([a[3]] + ([a[4]] + []))));
    assert b == [b[0]] + ([b[1]] + ([b[2]] + ([b[3]] + ([b[4]] + []))));
    LexStep(a[4], [], b[4], []);
    LexStep(a[3], [a[4]] + [], b[3], [b[4]] + []);
    LexStep(a[2], [a[3]] + ([a[4]] + []), b[2], [b[3]] + ([b[4]] + []));
    LexStep(a[1], [a[2]] + ([a[3]] + ([a[4]] + [])), b[1], [b[2]] + ([b[3]] + ([b[4]] + [])));
    LexStep(a[0], [a[1]] + ([a[2]] + ([a[3]] + ([a[4]] + []))), b[0], [b[1]] + ([b[2]] + ([b[3]] + ([b[4]] + []))));
  }

  // ---- The rates of a room type --------------------------------------------------------

  predicate Pooled(pools: Pools, shape: Shape, k: RateKey) {
    shape in pools && k in pools[shape]
  }

  predicate Exact(r: Rate, shape: Shape) {
    r.adults == shape.adults && r.children == shape.children
  }

  /** Places more than the room type needs. */
  function Spare(r: Rate, shape: Shape): int {
    r.adults - shape.adults + (r.children - shape.children)
  }

  /** Rate `a` may stand before rate `b`: pool rates first, then exact fits, then fewer spare places, then cheaper ones. */
  predicate MayPrecede(pools: Pools, shape: Shape, c: Collation, a: Rate, b: Rate) {
    var poolA, poolB := Pooled(pools, shape, a.rateKey), Pooled(pools, shape, b.rateKey);
    || (poolA && !poolB)
    || (poolA == poolB
        && (|| (Exact(a, shape) && !Exact(b, shape))
            || (Exact(a, shape) == Exact(b, shape)
                && (|| Spare(a, shape) < Spare(b, shape)
                    || (Spare(a, shape) == Spare(b, shape)
                        && (a.netPrice < b.netPrice
                            || (a.netPrice == b.netPrice && c.rate(a.rateKey) <= c.rate(b.rateKey))))))))
  }

  lemma {:induction false} RateRankIs(pools: Pools, shape: Shape, c: Collation, a: Rate, b: Rate)
    ensures LexLeq(RateRank(pools, shape, c)(a), RateRank(pools, shape, c)(b)) <==> MayPrecede(pools, shape, c, a, b)
  {
    LexFive(RateRank(pools, shape, c)(a), RateRank(pools, shape, c)(b));
  }

  /**
   The rates offered for a room type are those with rooms left that hold it, ordered
   by pool, exact fit, spare places and price.
   */
  lemma {:induction false} RatesAreRanked(rates: seq<Rate>, shape: Shape, pools: Pools, c: Collation, sorted: seq<Rate>)
    requires sorted == RatesFor(rates, shape, pools, c)
    ensures forall r :: r in sorted <==>
      && r in rates && r.allotment.Some? && r.allotment.value > 0
      && r.adults >= shape.adults && r.children >= shape.children
    ensures forall i, j | 0 <= i < j < |sorted| :: MayPrecede(pools, shape, c, sorted[i], sorted[j])
  {
    var kept := Filter(r => HasAllotment(r) && Covering(r.adults, r.children, shape), rates);
    SortKeepsElements(RateRank(pools, shape, c), kept);
    SortIsSortedPermutation(RateRank(pools, shape, c), kept);
    forall i, j | 0 <= i < j < |sorted| ensures MayPrecede(pools, shape, c, sorted[i], sorted[j]) {
      RateRankIs(pools, shape, c, sorted[i], sorted[j]);
    }
  }

  /** Each option stands for its rate. */
  lemma {:induction false} OptionsAreRates(rates: seq<Rate>, need: RoomNeed, pools: Pools, c: Collation, i: nat)
    requires i < |RatesFor(rates, need.shape, pools, c)|
    ensures var plan := RoomPlanFor(rates, need, pools, c);
      var r := RatesFor(rates, need.shape, pools, c)[i];
      && plan.shape == need.shape && plan.roomsNeeded == need.roomsNeeded
      && |plan.options| == |RatesFor(rates, need.shape, pools, c)|
      && r.allotment.Some?
      && plan.options[i] == RateOption(r.rateKey, r.adults, r.children, r.netPrice, plan.options[i].allotment,
                                       Pooled(pools, need.shape, r.rateKey), None)
      && plan.options[i].allotment == r.allotment.value
  {
    var sorted := RatesFor(rates, need.shape, pools, c);
    RatesAreRanked(rates, need.shape, pools, c, sorted);
    assert sorted[i] in sorted;
  }

  // ---- The stock a hotel is judged by --------------------------------------------------------

  /** Every option on rate `k` has this allotment. */
  predicate AlwaysHas(rooms: seq<RoomPlan>, k: RateKey, allotment: nat) {
    forall plan, o | plan in rooms && o in plan.options && o.rateKey == k :: o.allotment == allotment
  }

  lemma {:induction false} OptionsStockIs(options: seq<RateOption>, k: RateKey, allotment: nat)
    requires forall o | o in options && o.rateKey == k :: o.allotment == allotment
    ensures k in OptionsStock(options) <==> exists i | 0 <= i < |options| :: options[i].rateKey == k
    ensures k in OptionsStock(options) ==> OptionsStock(options)[k] == allotment
  {
    if options != [] {
      var front := options[..|options| - 1];
      assert forall o | o in front :: o in options;
      OptionsStockIs(front, k, allotment);
      assert forall i | 0 <= i < |front| :: front[i] == options[i];
    }
  }

  /** At search time a rate has its allotment, and a rate not offered has none. */
  lemma {:induction false} SnapshotIs(rooms: seq<RoomPlan>, k: RateKey, allotment: nat)
    requires AlwaysHas(rooms, k, allotment)
    ensures k in SnapshotStock(rooms) <==> exists plan | plan in rooms :: OffersKey(plan, k)
    ensures k in SnapshotStock(rooms) ==> SnapshotStock(rooms)[k] == allotment
  {
    if rooms != [] {
      var front, last := rooms[..|rooms| - 1], rooms[|rooms| - 1];
      SnapshotIs(front, k, allotment);
      OptionsStockIs(last.options, k, allotment);
      assert OffersKey(last, k) <==> exists i | 0 <= i < |last.options| :: last.options[i].rateKey == k by {
        if i :| 0 <= i < |last.options| && last.options[i].rateKey == k {
          assert last.options[i] in last.options;
        }
      }
      assert forall plan :: plan in rooms <==> plan in front || plan == last;
    }
  }

  // ---- What a candidate says ---------------------------------------------------------------------

  /** Price of all rooms picked, counted from the front. */
  function PriceUpTo(picks: seq<Pick>, n: nat): int
    requires n <= |picks|
  {
    if n == 0 then 0 else PriceUpTo(picks, n - 1) + picks[n - 1].netPrice * picks[n - 1].roomsNeeded
  }

  lemma {:induction false} PriceOfRest(picks: seq<Pick>, n: nat)
    requires n <= |picks|
    ensures PicksPrice(picks) == PriceUpTo(picks, n) + PicksPrice(picks[n..])
  {
    if n == 0 {
      assert picks[0..] == picks;
    } else {
      PriceOfRest(picks, n - 1);
      assert picks[n - 1..][1..] == picks[n..];
    }
  }

  /**
   A candidate carries its hotel's code, stars and ring, the price of all rooms of
   the selection that its full allotments allow, and whether that leaves the pool.
   */
  lemma {:induction false} CandidateIs(hotel: Hotel, needs: seq<RoomNeed>, pools: Pools, c: Collation, x: Candidate)
    requires BuildCandidate(hotel, needs, pools, c) == Some(x)
    ensures x.hotelCode == hotel.code && x.stars == hotel.stars && x.radius == hotel.radius
    ensures x.rooms == RoomPlansFor(hotel.rates, needs, pools, c)
    ensures var picks := SelectRates(x.rooms, SnapshotStock(x.rooms), {});
      && picks.Some? && x.estimatedPrice == PriceUpTo(picks.value, |picks.value|)
      && (x.overflow <==> exists i | 0 <= i < |picks.value| :: !picks.value[i].inPool)
  {
    var picks := SelectRates(x.rooms, SnapshotStock(x.rooms), {}).value;
    PriceOfRest(picks, |picks|);
    assert picks[|picks|..] == [];
  }

  /** A pick has the price and the pool flag of an option its room type offers. */
  lemma {:induction false} PicksArePriced(rooms: seq<RoomPlan>, stock: Stock, excluded: set<RateKey>, i: nat)
    requires SelectRates(rooms, stock, excluded).Some? && i < |rooms| && !IsOrderCandidate(rooms)
    ensures var picks := SelectRates(rooms, stock, excluded).value;
      i < |picks| && exists o | o in rooms[i].options ::
        picks[i].rateKey == o.rateKey && picks[i].netPrice == o.netPrice && picks[i].inPool == o.inPool
  {
    PerRoomArePriced(rooms, stock, map[], excluded, i);
  }

  lemma {:induction false} PerRoomArePriced(rooms: seq<RoomPlan>, stock: Stock, used: Stock, excluded: set<RateKey>, i: nat)
    requires SelectPerRoom(rooms, stock, used, excluded).Some? && i < |rooms|
    ensures var picks := SelectPerRoom(rooms, stock, used, excluded).value;
      i < |picks| && exists o | o in rooms[i].options ::
        picks[i].rateKey == o.rateKey && picks[i].netPrice == o.netPrice && picks[i].inPool == o.inPool
  {
    var option := FirstUsable(rooms[0].options, rooms[0].roomsNeeded, stock, used, excluded).value;
    if i > 0 {
      PerRoomArePriced(rooms[1..], stock, UseRate(used, option.rateKey, rooms[0].roomsNeeded), excluded, i - 1);
    }
  }

  // ---- The order of the candidates ---------------------------------------------------------------------

  /** More stars first, then cheaper, then nearer, then within the pool, then by code. */
  predicate MayStandBefore(c: Collation, a: Candidate, b: Candidate) {
    || a.stars > b.stars
    || (a.stars == b.stars
        && (|| a.estimatedPrice < b.estimatedPrice
            || (a.estimatedPrice == b.estimatedPrice
                && (|| a.radius < b.radius
                    || (a.radius == b.radius
                        && (|| (!a.overflow && b.overflow)
                            || (a.overflow == b.overflow && c.hotel(a.hotelCode) <= c.hotel(b.hotelCode))))))))
  }

  lemma {:induction false} CandidateRankIs(c: Collation, a: Candidate, b: Candidate)
    ensures LexLeq(CandidateRank(c)(a), CandidateRank(c)(b)) <==> MayStandBefore(c, a, b)
  {
    LexFive(CandidateRank(c)(a), CandidateRank(c)(b));
  }

  lemma {:induction false} SortedCandidates(c: Collation, xs: seq<Candidate>, plans: seq<Candidate>)
    requires plans == Sort(CandidateRank(c), xs)
    ensures forall i, j | 0 <= i < j < |plans| :: MayStandBefore(c, plans[i], plans[j])
  {
    SortIsSortedPermutation(CandidateRank(c), xs);
    forall i, j | 0 <= i < j < |plans| ensures MayStandBefore(c, plans[i], plans[j]) {
      CandidateRankIs(c, plans[i], plans[j]);
    }
  }

  /** Candidates stand in order of stars, price, distance, pool and code, whether booked room by room or as orders. */
  lemma {:induction false} CandidatesStandInOrder(
    hotels: seq<Hotel>, needs: seq<RoomNeed>, rooms: seq<Shape>, pools: Pools, minStars: int, c: Collation)
    ensures var plans := CandidatePlans(hotels, needs, pools, minStars, c);
      forall i, j | 0 <= i < j < |plans| :: MayStandBefore(c, plans[i], plans[j])
    ensures var plans := OrderCandidatePlans(hotels, rooms, minStars, c);
      forall i, j | 0 <= i < j < |plans| :: MayStandBefore(c, plans[i], plans[j])
  {
    SortedCandidates(c, Eligible(hotels, minStars, h => BuildCandidate(h, needs, pools, c)),
      CandidatePlans(hotels, needs, pools, minStars, c));
    SortedCandidates(c, Eligible(hotels, minStars, h => BuildOrderCandidate(h, rooms, c)),
      OrderCandidatePlans(hotels, rooms, minStars, c));
  }

  // ---- Order candidates --------------------------------------------------------------------------------------

  predicate OffersOrder(r: Rate, rooms: seq<Shape>) {
    && r.rooms.Some? && multiset(r.rooms.value) == multiset(rooms)
    && r.allotment.Some? && r.allotment.value >= |rooms|
  }

  lemma {:induction false} LexTwo(a: int, b: int, x: int, y: int)
    ensures LexLeq([a, b], [x, y]) <==> a < x || (a == x && b <= y)
  {
    assert [a, b] == [a] + ([b] + []) && [x, y] == [x] + ([y] + []);
    LexStep(b, [], y, []);
    LexStep(a, [b] + [], x, [y] + []);
  }

  /**
   A hotel is a candidate for one order exactly if it offers such an order; its price
   is its lowest, and every room type lists its orders, cheapest first.
   */
  lemma {:induction false} OrderCandidateIs(hotel: Hotel, rooms: seq<Shape>, c: Collation)
    ensures var built := BuildOrderCandidate(hotel, rooms, c);
      && (built.Some? <==> exists r | r in hotel.rates :: OffersOrder(r, rooms))
      && (built.Some? ==>
            && built.value.hotelCode == hotel.code && built.value.stars == hotel.stars && built.value.radius == hotel.radius
            && !built.value.overflow && |built.value.rooms| == |RoomNeeds(rooms)|
            && (exists r | r in hotel.rates :: OffersOrder(r, rooms) && r.netPrice == built.value.estimatedPrice)
            && (forall r | r in hotel.rates && OffersOrder(r, rooms) :: built.value.estimatedPrice <= r.netPrice)
            && forall plan | plan in built.value.rooms :: OrdersListed(plan.options, hotel, rooms))
  {
    var rank := (r: Rate) => [r.netPrice, c.rate(r.rateKey)];
    var kept := Filter(r => IsOrderRate(r, rooms), hotel.rates);
    var rates := Sort(rank, kept);
    SortKeepsElements(rank, kept);
    SortIsSortedPermutation(rank, kept);
    forall i, j | 0 <= i < j < |rates| ensures rates[i].netPrice <= rates[j].netPrice {
      LexTwo(rates[i].netPrice, c.rate(rates[i].rateKey), rates[j].netPrice, c.rate(rates[j].rateKey));
    }
    if rates != [] {
      assert rates[0] in rates;
      OrderOptions(hotel, rooms, rates);
      forall r | r in hotel.rates && OffersOrder(r, rooms) ensures rates[0].netPrice <= r.netPrice {
        assert r in rates;
      }
    } else {
      assert forall r :: r !in rates;
    }
  }

  /** One option per order of the hotel, with rooms for all, cheapest first. */
  predicate OrdersListed(options: seq<RateOption>, hotel: Hotel, rooms: seq<Shape>) {
    && (forall i | 0 <= i < |options| :: StandsForOrder(options[i], hotel, rooms))
    && (forall i, j | 0 <= i < j < |options| :: options[i].netPrice <= options[j].netPrice)
  }

  predicate StandsForOrder(o: RateOption, hotel: Hotel, rooms: seq<Shape>) {
    exists r | r in hotel.rates ::
      && OffersOrder(r, rooms) && r.allotment.Some?
      && o == RateOption(r.rateKey, r.adults, r.children, r.netPrice, o.allotment, true, Some(|rooms|))
      && o.allotment == r.allotment.value
  }

  lemma {:induction false} OrderOptions(hotel: Hotel, rooms: seq<Shape>, rates: seq<Rate>)
    requires forall r | r in rates :: r in hotel.rates && IsOrderRate(r, rooms)
    requires forall i, j | 0 <= i < j < |rates| :: rates[i].netPrice <= rates[j].netPrice
    ensures OrdersListed(
      seq(|rates|, i requires 0 <= i < |rates| => OptionOf(rates[i], true, Some(|rooms|))), hotel, rooms)
  {
    var options := seq(|rates|, i requires 0 <= i < |rates| => OptionOf(rates[i], true, Some(|rooms|)));
    forall i | 0 <= i < |options| ensures StandsForOrder(options[i], hotel, rooms) {
      assert rates[i] in rates;
    }
  }
}
