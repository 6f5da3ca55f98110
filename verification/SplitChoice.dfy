/**
 What makes a room split the one to book, told from the hotels' offers: one hotel
 for all rooms first, then the lowest price, then fewer room types, then fewer
 rooms, and the plan's own order last.
 */
module SplitChoice {
  import opened Common
  import opened Rooms
  import opened Ledger
  import opened Planner
  import opened RateSelection
  import opened CandidatePlanning
  import opened Sorting
  import opened RoomSplits

  // ---- Offers ------------------------------------------------------------------------

  /** A rate with rooms left for exactly this type. */
  predicate Fits(rate: Rate, room: Shape) {
    && rate.allotment.Some? && rate.allotment.value > 0
    && rate.adults == room.adults && rate.children == room.children
  }

  /** Hotel `code` offers this room type. */
  predicate OffersRoom(hotels: seq<Hotel>, code: HotelCode, room: Shape) {
    exists h, i | 0 <= h < |hotels| && 0 <= i < |hotels[h].rates| :: hotels[h].code == code && Fits(hotels[h].rates[i], room)
  }

  predicate OffersAll(hotels: seq<Hotel>, code: HotelCode, rooms: seq<Shape>) {
    forall room | room in rooms :: OffersRoom(hotels, code, room)
  }

  /** Some hotel offers the whole split. */
  ghost predicate InOneHotel(hotels: seq<Hotel>, rooms: seq<Shape>) {
    exists code: HotelCode :: OffersAll(hotels, code, rooms)
  }

  lemma {:induction false} OfferingIff(hotels: seq<Hotel>, room: Shape, code: HotelCode)
    ensures code in HotelsOffering(hotels, room) <==> OffersRoom(hotels, code, room)
  {
    forall h, i | 0 <= h < |hotels| && 0 <= i < |hotels[h].rates|
      ensures Fits(hotels[h].rates[i], room) <==> HasAllotment(hotels[h].rates[i]) && RateShape(hotels[h].rates[i]) == room
    {
    }
    forall h | 0 <= h < |hotels|
      ensures Offers(hotels[h].rates, room) <==> exists i | 0 <= i < |hotels[h].rates| :: Fits(hotels[h].rates[i], room)
    {
    }
  }

  /** The lowest price of this room type at any hotel. */
  predicate IsLowest(hotels: seq<Hotel>, room: Shape, price: int) {
    && (exists h, i | 0 <= h < |hotels| && 0 <= i < |hotels[h].rates| ::
          Fits(hotels[h].rates[i], room) && hotels[h].rates[i].netPrice == price)
    && (forall h, i | 0 <= h < |hotels| && 0 <= i < |hotels[h].rates| && Fits(hotels[h].rates[i], room) ::
          price <= hotels[h].rates[i].netPrice)
  }

  lemma {:induction false} CheapestRateIsOffered(rates: seq<Rate>, room: Shape)
    requires CheapestRate(rates, room).Some?
    ensures exists i | 0 <= i < |rates| :: Fits(rates[i], room) && rates[i].netPrice == CheapestRate(rates, room).value
  {
    var front, last := rates[..|rates| - 1], rates[|rates| - 1];
    if CheapestRate(front, room).Some? {
      CheapestRateIsOffered(front, room);
      var i :| 0 <= i < |front| && Fits(front[i], room) && front[i].netPrice == CheapestRate(front, room).value;
      assert rates[i] == front[i];
    }
    assert Fits(last, room) <==> HasAllotment(last) && RateShape(last) == room;
  }

  lemma {:induction false} CheapestIsOffered(hotels: seq<Hotel>, room: Shape)
    requires Cheapest(hotels, room).Some?
    ensures exists h, i | 0 <= h < |hotels| && 0 <= i < |hotels[h].rates| ::
      Fits(hotels[h].rates[i], room) && hotels[h].rates[i].netPrice == Cheapest(hotels, room).value
  {
    var front, last := hotels[..|hotels| - 1], hotels[|hotels| - 1];
    if Cheapest(front, room).Some? {
      CheapestIsOffered(front, room);
      var h, i :| 0 <= h < |front| && 0 <= i < |front[h].rates|
        && Fits(front[h].rates[i], room) && front[h].rates[i].netPrice == Cheapest(front, room).value;
      assert hotels[h] == front[h];
    }
    if CheapestRate(last.rates, room).Some? {
      CheapestRateIsOffered(last.rates, room);
    }
  }

  lemma {:induction false} CheapestIsLowest(hotels: seq<Hotel>, room: Shape)
    requires HotelsOffering(hotels, room) != {}
    ensures Cheapest(hotels, room).Some? && IsLowest(hotels, room, Cheapest(hotels, room).value)
  {
    CheapestIs(hotels, room);
    CheapestIsOffered(hotels, room);
    forall h, i | 0 <= h < |hotels| && 0 <= i < |hotels[h].rates| && Fits(hotels[h].rates[i], room)
      ensures Cheapest(hotels, room).value <= hotels[h].rates[i].netPrice
    {
      assert HasAllotment(hotels[h].rates[i]) && RateShape(hotels[h].rates[i]) == room;
    }
  }

  // ---- The price of a split -----------------------------------------------------------------

  function Total(prices: seq<int>): int {
    if prices == [] then 0 else prices[0] + Total(prices[1..])
  }

  /** `price` is the sum of the lowest prices, room by room. */
  ghost predicate IsRoomPrice(hotels: seq<Hotel>, rooms: seq<Shape>, price: int) {
    exists prices: seq<int> ::
      |prices| == |rooms| && price == Total(prices)
      && forall i | 0 <= i < |rooms| :: IsLowest(hotels, rooms[i], prices[i])
  }

  function CheapestPrices(hotels: seq<Hotel>, rooms: seq<Shape>): seq<int> {
    seq(|rooms|, i requires 0 <= i < |rooms| =>
      if Cheapest(hotels, rooms[i]).Some? then Cheapest(hotels, rooms[i]).value else 0)
  }

  lemma {:induction false} SumIsTotal(hotels: seq<Hotel>, rooms: seq<Shape>)
    ensures SumPrices(hotels, rooms) == Total(CheapestPrices(hotels, rooms))
  {
    if rooms != [] {
      SumIsTotal(hotels, rooms[1..]);
      assert CheapestPrices(hotels, rooms)[1..] == CheapestPrices(hotels, rooms[1..]);
    }
  }

  lemma {:induction false} SumIsRoomPrice(hotels: seq<Hotel>, rooms: seq<Shape>)
    requires forall room | room in rooms :: HotelsOffering(hotels, room) != {}
    ensures IsRoomPrice(hotels, rooms, SumPrices(hotels, rooms))
  {
    SumIsTotal(hotels, rooms);
    var prices := CheapestPrices(hotels, rooms);
    forall i | 0 <= i < |rooms| ensures IsLowest(hotels, rooms[i], prices[i]) {
      assert rooms[i] in rooms;
      CheapestIsLowest(hotels, rooms[i]);
    }
  }

  /** Some hotel books exactly these rooms as one order, at this price, and none for less. */
  predicate IsOrderPrice(hotels: seq<Hotel>, rooms: seq<Shape>, price: int) {
    && (exists h, i | 0 <= h < |hotels| && 0 <= i < |hotels[h].rates| ::
          BooksAll(hotels[h].rates[i], rooms) && hotels[h].rates[i].netPrice == price)
    && (forall h, i | 0 <= h < |hotels| && 0 <= i < |hotels[h].rates| && BooksAll(hotels[h].rates[i], rooms) ::
          price <= hotels[h].rates[i].netPrice)
  }

  predicate BooksAll(rate: Rate, rooms: seq<Shape>) {
    && rate.rooms.Some? && multiset(rate.rooms.value) == multiset(rooms)
    && rate.allotment.Some? && rate.allotment.value >= |rooms|
  }

  lemma {:induction false} CheapestOrderIs(rates: seq<Rate>, rooms: seq<Shape>)
    ensures CheapestOrder(rates, rooms).Some? <==> exists i | 0 <= i < |rates| :: BooksAll(rates[i], rooms)
    ensures CheapestOrder(rates, rooms).Some? ==>
      && (exists i | 0 <= i < |rates| :: BooksAll(rates[i], rooms) && rates[i].netPrice == CheapestOrder(rates, rooms).value)
      && (forall i | 0 <= i < |rates| && BooksAll(rates[i], rooms) :: CheapestOrder(rates, rooms).value <= rates[i].netPrice)
  {
    if rates != [] {
      var front := rates[..|rates| - 1];
      CheapestOrderIs(front, rooms);
      assert forall i | 0 <= i < |front| :: front[i] == rates[i];
      if CheapestOrder(front, rooms).Some? {
        var i :| 0 <= i < |front| && BooksAll(front[i], rooms) && front[i].netPrice == CheapestOrder(front, rooms).value;
        assert BooksAll(rates[i], rooms);
      }
    }
  }

  /** Some order for these rooms is offered. */
  predicate OrderOffered(hotels: seq<Hotel>, rooms: seq<Shape>) {
    exists h, i | 0 <= h < |hotels| && 0 <= i < |hotels[h].rates| :: BooksAll(hotels[h].rates[i], rooms)
  }

  lemma {:induction false} OrderOfferedFront(hotels: seq<Hotel>, rooms: seq<Shape>)
    requires hotels != []
    ensures var front, last := hotels[..|hotels| - 1], hotels[|hotels| - 1];
      OrderOffered(hotels, rooms) <==>
        OrderOffered(front, rooms) || exists i | 0 <= i < |last.rates| :: BooksAll(last.rates[i], rooms)
  {
    var front := hotels[..|hotels| - 1];
    assert forall h | 0 <= h < |front| :: front[h] == hotels[h];
  }

  lemma {:induction false} OrderPriceFront(hotels: seq<Hotel>, rooms: seq<Shape>, price: Option<int>)
    requires hotels != [] && price == OrderPrices(hotels[..|hotels| - 1], rooms)
    requires price.Some? ==> IsOrderPrice(hotels[..|hotels| - 1], rooms, price.value)
    requires price.None? ==> !OrderOffered(hotels[..|hotels| - 1], rooms)
    ensures OrderPrices(hotels, rooms).Some? ==> IsOrderPrice(hotels, rooms, OrderPrices(hotels, rooms).value)
  {
    var front, last := hotels[..|hotels| - 1], hotels[|hotels| - 1];
    CheapestOrderIs(last.rates, rooms);
    assert forall h | 0 <= h < |front| :: front[h] == hotels[h];
    if price.Some? {
      var h, i :| 0 <= h < |front| && 0 <= i < |front[h].rates|
        && BooksAll(front[h].rates[i], rooms) && front[h].rates[i].netPrice == price.value;
      assert BooksAll(hotels[h].rates[i], rooms);
    }
  }

  lemma {:induction false} OrderPricesAre(hotels: seq<Hotel>, rooms: seq<Shape>)
    ensures OrderPrices(hotels, rooms).Some? <==> OrderOffered(hotels, rooms)
    ensures OrderPrices(hotels, rooms).Some? ==> IsOrderPrice(hotels, rooms, OrderPrices(hotels, rooms).value)
  {
    if hotels != [] {
      var front, last := hotels[..|hotels| - 1], hotels[|hotels| - 1];
      OrderPricesAre(front, rooms);
      OrderOfferedFront(hotels, rooms);
      CheapestOrderIs(last.rates, rooms);
      OrderPriceFront(hotels, rooms, OrderPrices(front, rooms));
    }
  }

  // ---- Room types --------------------------------------------------------------------------------

  function ShapesOf(needs: seq<RoomNeed>): set<Shape> {
    set i | 0 <= i < |needs| :: needs[i].shape
  }

  lemma {:induction false} DistinctCount(needs: seq<RoomNeed>)
    requires DistinctShapes(needs)
    ensures |ShapesOf(needs)| == |needs|
  {
    if needs != [] {
      var front, last := needs[..|needs| - 1], needs[|needs| - 1];
      DistinctCount(front);
      assert ShapesOf(needs) == ShapesOf(front) + {last.shape};
      assert last.shape !in ShapesOf(front);
    }
  }

  /** As many needs as room types. */
  lemma {:induction false} NeedsAreTypes(rooms: seq<Shape>)
    ensures |RoomNeeds(rooms)| == |set room | room in rooms|
  {
    var needs := RoomNeeds(rooms);
    RoomNeedsCountRooms(rooms);
    DistinctCount(needs);
    var types := set room | room in rooms;
    forall shape ensures shape in types <==> shape in ShapesOf(needs) {
      if shape in rooms {
        assert needs[FindNeed(needs, shape).value].shape == shape;
      }
      if i :| 0 <= i < |needs| && needs[i].shape == shape {
        assert multiset(rooms)[shape] > 0;
      }
    }
    assert types == ShapesOf(needs);
  }

  // ---- Which split wins ------------------------------------------------------------------------------

  /** Booked as one order: the supplier has such orders and the split more than one room. */
  predicate AsOneOrder(orders: Option<seq<Hotel>>, rooms: seq<Shape>) {
    orders.Some? && |rooms| > 1
  }

  ghost predicate IsCovered(hotels: seq<Hotel>, orders: Option<seq<Hotel>>, rooms: seq<Shape>) {
    if AsOneOrder(orders, rooms) then OrderOffered(orders.value, rooms)
    else forall room | room in rooms :: exists code: HotelCode :: OffersRoom(hotels, code, room)
  }

  ghost predicate IsWhole(hotels: seq<Hotel>, orders: Option<seq<Hotel>>, rooms: seq<Shape>) {
    AsOneOrder(orders, rooms) || InOneHotel(hotels, rooms)
  }

  ghost predicate IsPrice(hotels: seq<Hotel>, orders: Option<seq<Hotel>>, rooms: seq<Shape>, price: int) {
    if AsOneOrder(orders, rooms) then IsOrderPrice(orders.value, rooms, price) else IsRoomPrice(hotels, rooms, price)
  }

  function Types(rooms: seq<Shape>): nat {
    |set room | room in rooms|
  }

  /** Split `b`, at price `q`, is no better to book than `a` at price `p`. */
  ghost predicate NoBetter(
    hotels: seq<Hotel>, orders: Option<seq<Hotel>>, a: seq<Shape>, p: int, b: seq<Shape>, q: int)
  {
    && (IsWhole(hotels, orders, b) ==> IsWhole(hotels, orders, a))
    && (IsWhole(hotels, orders, b) == IsWhole(hotels, orders, a) ==>
          && p <= q
          && (p == q ==> Types(a) <= Types(b))
          && (p == q && Types(a) == Types(b) ==> |a| <= |b|))
  }

  lemma {:induction false} CoverableIff(hotels: seq<Hotel>, orders: Option<seq<Hotel>>, rooms: seq<Shape>)
    ensures Coverable(hotels, orders, rooms) <==> IsCovered(hotels, orders, rooms)
  {
    if AsOneOrder(orders, rooms) {
      OrderPricesAre(orders.value, rooms);
    } else {
      forall room | room in rooms
        ensures HotelsOffering(hotels, room) != {} <==> exists code: HotelCode :: OffersRoom(hotels, code, room)
      {
        forall code: HotelCode ensures code in HotelsOffering(hotels, room) <==> OffersRoom(hotels, code, room) {
          OfferingIff(hotels, room, code);
        }
        if HotelsOffering(hotels, room) != {} {
          var code :| code in HotelsOffering(hotels, room);
          assert OffersRoom(hotels, code, room);
        }
      }
    }
  }

  lemma {:induction false} WholeIff(hotels: seq<Hotel>, rooms: seq<Shape>)
    requires rooms != []
    ensures HotelsOfferingAll(hotels, rooms) != {} <==> InOneHotel(hotels, rooms)
  {
    forall code: HotelCode
      ensures code in HotelsOfferingAll(hotels, rooms) <==> OffersAll(hotels, code, rooms)
    {
      OneHotelOffersAll(hotels, rooms, code);
      forall room | room in rooms ensures code in HotelsOffering(hotels, room) <==> OffersRoom(hotels, code, room) {
        OfferingIff(hotels, room, code);
      }
    }
    if HotelsOfferingAll(hotels, rooms) != {} {
      var code :| code in HotelsOfferingAll(hotels, rooms);
      assert OffersAll(hotels, code, rooms);
    }
  }

  /** What the score of a covered split says of the offers. */
  lemma {:induction false} ScoreIs(hotels: seq<Hotel>, orders: Option<seq<Hotel>>, rooms: seq<Shape>)
    requires rooms != [] && Coverable(hotels, orders, rooms)
    ensures var s := ScoreOf(hotels, orders, rooms);
      && (s.oneHotel <==> IsWhole(hotels, orders, rooms)) && IsPrice(hotels, orders, rooms, s.price)
      && s.distinctShapes == Types(rooms) && s.roomCount == |rooms|
  {
    NeedsAreTypes(rooms);
    if AsOneOrder(orders, rooms) {
      OrderPricesAre(orders.value, rooms);
    } else {
      WholeIff(hotels, rooms);
      SumIsRoomPrice(hotels, rooms);
    }
  }

  lemma {:induction false} RankIs(a: Score, b: Score)
    ensures LexLeq(SplitRank(a), SplitRank(b)) <==>
      (a.oneHotel && !b.oneHotel)
      || (a.oneHotel == b.oneHotel
          && (a.price < b.price
              || (a.price == b.price
                  && (a.distinctShapes < b.distinctShapes
                      || (a.distinctShapes == b.distinctShapes && a.roomCount <= b.roomCount)))))
  {
    var s, t := SplitRank(a), SplitRank(b);
    assert LexLeq(s[3..], t[3..]) <==> a.roomCount <= b.roomCount by {
      assert s[3..][1..] == [] && t[3..][1..] == [];
    }
    assert s[2..][1..] == s[3..] && t[2..][1..] == t[3..];
    assert s[1..][1..] == s[2..] && t[1..][1..] == t[2..];
    assert LexLeq(s[2..], t[2..]) <==>
      a.distinctShapes < b.distinctShapes || (a.distinctShapes == b.distinctShapes && a.roomCount <= b.roomCount);
    assert LexLeq(s[1..], t[1..]) <==> a.price < b.price || (a.price == b.price && LexLeq(s[2..], t[2..]));
  }

  lemma {:induction false} LowestIsOne(hotels: seq<Hotel>, room: Shape, p: int, q: int)
    requires IsLowest(hotels, room, p) && IsLowest(hotels, room, q)
    ensures p == q
  {
  }

  lemma {:induction false} RoomPriceIsOne(hotels: seq<Hotel>, rooms: seq<Shape>, p: int, q: int)
    requires IsRoomPrice(hotels, rooms, p) && IsRoomPrice(hotels, rooms, q)
    ensures p == q
  {
    var one: seq<int> :| |one| == |rooms| && p == Total(one)
      && forall i | 0 <= i < |rooms| :: IsLowest(hotels, rooms[i], one[i]);
    var other: seq<int> :| |other| == |rooms| && q == Total(other)
      && forall i | 0 <= i < |rooms| :: IsLowest(hotels, rooms[i], other[i]);
    forall i | 0 <= i < |rooms| ensures one[i] == other[i] {
      LowestIsOne(hotels, rooms[i], one[i], other[i]);
    }
    assert one == other;
  }

  lemma {:induction false} OrderPriceIsOne(hotels: seq<Hotel>, rooms: seq<Shape>, p: int, q: int)
    requires IsOrderPrice(hotels, rooms, p) && IsOrderPrice(hotels, rooms, q)
    ensures p == q
  {
  }

  lemma {:induction false} PriceIsOne(hotels: seq<Hotel>, orders: Option<seq<Hotel>>, rooms: seq<Shape>, p: int, q: int)
    requires IsPrice(hotels, orders, rooms, p) && IsPrice(hotels, orders, rooms, q)
    ensures p == q
  {
    if AsOneOrder(orders, rooms) {
      OrderPriceIsOne(orders.value, rooms, p, q);
    } else {
      RoomPriceIsOne(hotels, rooms, p, q);
    }
  }

  /**
   The split to book can be covered, and no split of the plan that can be covered is
   better: not one of a single hotel if it is not, not a cheaper one, not one with
   fewer room types at the same price, nor one with fewer rooms.
   */
  lemma {:induction false} ChosenIsBest(plan: SplitPlan, hotels: seq<Hotel>, orders: Option<seq<Hotel>>)
    requires NoEmptySplit(plan)
    ensures var best := RankSplits(plan, hotels, orders);
      && (best.None? <==> forall rooms | rooms in SplitsOf(plan) :: !IsCovered(hotels, orders, rooms))
      && (best.Some? ==>
            && best.value in SplitsOf(plan) && IsCovered(hotels, orders, best.value)
            && forall rooms, p, q | rooms in SplitsOf(plan) && IsCovered(hotels, orders, rooms)
                 && IsPrice(hotels, orders, best.value, p) && IsPrice(hotels, orders, rooms, q) ::
                 NoBetter(hotels, orders, best.value, p, rooms, q))
  {
    BestSplit(plan, hotels, orders);
    forall rooms | rooms in SplitsOf(plan) ensures Coverable(hotels, orders, rooms) <==> IsCovered(hotels, orders, rooms) {
      CoverableIff(hotels, orders, rooms);
    }
    var best := RankSplits(plan, hotels, orders);
    if best.Some? {
      forall rooms, p, q | rooms in SplitsOf(plan) && IsCovered(hotels, orders, rooms)
          && IsPrice(hotels, orders, best.value, p) && IsPrice(hotels, orders, rooms, q)
        ensures NoBetter(hotels, orders, best.value, p, rooms, q)
      {
        RankedNoBetter(hotels, orders, best.value, p, rooms, q);
      }
    }
  }

  lemma {:induction false} RankedNoBetter(
    hotels: seq<Hotel>, orders: Option<seq<Hotel>>, a: seq<Shape>, p: int, b: seq<Shape>, q: int)
    requires a != [] && b != [] && Coverable(hotels, orders, a) && Coverable(hotels, orders, b)
    requires LexLeq(SplitRank(ScoreOf(hotels, orders, a)), SplitRank(ScoreOf(hotels, orders, b)))
    requires IsPrice(hotels, orders, a, p) && IsPrice(hotels, orders, b, q)
    ensures NoBetter(hotels, orders, a, p, b, q)
  {
    ScoreIs(hotels, orders, a);
    ScoreIs(hotels, orders, b);
    RankIs(ScoreOf(hotels, orders, a), ScoreOf(hotels, orders, b));
    PriceIsOne(hotels, orders, a, p, ScoreOf(hotels, orders, a).price);
    PriceIsOne(hotels, orders, b, q, ScoreOf(hotels, orders, b).price);
  }

  // ---- Among equals the plan's order decides --------------------------------------------------------------

  /** What a stable sort puts first comes from the first of its equals. */
  lemma {:induction false} SortedFirst<T>(key: T -> seq<int>, xs: seq<T>) returns (i: nat)
    requires xs != []
    ensures i < |xs| && Sort(key, xs) != [] && Sort(key, xs)[0] == xs[i]
    ensures forall j | 0 <= j < i :: !LexLeq(key(xs[j]), key(xs[i]))
  {
    if |xs| == 1 {
      i := 0;
      assert xs[1..] == [] && Sort(key, xs[1..]) == [];
    } else {
      var k := SortedFirst(key, xs[1..]);
      var rest := Sort(key, xs[1..]);
      assert rest[0] == xs[k + 1];
      if LexLeq(key(xs[0]), key(rest[0])) {
        i := 0;
      } else {
        i := k + 1;
        forall j | 0 <= j < i ensures !LexLeq(key(xs[j]), key(xs[i])) {
          assert j > 0 ==> xs[j] == xs[1..][j - 1];
        }
      }
    }
  }

  predicate ScoredBefore(scores: seq<Score>, i: nat, s: Score) {
    i <= |scores| && s in scores[..i]
  }

  lemma {:induction false} ScoredLater(first: Score, rest: seq<Score>, i: nat, s: Score)
    requires ScoredBefore(rest, i, s)
    ensures ScoredBefore([first] + rest, i + 1, s)
  {
    assert ([first] + rest)[..i + 1] == [first] + rest[..i];
  }

  /** The scores keep the order of the covered splits. */
  lemma {:induction false} ScoreAt(hotels: seq<Hotel>, orders: Option<seq<Hotel>>, splits: seq<seq<Shape>>, i: nat)
    returns (k: nat)
    requires NoneEmpty(splits) && i < |Scores(hotels, orders, splits)|
    ensures k < |splits| && Coverable(hotels, orders, splits[k])
    ensures Scores(hotels, orders, splits)[i] == ScoreOf(hotels, orders, splits[k])
    ensures forall j | 0 <= j < k && Coverable(hotels, orders, splits[j]) ::
      ScoredBefore(Scores(hotels, orders, splits), i, ScoreOf(hotels, orders, splits[j]))
    decreases |splits|, 1
  {
    var rest := Scores(hotels, orders, splits[1..]);
    if !Coverable(hotels, orders, splits[0]) {
      k := ScoreAtRest(hotels, orders, splits, rest, i);
    } else if i == 0 {
      k := 0;
    } else {
      k := ScoreAtRest(hotels, orders, splits, rest, i - 1);
      var first := ScoreOf(hotels, orders, splits[0]);
      assert ([first] + rest)[..i][0] == first;
      forall j | 0 < j < k && Coverable(hotels, orders, splits[j])
        ensures ScoredBefore([first] + rest, i, ScoreOf(hotels, orders, splits[j]))
      {
        ScoredLater(first, rest, i - 1, ScoreOf(hotels, orders, splits[j]));
      }
    }
  }

  lemma {:induction false} ScoreAtRest(
    hotels: seq<Hotel>, orders: Option<seq<Hotel>>, splits: seq<seq<Shape>>, rest: seq<Score>, i: nat)
    returns (k: nat)
    requires splits != [] && NoneEmpty(splits) && rest == Scores(hotels, orders, splits[1..]) && i < |rest|
    ensures 0 < k < |splits| && Coverable(hotels, orders, splits[k]) && rest[i] == ScoreOf(hotels, orders, splits[k])
    ensures forall j | 0 < j < k && Coverable(hotels, orders, splits[j]) ::
      ScoredBefore(rest, i, ScoreOf(hotels, orders, splits[j]))
    decreases |splits|, 0
  {
    var l := ScoreAt(hotels, orders, splits[1..], i);
    k := l + 1;
    forall j | 0 < j < k && Coverable(hotels, orders, splits[j])
      ensures ScoredBefore(rest, i, ScoreOf(hotels, orders, splits[j]))
    {
      assert splits[j] == splits[1..][j - 1];
    }
  }

  /** Of two equally good splits the plan's earlier one is booked: every earlier covered split is worse than the chosen one. */
  lemma {:induction false} EarlierAreWorse(plan: SplitPlan, hotels: seq<Hotel>, orders: Option<seq<Hotel>>) returns (k: nat)
    requires NoEmptySplit(plan) && RankSplits(plan, hotels, orders).Some?
    ensures k < |SplitsOf(plan)| && RankSplits(plan, hotels, orders) == Some(SplitsOf(plan)[k])
    ensures forall j, p, q | 0 <= j < k && IsCovered(hotels, orders, SplitsOf(plan)[j])
              && IsPrice(hotels, orders, SplitsOf(plan)[j], p) && IsPrice(hotels, orders, SplitsOf(plan)[k], q) ::
              !NoBetter(hotels, orders, SplitsOf(plan)[j], p, SplitsOf(plan)[k], q)
  {
    var splits := SplitsOf(plan);
    var scores := Scores(hotels, orders, splits);
    SortKeepsElements(SplitRank, scores);
    assert scores != [] by { assert Sort(SplitRank, scores)[0] in scores; }
    var i := SortedFirst(SplitRank, scores);
    k := ScoreAt(hotels, orders, splits, i);
    forall j, p, q | 0 <= j < k && IsCovered(hotels, orders, splits[j])
        && IsPrice(hotels, orders, splits[j], p) && IsPrice(hotels, orders, splits[k], q)
      ensures !NoBetter(hotels, orders, splits[j], p, splits[k], q)
    {
      CoverableIff(hotels, orders, splits[j]);
      assert ScoredBefore(scores, i, ScoreOf(hotels, orders, splits[j]));
      var m :| 0 <= m < i && scores[..i][m] == ScoreOf(hotels, orders, splits[j]);
      assert !LexLeq(SplitRank(scores[m]), SplitRank(scores[i]));
      StrictlyWorse(hotels, orders, splits[j], p, splits[k], q);
    }
  }

  lemma {:induction false} StrictlyWorse(
    hotels: seq<Hotel>, orders: Option<seq<Hotel>>, a: seq<Shape>, p: int, b: seq<Shape>, q: int)
    requires a != [] && b != [] && Coverable(hotels, orders, a) && Coverable(hotels, orders, b)
    requires !LexLeq(SplitRank(ScoreOf(hotels, orders, a)), SplitRank(ScoreOf(hotels, orders, b)))
    requires IsPrice(hotels, orders, a, p) && IsPrice(hotels, orders, b, q)
    ensures !NoBetter(hotels, orders, a, p, b, q)
  {
    ScoreIs(hotels, orders, a);
    ScoreIs(hotels, orders, b);
    RankIs(ScoreOf(hotels, orders, a), ScoreOf(hotels, orders, b));
    PriceIsOne(hotels, orders, a, p, ScoreOf(hotels, orders, a).price);
    PriceIsOne(hotels, orders, b, q, ScoreOf(hotels, orders, b).price);
  }

  /**
   The split planned for a PNR is the best that hotels of its class cover; if they
   cover none, the best that any hotels cover; and the preferred one if there is none.
   */
  lemma {:induction false} ClassComesFirst(plan: SplitPlan, hotels: seq<Hotel>, orders: Option<seq<Hotel>>, minStars: int)
    requires NoEmptySplit(plan)
    ensures forall h :: h in Qualified(hotels, minStars) <==> h in hotels && h.stars >= minStars
    ensures orders.Some? <==> QualifiedOrders(orders, minStars).Some?
    ensures orders.Some? ==>
      forall h :: h in QualifiedOrders(orders, minStars).value <==> h in orders.value && h.stars >= minStars
    ensures var near, nearOrders := Qualified(hotels, minStars), QualifiedOrders(orders, minStars);
      var chosen := ChooseRoomSplit(plan, hotels, orders, minStars);
      if exists rooms | rooms in SplitsOf(plan) :: IsCovered(near, nearOrders, rooms)
      then Some(chosen) == RankSplits(plan, near, nearOrders)
      else if exists rooms | rooms in SplitsOf(plan) :: IsCovered(hotels, orders, rooms)
      then Some(chosen) == RankSplits(plan, hotels, orders)
      else chosen == plan.preferred
  {
    ChosenIsBest(plan, Qualified(hotels, minStars), QualifiedOrders(orders, minStars));
    ChosenIsBest(plan, hotels, orders);
  }
}
