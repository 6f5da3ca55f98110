/**
 Which of a party's room splits to book: one that the found hotels can cover,
 preferably in one hotel, at the lowest price.
 */
module RoomSplits {
  import opened Common
  import opened Rooms
  import opened Ledger
  import opened Planner
  import opened RateSelection
  import opened CandidatePlanning
  import opened Sorting

  // ---- What the hotels offer per room type -------------------------------------------

  predicate Offers(rates: seq<Rate>, shape: Shape) {
    exists i | 0 <= i < |rates| :: HasAllotment(rates[i]) && RateShape(rates[i]) == shape
  }

  /** Codes of the hotels with a free rate of exactly this type. */
  function HotelsOffering(hotels: seq<Hotel>, shape: Shape): set<HotelCode> {
    set i | 0 <= i < |hotels| && Offers(hotels[i].rates, shape) :: hotels[i].code
  }

  function Cheaper(price: Option<int>, other: Option<int>): Option<int> {
    if price.None? then other else if other.None? then price else Some(Min(price.value, other.value))
  }

  function CheapestRate(rates: seq<Rate>, shape: Shape): Option<int> {
    if rates == [] then None else
      var rate := rates[|rates| - 1];
      Cheaper(CheapestRate(rates[..|rates| - 1], shape),
              if HasAllotment(rate) && RateShape(rate) == shape then Some(rate.netPrice) else None)
  }

  function Cheapest(hotels: seq<Hotel>, shape: Shape): Option<int> {
    if hotels == [] then None
    else Cheaper(Cheapest(hotels[..|hotels| - 1], shape), CheapestRate(hotels[|hotels| - 1].rates, shape))
  }

  lemma {:induction false} CheapestRateIs(rates: seq<Rate>, shape: Shape)
    ensures CheapestRate(rates, shape).Some? <==> Offers(rates, shape)
    ensures forall i | 0 <= i < |rates| && HasAllotment(rates[i]) && RateShape(rates[i]) == shape ::
              CheapestRate(rates, shape).Some? && CheapestRate(rates, shape).value <= rates[i].netPrice
  {
    if rates != [] {
      CheapestRateIs(rates[..|rates| - 1], shape);
      assert forall i | 0 <= i < |rates| - 1 :: rates[..|rates| - 1][i] == rates[i];
    }
  }

  /** A room type has a cheapest price exactly when some hotel offers it, and no offer is cheaper. */
  lemma {:induction false} CheapestIs(hotels: seq<Hotel>, shape: Shape)
    ensures Cheapest(hotels, shape).Some? <==> HotelsOffering(hotels, shape) != {}
    ensures forall h, i | 0 <= h < |hotels| && 0 <= i < |hotels[h].rates|
                          && HasAllotment(hotels[h].rates[i]) && RateShape(hotels[h].rates[i]) == shape ::
              Cheapest(hotels, shape).Some? && Cheapest(hotels, shape).value <= hotels[h].rates[i].netPrice
  {
    if hotels != [] {
      var front, last := hotels[..|hotels| - 1], hotels[|hotels| - 1];
      CheapestIs(front, shape);
      CheapestRateIs(last.rates, shape);
      assert forall h | 0 <= h < |front| :: front[h] == hotels[h];
      assert HotelsOffering(hotels, shape)
          == HotelsOffering(front, shape) + if Offers(last.rates, shape) then {last.code} else {};
    }
  }

  // ---- Scoring and choosing ----------------------------------------------------------------

  datatype Score = Score(rooms: seq<Shape>, oneHotel: bool, price: int, distinctShapes: nat, roomCount: nat)

  function SumPrices(hotels: seq<Hotel>, rooms: seq<Shape>): int {
    if rooms == [] then 0 else
      var price := Cheapest(hotels, rooms[0]);
      (if price.Some? then price.value else 0) + SumPrices(hotels, rooms[1..])
  }

  /** Hotels that offer every room type of the split. */
  function HotelsOfferingAll(hotels: seq<Hotel>, rooms: seq<Shape>): set<HotelCode>
    requires rooms != []
  {
    if |rooms| == 1 then HotelsOffering(hotels, rooms[0])
    else HotelsOfferingAll(hotels, rooms[..|rooms| - 1]) * HotelsOffering(hotels, rooms[|rooms| - 1])
  }

  function OrderPrices(orderHotels: seq<Hotel>, rooms: seq<Shape>): Option<int> {
    if orderHotels == [] then None else
      Cheaper(OrderPrices(orderHotels[..|orderHotels| - 1], rooms),
              CheapestOrder(orderHotels[|orderHotels| - 1].rates, rooms))
  }

  function CheapestOrder(rates: seq<Rate>, rooms: seq<Shape>): Option<int> {
    if rates == [] then None else
      var rate := rates[|rates| - 1];
      Cheaper(CheapestOrder(rates[..|rates| - 1], rooms), if IsOrderRate(rate, rooms) then Some(rate.netPrice) else None)
  }

  predicate Coverable(hotels: seq<Hotel>, orderHotels: Option<seq<Hotel>>, rooms: seq<Shape>) {
    if orderHotels.Some? && |rooms| > 1 then OrderPrices(orderHotels.value, rooms).Some?
    else forall room | room in rooms :: HotelsOffering(hotels, room) != {}
  }

  function ScoreOf(hotels: seq<Hotel>, orderHotels: Option<seq<Hotel>>, rooms: seq<Shape>): Score
    requires rooms != [] && Coverable(hotels, orderHotels, rooms)
  {
    if orderHotels.Some? && |rooms| > 1 then
      Score(rooms, true, OrderPrices(orderHotels.value, rooms).value, |RoomNeeds(rooms)|, |rooms|)
    else
      Score(rooms, HotelsOfferingAll(hotels, rooms) != {}, SumPrices(hotels, rooms), |RoomNeeds(rooms)|, |rooms|)
  }

  function SplitRank(s: Score): seq<int> {
    [Flag(s.oneHotel), s.price, s.distinctShapes, s.roomCount]
  }

  predicate NoneEmpty(splits: seq<seq<Shape>>) {
    forall i | 0 <= i < |splits| :: splits[i] != []
  }

  function Scores(hotels: seq<Hotel>, orderHotels: Option<seq<Hotel>>, splits: seq<seq<Shape>>): seq<Score>
    requires NoneEmpty(splits)
  {
    if splits == [] then []
    else if Coverable(hotels, orderHotels, splits[0]) then
      [ScoreOf(hotels, orderHotels, splits[0])] + Scores(hotels, orderHotels, splits[1..])
    else Scores(hotels, orderHotels, splits[1..])
  }

  function SplitsOf(plan: SplitPlan): seq<seq<Shape>> {
    [plan.preferred] + plan.fallbacks
  }

  predicate NoEmptySplit(plan: SplitPlan) {
    NoneEmpty(SplitsOf(plan))
  }

  function RankSplits(plan: SplitPlan, hotels: seq<Hotel>, orderHotels: Option<seq<Hotel>>): Option<seq<Shape>>
    requires NoEmptySplit(plan)
  {
    var ranked := Sort(SplitRank, Scores(hotels, orderHotels, SplitsOf(plan)));
    if ranked == [] then None else Some(ranked[0].rooms)
  }

  function Qualified(hotels: seq<Hotel>, minStars: int): seq<Hotel> {
    Filter((h: Hotel) => h.stars >= minStars, hotels)
  }

  function QualifiedOrders(orderHotels: Option<seq<Hotel>>, minStars: int): Option<seq<Hotel>> {
    if orderHotels.None? then None else Some(Qualified(orderHotels.value, minStars))
  }

  /** Among qualified hotels if they cover any split, else among all, else the preferred split. */
  function ChooseRoomSplit(
    plan: SplitPlan, hotels: seq<Hotel>, orderHotels: Option<seq<Hotel>>, minStars: int): seq<Shape>
    requires NoEmptySplit(plan)
  {
    var first := RankSplits(plan, Qualified(hotels, minStars), QualifiedOrders(orderHotels, minStars));
    if first.Some? then first.value else
      var second := RankSplits(plan, hotels, orderHotels);
      if second.Some? then second.value else plan.preferred
  }

  // ---- What the choice promises ---------------------------------------------------------------

  lemma {:induction false} ScoresAre(hotels: seq<Hotel>, orderHotels: Option<seq<Hotel>>, splits: seq<seq<Shape>>, s: Score)
    requires NoneEmpty(splits)
    ensures s in Scores(hotels, orderHotels, splits) <==>
      s.rooms in splits && Coverable(hotels, orderHotels, s.rooms) && s == ScoreOf(hotels, orderHotels, s.rooms)
  {
    if splits != [] {
      ScoresAre(hotels, orderHotels, splits[1..], s);
      assert splits == [splits[0]] + splits[1..];
    }
  }

  /** The chosen split can be covered, and no split of the plan that can be ranks before it. */
  lemma {:induction false} BestSplit(plan: SplitPlan, hotels: seq<Hotel>, orderHotels: Option<seq<Hotel>>)
    requires NoEmptySplit(plan)
    ensures var best := RankSplits(plan, hotels, orderHotels);
      && (best.None? <==> forall rooms | rooms in SplitsOf(plan) :: !Coverable(hotels, orderHotels, rooms))
      && (best.Some? ==>
            && best.value in SplitsOf(plan) && Coverable(hotels, orderHotels, best.value)
            && forall rooms | rooms in SplitsOf(plan) && Coverable(hotels, orderHotels, rooms) ::
                 LexLeq(SplitRank(ScoreOf(hotels, orderHotels, best.value)), SplitRank(ScoreOf(hotels, orderHotels, rooms))))
  {
    var scores := Scores(hotels, orderHotels, SplitsOf(plan));
    var ranked := Sort(SplitRank, scores);
    SortIsSortedPermutation(SplitRank, scores);
    SortKeepsElements(SplitRank, scores);
    if ranked != [] {
      assert ranked[0] in scores;
      ScoresAre(hotels, orderHotels, SplitsOf(plan), ranked[0]);
    }
    forall rooms | rooms in SplitsOf(plan) && Coverable(hotels, orderHotels, rooms)
      ensures ranked != []
      ensures LexLeq(SplitRank(ranked[0]), SplitRank(ScoreOf(hotels, orderHotels, rooms)))
    {
      var s := ScoreOf(hotels, orderHotels, rooms);
      ScoresAre(hotels, orderHotels, SplitsOf(plan), s);
      assert s in ranked;
      var i :| 0 <= i < |ranked| && ranked[i] == s;
      RankIsReflexive(s);
    }
  }

  lemma {:induction false} RankIsReflexive(s: Score)
    ensures LexLeq(SplitRank(s), SplitRank(s))
  {
    LexTotal(SplitRank(s), SplitRank(s));
  }

  /** The split is one of the plan's, and the plan's own preference is ignored only for one that can be covered. */
  lemma {:induction false} ChoiceIsFromPlan(plan: SplitPlan, hotels: seq<Hotel>, orderHotels: Option<seq<Hotel>>, minStars: int)
    requires NoEmptySplit(plan)
    ensures var chosen := ChooseRoomSplit(plan, hotels, orderHotels, minStars);
      && chosen in SplitsOf(plan)
      && (chosen != plan.preferred ==>
            Coverable(hotels, orderHotels, chosen)
            || Coverable(Qualified(hotels, minStars), QualifiedOrders(orderHotels, minStars), chosen))
  {
    BestSplit(plan, hotels, orderHotels);
    BestSplit(plan, Qualified(hotels, minStars), QualifiedOrders(orderHotels, minStars));
  }

  /** "In one hotel" means that some hotel offers every room type of the split. */
  lemma {:induction false} OneHotelOffersAll(hotels: seq<Hotel>, rooms: seq<Shape>, code: HotelCode)
    requires rooms != []
    ensures code in HotelsOfferingAll(hotels, rooms) <==> forall room | room in rooms :: code in HotelsOffering(hotels, room)
  {
    if |rooms| > 1 {
      OneHotelOffersAll(hotels, rooms[..|rooms| - 1], code);
      assert rooms == rooms[..|rooms| - 1] + [rooms[|rooms| - 1]];
    }
  }

  /** No configured plan has an empty split: its rooms would hold no adult. */
  lemma {:induction false} ResolvedPlansHaveRooms(adults: int, children: int, plan: SplitPlan)
    requires ResolveRoomSplitPlan(adults, children) == Split(plan)
    ensures NoEmptySplit(plan)
  {
    forall i | 0 <= i < |SplitsOf(plan)|
      ensures SplitsOf(plan)[i] != []
    {
      RuleRoomsAreValid(adults, children, plan, SplitsOf(plan)[i]);
    }
  }

  /** The split planned for a party with a configured rule. */
  function PlannedSplit(
    adults: int, children: int, hotels: seq<Hotel>, orderHotels: Option<seq<Hotel>>, minStars: int): Option<seq<Shape>>
  {
    match ResolveRoomSplitPlan(adults, children)
    case Split(plan) =>
      ResolvedPlansHaveRooms(adults, children, plan);
      Some(ChooseRoomSplit(plan, hotels, orderHotels, minStars))
    case _ => None
  }

  /** One order for several rooms when the supplier books such orders, otherwise room by room. */
  function PlannedCandidates(
    adults: int, children: int, hotels: seq<Hotel>, orderHotels: Option<seq<Hotel>>, pools: Pools, minStars: int,
    c: Collation): seq<Candidate>
  {
    match PlannedSplit(adults, children, hotels, orderHotels, minStars)
    case None => []
    case Some(rooms) =>
      if orderHotels.Some? && |rooms| > 1 then OrderCandidatePlans(orderHotels.value, rooms, minStars, c)
      else CandidatePlans(hotels, RoomNeeds(rooms), pools, minStars, c)
  }

  lemma {:induction false} PlannedSplitIsValid(
    adults: int, children: int, hotels: seq<Hotel>, orderHotels: Option<seq<Hotel>>, minStars: int)
    requires PlannedSplit(adults, children, hotels, orderHotels, minStars).Some?
    ensures ValidateSplit(adults, children, PlannedSplit(adults, children, hotels, orderHotels, minStars).value)
  {
    var plan := ResolveRoomSplitPlan(adults, children).plan;
    ResolvedPlansHaveRooms(adults, children, plan);
    ChoiceIsFromPlan(plan, hotels, orderHotels, minStars);
    RuleRoomsAreValid(adults, children, plan, ChooseRoomSplit(plan, hotels, orderHotels, minStars));
  }

  /**
   End to end for every party: whatever hotels and orders were found, and whichever
   candidate and rates the booking run picks, the rooms sent to the supplier are
   the planned split; they hold exactly the party, with an adult in every room.
   */
  lemma {:induction false} BookedRoomsHoldTheParty(
    adults: int, children: int, hotels: seq<Hotel>, orderHotels: Option<seq<Hotel>>, pools: Pools, minStars: int,
    c: Collation, x: Candidate, stock: Stock, excluded: set<RateKey>, picks: seq<Pick>)
    requires x in PlannedCandidates(adults, children, hotels, orderHotels, pools, minStars, c)
    requires SelectRates(x.rooms, stock, excluded) == Some(picks)
    ensures ValidateSplit(adults, children, Shapes(RoomsSent(picks)))
    ensures var rooms := PlannedSplit(adults, children, hotels, orderHotels, minStars);
      rooms.Some? && multiset(Shapes(RoomsSent(picks))) == multiset(rooms.value)
  {
    PlannedSplitIsValid(adults, children, hotels, orderHotels, minStars);
    var rooms := PlannedSplit(adults, children, hotels, orderHotels, minStars).value;
    if orderHotels.Some? && |rooms| > 1 {
      var rate := OrderPartyIsPreserved(
        adults, children, rooms, orderHotels.value, minStars, c, x, stock, excluded, picks);
    } else {
      PartyIsPreserved(adults, children, rooms, hotels, pools, minStars, c, x, stock, excluded, picks);
    }
  }
}
