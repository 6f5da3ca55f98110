/**
 What the supply of a search list is: rooms, whole orders or whole sets at the
 hotels of its class, and what an early end of the search therefore means.
 */
module SearchSupply {
  import opened Common
  import opened Rooms
  import opened Planner
  import opened Search

  function SumOf<T>(xs: seq<T>, f: T -> int): int {
    if xs == [] then 0 else SumOf(xs[..|xs| - 1], f) + f(xs[|xs| - 1])
  }

  /** Rooms of exactly this type a rate has left; a multiroom order is no room. */
  function FreeAs(shape: Shape): Rate -> int {
    (r: Rate) =>
      if r.rooms.None? && r.adults == shape.adults && r.children == shape.children && r.allotment.Some?
      then r.allotment.value else 0
  }

  /** The same, a negative allotment counting as none. */
  function RoomsAs(shape: Shape): Rate -> int {
    (r: Rate) =>
      if r.rooms.None? && r.adults == shape.adults && r.children == shape.children && r.allotment.Some?
      then Max(0, r.allotment.value) else 0
  }

  /** Whole orders of exactly these rooms a rate has left. */
  function OrdersAs(rooms: seq<Shape>): Rate -> int
    requires rooms != []
  {
    (r: Rate) =>
      if r.rooms.Some? && multiset(r.rooms.value) == multiset(rooms) && r.allotment.Some?
         && r.allotment.value >= |rooms|
      then r.allotment.value / |rooms| else 0
  }

  // ---- Hotels below the class ---------------------------------------------------------

  lemma {:induction false} UnitsOfLast(list: SearchList, hotels: seq<Hotel>, hotel: Hotel)
    requires list.rooms != []
    ensures Units(list, hotels + [hotel]) == Units(list, hotels) + HotelUnits(list, hotel)
  {
    assert (hotels + [hotel])[..|hotels|] == hotels;
  }

  lemma {:induction false} FilterLast(keep: Hotel -> bool, hotels: seq<Hotel>, last: Hotel)
    ensures Filter(keep, hotels + [last]) == Filter(keep, hotels) + if keep(last) then [last] else []
  {
    if hotels == [] {
      assert [] + [last] == [last] && [last][1..] == [];
      assert Filter(keep, [last]) == if keep(last) then [last] else [];
    } else {
      assert (hotels + [last])[0] == hotels[0] && (hotels + [last])[1..] == hotels[1..] + [last];
      FilterLast(keep, hotels[1..], last);
    }
  }

  function InClass(minStars: int): Hotel -> bool {
    (h: Hotel) => h.stars >= minStars
  }

  /** Hotels below the list's minimum stars add nothing to its supply. */
  lemma {:induction false} BelowClassAddsNothing(list: SearchList, hotels: seq<Hotel>)
    requires list.rooms != []
    ensures Units(list, hotels) == Units(list, Filter(InClass(list.minStars), hotels))
  {
    if hotels != [] {
      var front, last := hotels[..|hotels| - 1], hotels[|hotels| - 1];
      BelowClassAddsNothing(list, front);
      FilterLast(InClass(list.minStars), front, last);
      assert front + [last] == hotels;
      KeptOrNothing(list, Filter(InClass(list.minStars), front), last);
    }
  }

  lemma {:induction false} KeptOrNothing(list: SearchList, kept: seq<Hotel>, last: Hotel)
    requires list.rooms != []
    ensures Units(list, kept + if last.stars >= list.minStars then [last] else []) == Units(list, kept) + HotelUnits(list, last)
  {
    UnitsOfLast(list, kept, last);
    assert kept + [] == kept;
  }

  // ---- The three kinds of lists -------------------------------------------------------------

  /** What a hotel holds for a list, in whole rooms, orders or sets. */
  function Holds(list: SearchList, hotel: Hotel): int
    requires list.rooms != []
  {
    match list.key
    case SingleRoom(shape) => SumOf(hotel.rates, FreeAs(shape))
    case AsOrder(_) => SumOf(hotel.rates, OrdersAs(list.rooms))
    case AsSet(_) => HotelSetCapacity(hotel.rates, list.rooms)
  }

  function HoldsInClass(list: SearchList): Hotel -> int
    requires list.rooms != []
  {
    (h: Hotel) => if h.stars >= list.minStars then Holds(list, h) else 0
  }

  /** A list is for the rooms its key says. */
  predicate Keyed(list: SearchList) {
    && list.rooms != []
    && match list.key
       case SingleRoom(shape) => list.rooms == [shape]
       case AsOrder(combination) => multiset(list.rooms) == combination && |list.rooms| > 1
       case AsSet(combination) => multiset(list.rooms) == combination && |list.rooms| > 1
  }

  lemma {:induction false} RateUnitsAre(list: SearchList, rate: Rate)
    requires Keyed(list) && !list.key.AsSet?
    ensures RateUnits(list, rate) ==
      match list.key case SingleRoom(shape) => FreeAs(shape)(rate) case _ => OrdersAs(list.rooms)(rate)
  {
  }

  lemma {:induction false} RatesUnitsAre(list: SearchList, rates: seq<Rate>)
    requires Keyed(list) && !list.key.AsSet?
    ensures RatesUnits(list, rates) ==
      match list.key
      case SingleRoom(shape) => SumOf(rates, FreeAs(shape))
      case _ => SumOf(rates, OrdersAs(list.rooms))
  {
    if rates != [] {
      RatesUnitsAre(list, rates[..|rates| - 1]);
      RateUnitsAre(list, rates[|rates| - 1]);
    }
  }

  lemma {:induction false} UnitsAre(list: SearchList, hotels: seq<Hotel>)
    requires Keyed(list)
    ensures Units(list, hotels) == SumOf(hotels, HoldsInClass(list))
  {
    if hotels != [] {
      UnitsAre(list, hotels[..|hotels| - 1]);
      if !list.key.AsSet? {
        RatesUnitsAre(list, hotels[|hotels| - 1].rates);
      }
    }
  }

  /** The hotels a list is supplied from: offers of whole orders, or of rooms. */
  function HotelsFor(list: SearchList, found: Found): seq<Hotel> {
    match list.key case AsOrder(_) => found.orderHotels case _ => found.hotels
  }

  /**
   The supply of a list is the sum, over the hotels with enough stars and no other,
   of free rooms of exactly its type, of whole orders of its rooms, or of whole sets.
   */
  lemma {:induction false} SupplyIs(list: SearchList, found: Found)
    requires Keyed(list)
    ensures Supply(list, found) == SumOf(HotelsFor(list, found), HoldsInClass(list))
  {
    UnitsAre(list, HotelsFor(list, found));
  }

  /** Free rooms of a type, as the set capacity counts them: a negative allotment counts as none. */
  lemma {:induction false} FreeRoomsAre(rates: seq<Rate>, shape: Shape)
    ensures FreeRooms(rates, shape) == SumOf(rates, RoomsAs(shape))
  {
    if rates != [] {
      FreeRoomsAre(rates[..|rates| - 1], shape);
    }
  }

  /** Whole sets: k fit into a hotel if and only if it has k times the rooms of each type. */
  lemma {:induction false} SetsFit(list: SearchList, hotel: Hotel, k: nat)
    requires Keyed(list) && list.key.AsSet?
    ensures k <= Holds(list, hotel) <==>
      forall room | room in list.rooms ::
        k * multiset(list.rooms)[room] <= SumOf(hotel.rates, RoomsAs(room))
  {
    SetCapacityIsLargest(hotel.rates, list.rooms, k);
    forall room | room in list.rooms
      ensures FreeRooms(hotel.rates, room) == SumOf(hotel.rates, RoomsAs(room))
    {
      FreeRoomsAre(hotel.rates, room);
    }
  }

  // ---- The lists of a search --------------------------------------------------------------------

  predicate AllKeyed(entries: seq<SearchList>) {
    forall e | e in entries :: Keyed(e)
  }

  lemma {:induction false} SinglesAreKeyed(split: seq<Shape>, minStars: int, needed: nat)
    ensures AllKeyed(SingleLists(split, minStars, needed))
  {
    if split != [] { SinglesAreKeyed(split[..|split| - 1], minStars, needed); }
  }

  lemma {:induction false} SplitListsAreKeyed(split: seq<Shape>, minStars: int, needed: nat, multiRoomOrders: bool)
    ensures AllKeyed(SplitLists(split, minStars, needed, multiRoomOrders))
  {
    SinglesAreKeyed(split, minStars, needed);
  }

  lemma {:induction false} FallbacksAreKeyed(splits: seq<seq<Shape>>, minStars: int, multiRoomOrders: bool)
    ensures AllKeyed(FallbackLists(splits, minStars, multiRoomOrders))
  {
    if splits != [] {
      FallbacksAreKeyed(splits[..|splits| - 1], minStars, multiRoomOrders);
      SplitListsAreKeyed(splits[|splits| - 1], minStars, 0, multiRoomOrders);
    }
  }

  lemma {:induction false} AdditionsAreKeyed(demand: seq<Demand>, multiRoomOrders: bool)
    ensures AllKeyed(Additions(demand, multiRoomOrders))
  {
    if demand != [] {
      var d := demand[|demand| - 1];
      AdditionsAreKeyed(demand[..|demand| - 1], multiRoomOrders);
      SplitListsAreKeyed(d.plan.preferred, d.minStars, 1, multiRoomOrders);
      FallbacksAreKeyed(d.plan.fallbacks, d.minStars, multiRoomOrders);
    }
  }

  lemma {:induction false} ListsAreKeyed(entries: seq<SearchList>)
    requires AllKeyed(entries)
    ensures AllKeyed(Lists(entries))
  {
    if entries != [] {
      var before, last := Lists(entries[..|entries| - 1]), entries[|entries| - 1];
      ListsAreKeyed(entries[..|entries| - 1]);
      forall l | l in AddList(before, last) ensures Keyed(l) {
        var n :| 0 <= n < |AddList(before, last)| && AddList(before, last)[n] == l;
        assert n < |before| ==> before[n] in before;
      }
    }
  }

  /** How often a key is asked for by one split of a PNR. */
  function AsksFor(split: seq<Shape>, key: ListKey, multiRoomOrders: bool): nat {
    match key
    case SingleRoom(shape) => if multiRoomOrders && |split| > 1 then 0 else multiset(split)[shape]
    case AsOrder(combination) => if multiRoomOrders && |split| > 1 && combination == multiset(split) then 1 else 0
    case AsSet(combination) => if !multiRoomOrders && |split| > 1 && combination == multiset(split) then 1 else 0
  }

  function CountKey(entries: seq<SearchList>, key: ListKey): nat {
    if entries == [] then 0 else
      CountKey(entries[..|entries| - 1], key) + if entries[|entries| - 1].key == key then 1 else 0
  }

  lemma {:induction false} CountLast(entries: seq<SearchList>, e: SearchList, key: ListKey)
    ensures CountKey(entries + [e], key) == CountKey(entries, key) + if e.key == key then 1 else 0
  {
    assert (entries + [e])[..|entries|] == entries;
  }

  lemma {:induction false} CountSingles(split: seq<Shape>, minStars: int, needed: nat, key: ListKey)
    ensures CountKey(SingleLists(split, minStars, needed), key)
         == match key case SingleRoom(shape) => multiset(split)[shape] case _ => 0
  {
    if split != [] {
      var front, last := split[..|split| - 1], split[|split| - 1];
      CountSingles(front, minStars, needed, key);
      CountLast(SingleLists(front, minStars, needed), SearchList(SingleRoom(last), [last], minStars, needed), key);
      assert split == front + [last];
      if key.SingleRoom? {
        CountOfLast(front, last, key.shape);
      }
    }
  }

  /**
   A split asks for one order of its rooms if it has several and the supplier books
   such orders; otherwise for each of its rooms, and for a whole set if it has several.
   */
  lemma {:induction false} SplitAsksFor(split: seq<Shape>, minStars: int, needed: nat, multiRoomOrders: bool, key: ListKey)
    ensures CountKey(SplitLists(split, minStars, needed, multiRoomOrders), key) == AsksFor(split, key, multiRoomOrders)
    ensures forall e | e in SplitLists(split, minStars, needed, multiRoomOrders) ::
              Keyed(e) && e.minStars == minStars && e.needed == needed
  {
    var single := SingleLists(split, minStars, needed);
    SplitListsAreKeyed(split, minStars, needed, multiRoomOrders);
    SinglesAsk(split, minStars, needed);
    if multiRoomOrders && |split| > 1 {
      CountLast([], SearchList(AsOrder(multiset(split)), split, minStars, needed), key);
      assert [] + [SearchList(AsOrder(multiset(split)), split, minStars, needed)]
          == SplitLists(split, minStars, needed, multiRoomOrders);
    } else {
      CountSingles(split, minStars, needed, key);
      if |split| > 1 {
        CountLast(single, SearchList(AsSet(multiset(split)), split, minStars, needed), key);
      } else {
        assert SplitLists(split, minStars, needed, multiRoomOrders) == single;
      }
    }
  }

  lemma {:induction false} SinglesAsk(split: seq<Shape>, minStars: int, needed: nat)
    ensures forall e | e in SingleLists(split, minStars, needed) :: e.minStars == minStars && e.needed == needed
  {
    if split != [] { SinglesAsk(split[..|split| - 1], minStars, needed); }
  }

  /** What a PNR adds: its preferred split, needed once, and its fallbacks, needed by nobody yet. */
  lemma {:induction false} DemandAdds(demand: seq<Demand>, d: Demand, multiRoomOrders: bool)
    ensures Additions(demand + [d], multiRoomOrders)
         == Additions(demand, multiRoomOrders)
            + (SplitLists(d.plan.preferred, d.minStars, 1, multiRoomOrders)
               + FallbackLists(d.plan.fallbacks, d.minStars, multiRoomOrders))
    ensures forall split | split in d.plan.fallbacks ::
              forall e | e in SplitLists(split, d.minStars, 0, multiRoomOrders) ::
                e in FallbackLists(d.plan.fallbacks, d.minStars, multiRoomOrders)
    ensures forall e | e in FallbackLists(d.plan.fallbacks, d.minStars, multiRoomOrders) :: e.needed == 0
  {
    assert (demand + [d])[..|demand|] == demand;
    FallbacksAdd(d.plan.fallbacks, d.minStars, multiRoomOrders);
  }

  lemma {:induction false} FallbacksAdd(splits: seq<seq<Shape>>, minStars: int, multiRoomOrders: bool)
    ensures forall split | split in splits ::
              forall e | e in SplitLists(split, minStars, 0, multiRoomOrders) :: e in FallbackLists(splits, minStars, multiRoomOrders)
    ensures forall e | e in FallbackLists(splits, minStars, multiRoomOrders) :: e.needed == 0
  {
    if splits != [] {
      var front, last := splits[..|splits| - 1], splits[|splits| - 1];
      FallbacksAdd(front, minStars, multiRoomOrders);
      SplitAsksFor(last, minStars, 0, multiRoomOrders, AsSet(multiset{}));
      assert splits == front + [last];
    }
  }

  /** The hotels found hold enough for a list: at least one, and its needs times the buffer ratio. */
  predicate Enough(list: SearchList, found: Found, ratio: Ratio)
    requires list.rooms != []
  {
    var supply := SumOf(HotelsFor(list, found), HoldsInClass(list));
    supply >= 1 && supply * ratio.den >= list.needed * ratio.num
  }

  /**
   When the search returns, the lists still short are exactly those for which the
   hotels of their class hold too little; it stopped before the last ring only if
   they hold enough for every list.
   */
  lemma {:induction false} EarlyStopMeansEnough(
    demand: seq<Demand>, multiRoomOrders: bool, firstRing: int, lastRing: int, ratio: Ratio, supplier: Supplier)
    requires ratio.den > 0 && AnswersAreNonNegative(supplier)
    ensures var lists := Lists(Additions(demand, multiRoomOrders));
      var (end, left, next) := Widen(Found([], []), lists, firstRing, lastRing, ratio, supplier);
      && AllKeyed(lists)
      && (forall l | l in lists :: l in left <==> !Enough(l, end, ratio))
      && (next > lastRing || forall l | l in lists :: Enough(l, end, ratio))
  {
    var lists := Lists(Additions(demand, multiRoomOrders));
    var end := Widen(Found([], []), lists, firstRing, lastRing, ratio, supplier).0;
    AdditionsAreKeyed(demand, multiRoomOrders);
    ListsAreKeyed(Additions(demand, multiRoomOrders));
    DroppedListsStaySatisfied(demand, multiRoomOrders, firstRing, lastRing, ratio, supplier);
    forall l | l in lists ensures Enough(l, end, ratio) <==> Supply(l, end) >= Target(l, ratio) {
      SupplyIs(l, end);
      if Supply(l, end) >= 1 {
        TargetIsCeiling(l, ratio, Supply(l, end));
      }
    }
  }
}
