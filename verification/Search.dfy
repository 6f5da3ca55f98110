/**
 The hotel search: one list per room type or combination, searched ring by ring
 until every list has enough rooms.
 */
module Search {
  import opened Common
  import opened Rooms
  import opened Ledger
  import opened Planner

  // ---- Search lists ---------------------------------------------------------------

  datatype Demand = Demand(plan: SplitPlan, minStars: int)

  /** One room type, a combination booked as one order, or a combination booked room by room in one hotel. */
  datatype ListKey = SingleRoom(shape: Shape) | AsOrder(combination: multiset<Shape>) | AsSet(combination: multiset<Shape>)

  datatype SearchList = SearchList(key: ListKey, rooms: seq<Shape>, minStars: int, needed: nat)

  function SingleLists(split: seq<Shape>, minStars: int, needed: nat): (entries: seq<SearchList>)
    ensures forall e | e in entries :: e.rooms != []
  {
    if split == [] then [] else
      SingleLists(split[..|split| - 1], minStars, needed)
      + [SearchList(SingleRoom(split[|split| - 1]), [split[|split| - 1]], minStars, needed)]
  }

  /** What one split of a PNR adds to the lists. */
  function SplitLists(split: seq<Shape>, minStars: int, needed: nat, multiRoomOrders: bool): (entries: seq<SearchList>)
    ensures forall e | e in entries :: e.rooms != []
  {
    if multiRoomOrders && |split| > 1 then [SearchList(AsOrder(multiset(split)), split, minStars, needed)]
    else
      SingleLists(split, minStars, needed)
      + if |split| > 1 then [SearchList(AsSet(multiset(split)), split, minStars, needed)] else []
  }

  function FallbackLists(splits: seq<seq<Shape>>, minStars: int, multiRoomOrders: bool): (entries: seq<SearchList>)
    ensures forall e | e in entries :: e.rooms != []
  {
    if splits == [] then [] else
      FallbackLists(splits[..|splits| - 1], minStars, multiRoomOrders)
      + SplitLists(splits[|splits| - 1], minStars, 0, multiRoomOrders)
  }

  /** Every addition to the lists, in order: only preferred splits are needed. */
  function Additions(demand: seq<Demand>, multiRoomOrders: bool): (entries: seq<SearchList>)
    ensures forall e | e in entries :: e.rooms != []
  {
    if demand == [] then [] else
      var d := demand[|demand| - 1];
      Additions(demand[..|demand| - 1], multiRoomOrders)
      + (SplitLists(d.plan.preferred, d.minStars, 1, multiRoomOrders)
         + FallbackLists(d.plan.fallbacks, d.minStars, multiRoomOrders))
  }

  function FindList(lists: seq<SearchList>, key: ListKey): (r: Option<nat>)
    ensures r.Some? ==> r.value < |lists| && lists[r.value].key == key
    ensures r.None? ==> forall l | l in lists :: l.key != key
  {
    if lists == [] then None
    else if lists[0].key == key then Some(0)
    else match FindList(lists[1..], key) case None => None case Some(i) => Some(i + 1)
  }

  function AddList(lists: seq<SearchList>, e: SearchList): seq<SearchList> {
    match FindList(lists, e.key)
    case None => lists + [e]
    case Some(i) =>
      lists[i := lists[i].(minStars := Max(lists[i].minStars, e.minStars), needed := lists[i].needed + e.needed)]
  }

  function Lists(entries: seq<SearchList>): seq<SearchList> {
    if entries == [] then [] else AddList(Lists(entries[..|entries| - 1]), entries[|entries| - 1])
  }

  method BuildLists(entries: seq<SearchList>) returns (lists: seq<SearchList>)
    ensures lists == Lists(entries)
  {
    lists := [];
    for n := 0 to |entries|
      invariant lists == Lists(entries[..n])
    {
      assert entries[..n + 1][..n] == entries[..n];
      lists := AddList(lists, entries[n]);
    }
    assert entries[..|entries|] == entries;
  }

  function NeededFor(entries: seq<SearchList>, key: ListKey): nat {
    if entries == [] then 0 else
      NeededFor(entries[..|entries| - 1], key)
      + if entries[|entries| - 1].key == key then entries[|entries| - 1].needed else 0
  }

  predicate DistinctKeys(lists: seq<SearchList>) {
    forall i, j | 0 <= i < j < |lists| :: lists[i].key != lists[j].key
  }

  /** A list asks for the sum of what was added under its key, at the highest minimum stars. */
  predicate SumsUp(list: SearchList, entries: seq<SearchList>) {
    && list.needed == NeededFor(entries, list.key)
    && (forall e | e in entries && e.key == list.key :: e.minStars <= list.minStars)
    && exists e | e in entries && e.key == list.key :: e.minStars == list.minStars
  }

  lemma {:induction false} NothingNeeded(entries: seq<SearchList>, key: ListKey)
    requires forall e | e in entries :: e.key != key
    ensures NeededFor(entries, key) == 0
  {
    if entries != [] { NothingNeeded(entries[..|entries| - 1], key); }
  }

  lemma {:induction false} AddListSumsUp(lists: seq<SearchList>, entries: seq<SearchList>, e: SearchList, n: nat)
    requires n < |AddList(lists, e)| && DistinctKeys(lists)
    requires forall l | l in lists :: SumsUp(l, entries)
    requires forall x | x in entries :: FindList(lists, x.key).Some?
    ensures SumsUp(AddList(lists, e)[n], entries + [e])
  {
    var list := AddList(lists, e)[n];
    assert (entries + [e])[..|entries|] == entries;
    assert e in entries + [e] && forall x | x in entries :: x in entries + [e];
    if n < |lists| {
      assert SumsUp(lists[n], entries);
      var x :| x in entries && x.key == lists[n].key && x.minStars == lists[n].minStars;
      assert x in entries + [e];
    } else {
      NothingNeeded(entries, e.key);
    }
  }

  /** One list per key, each with the sum of its needs and the highest of its minimum stars. */
  lemma {:induction false} ListsSumUp(entries: seq<SearchList>)
    ensures DistinctKeys(Lists(entries))
    ensures forall l | l in Lists(entries) :: SumsUp(l, entries)
    ensures forall e | e in entries :: FindList(Lists(entries), e.key).Some?
  {
    if entries != [] {
      var front, last := entries[..|entries| - 1], entries[|entries| - 1];
      ListsSumUp(front);
      assert entries == front + [last];
      var before, after := Lists(front), Lists(entries);
      forall l | l in after
        ensures SumsUp(l, entries)
      {
        var n :| 0 <= n < |after| && after[n] == l;
        AddListSumsUp(before, front, last, n);
      }
      forall e | e in entries
        ensures FindList(after, e.key).Some?
      {
        var i := if e in front then FindList(before, e.key) else FindList(before, last.key);
        if i.Some? {
          assert after[i.value].key == e.key;
        } else {
          assert after[|before|] == last;
        }
      }
    }
  }

  lemma {:induction false} NeededForLast(entries: seq<SearchList>, e: SearchList, key: ListKey)
    ensures NeededFor(entries + [e], key) == NeededFor(entries, key) + if e.key == key then e.needed else 0
  {
    assert (entries + [e])[..|entries|] == entries;
  }

  lemma {:induction false} CountOfLast(split: seq<Shape>, last: Shape, shape: Shape)
    ensures multiset(split + [last])[shape] == multiset(split)[shape] + if last == shape then 1 else 0
  {
  }

  lemma {:induction false} SingleNeeds(split: seq<Shape>, minStars: int, shape: Shape)
    ensures NeededFor(SingleLists(split, minStars, 1), SingleRoom(shape)) == multiset(split)[shape]
  {
    if split != [] {
      var front, last := split[..|split| - 1], split[|split| - 1];
      SingleNeeds(front, minStars, shape);
      NeededForLast(
        SingleLists(front, minStars, 1), SearchList(SingleRoom(last), [last], minStars, 1), SingleRoom(shape));
      CountOfLast(front, last, shape);
      assert split == front + [last];
    }
  }

  /** Room by room, a preferred split needs exactly its rooms of each type. */
  lemma {:induction false} SplitNeedsItsRooms(split: seq<Shape>, minStars: int, shape: Shape)
    ensures NeededFor(SplitLists(split, minStars, 1, false), SingleRoom(shape)) == multiset(split)[shape]
  {
    SingleNeeds(split, minStars, shape);
    var single := SingleLists(split, minStars, 1);
    if |split| > 1 {
      NeededForLast(single, SearchList(AsSet(multiset(split)), split, minStars, 1), SingleRoom(shape));
    } else {
      assert SplitLists(split, minStars, 1, false) == single;
    }
  }

  // ---- Supply ---------------------------------------------------------------------------

  function RateUnits(list: SearchList, rate: Rate): int
    requires list.rooms != []
  {
    match list.key
    case AsOrder(_) => if IsOrderRate(rate, list.rooms) then FreeOf(rate) / |list.rooms| else 0
    case _ => if rate.rooms.None? && RateShape(rate) == list.rooms[0] then FreeOf(rate) / |list.rooms| else 0
  }

  function RatesUnits(list: SearchList, rates: seq<Rate>): int
    requires list.rooms != []
  {
    if rates == [] then 0 else RatesUnits(list, rates[..|rates| - 1]) + RateUnits(list, rates[|rates| - 1])
  }

  /** Rooms, orders or whole sets this hotel adds to a list. */
  function HotelUnits(list: SearchList, hotel: Hotel): int
    requires list.rooms != []
  {
    if hotel.stars < list.minStars then 0
    else if list.key.AsSet? then HotelSetCapacity(hotel.rates, list.rooms)
    else RatesUnits(list, hotel.rates)
  }

  function Units(list: SearchList, hotels: seq<Hotel>): int
    requires list.rooms != []
  {
    if hotels == [] then 0 else Units(list, hotels[..|hotels| - 1]) + HotelUnits(list, hotels[|hotels| - 1])
  }

  datatype Found = Found(hotels: seq<Hotel>, orderHotels: seq<Hotel>)

  function Supply(list: SearchList, found: Found): int
    requires list.rooms != []
  {
    Units(list, if list.key.AsOrder? then found.orderHotels else found.hotels)
  }

  /** The supply buffer ratio, as a fraction. */
  datatype Ratio = Ratio(num: nat, den: nat)

  function Ceiling(n: nat, d: nat): nat
    requires d > 0
  {
    (n + d - 1) / d
  }

  function Target(list: SearchList, ratio: Ratio): nat
    requires ratio.den > 0
  {
    Max(1, Ceiling(list.needed * ratio.num, ratio.den))
  }

  predicate IsShort(list: SearchList, found: Found, ratio: Ratio)
    requires ratio.den > 0
  {
    list.rooms != [] && Supply(list, found) < Target(list, ratio)
  }

  // ---- Merging a ring ---------------------------------------------------------------------

  function FindHotel(hotels: seq<Hotel>, code: HotelCode): (r: Option<nat>)
    ensures r.Some? ==> r.value < |hotels| && hotels[r.value].code == code
    ensures r.None? ==> forall h | h in hotels :: h.code != code
  {
    if hotels == [] then None
    else if hotels[0].code == code then Some(0)
    else match FindHotel(hotels[1..], code) case None => None case Some(i) => Some(i + 1)
  }

  function RateKeys(rates: seq<Rate>): set<RateKey> {
    set r | r in rates :: r.rateKey
  }

  /** A hotel seen before keeps its stars and ring and gains the rates it did not have. */
  function KeepHotel(into: seq<Hotel>, hotel: Hotel, ring: int): seq<Hotel> {
    match FindHotel(into, hotel.code)
    case None => into + [hotel.(radius := ring)]
    case Some(i) =>
      var known := RateKeys(into[i].rates);
      into[i := into[i].(rates := into[i].rates + Filter((r: Rate) => r.rateKey !in known, hotel.rates))]
  }

  function Keep(into: seq<Hotel>, hotels: seq<Hotel>, ring: int): seq<Hotel> {
    if hotels == [] then into else KeepHotel(Keep(into, hotels[..|hotels| - 1], ring), hotels[|hotels| - 1], ring)
  }

  method KeepRing(into: seq<Hotel>, hotels: seq<Hotel>, ring: int) returns (kept: seq<Hotel>)
    ensures kept == Keep(into, hotels, ring)
  {
    kept := into;
    for n := 0 to |hotels|
      invariant kept == Keep(into, hotels[..n], ring)
    {
      assert hotels[..n + 1][..n] == hotels[..n];
      var known := FindHotel(kept, hotels[n].code);
      if known.None? {
        kept := kept + [hotels[n].(radius := ring)];
      } else {
        var keys := RateKeys(kept[known.value].rates);
        kept := kept[known.value := kept[known.value].(
          rates := kept[known.value].rates + Filter((r: Rate) => r.rateKey !in keys, hotels[n].rates))];
      }
    }
    assert hotels[..|hotels|] == hotels;
  }

  // ---- Supply never falls -------------------------------------------------------------------

  predicate NonNegative(hotels: seq<Hotel>) {
    forall h | h in hotels :: forall r | r in h.rates :: FreeOf(r) >= 0
  }

  lemma {:induction false} UnitsOfMoreRates(list: SearchList, rates: seq<Rate>, more: seq<Rate>)
    requires list.rooms != [] && forall r | r in more :: FreeOf(r) >= 0
    ensures RatesUnits(list, rates + more) >= RatesUnits(list, rates)
    decreases |more|
  {
    if more == [] {
      assert rates + more == rates;
    } else {
      UnitsOfOneMore(list, rates, more[0]);
      UnitsOfMoreRates(list, rates + [more[0]], more[1..]);
      assert rates + more == (rates + [more[0]]) + more[1..];
    }
  }

  lemma {:induction false} UnitsOfOneMore(list: SearchList, rates: seq<Rate>, rate: Rate)
    requires list.rooms != [] && FreeOf(rate) >= 0
    ensures RatesUnits(list, rates + [rate]) >= RatesUnits(list, rates)
  {
    assert (rates + [rate])[..|rates|] == rates;
  }

  lemma {:induction false} FreeOfMoreRates(rates: seq<Rate>, more: seq<Rate>, shape: Shape)
    ensures FreeRooms(rates + more, shape) >= FreeRooms(rates, shape)
    decreases |more|
  {
    if more == [] {
      assert rates + more == rates;
    } else {
      assert (rates + [more[0]])[..|rates|] == rates;
      FreeOfMoreRates(rates + [more[0]], more[1..], shape);
      assert rates + more == (rates + [more[0]]) + more[1..];
    }
  }

  lemma {:induction false} MoreRatesHelp(list: SearchList, hotel: Hotel, more: seq<Rate>)
    requires list.rooms != [] && forall r | r in more :: FreeOf(r) >= 0
    ensures HotelUnits(list, hotel.(rates := hotel.rates + more)) >= HotelUnits(list, hotel)
  {
    UnitsOfMoreRates(list, hotel.rates, more);
    var k := HotelSetCapacity(hotel.rates, list.rooms);
    SetCapacityIsLargest(hotel.rates, list.rooms, k);
    SetCapacityIsLargest(hotel.rates + more, list.rooms, k);
    forall room | room in list.rooms
      ensures k * multiset(list.rooms)[room] <= FreeRooms(hotel.rates + more, room)
    {
      FreeOfMoreRates(hotel.rates, more, room);
    }
  }

  lemma {:induction false} UnitsAfterUpdate(list: SearchList, hotels: seq<Hotel>, i: nat, hotel: Hotel)
    requires list.rooms != [] && i < |hotels|
    ensures Units(list, hotels[i := hotel]) == Units(list, hotels) - HotelUnits(list, hotels[i]) + HotelUnits(list, hotel)
  {
    var n := |hotels| - 1;
    if i == n {
      assert hotels[i := hotel][..n] == hotels[..n];
    } else {
      UnitsAfterUpdate(list, hotels[..n], i, hotel);
      assert hotels[i := hotel][..n] == hotels[..n][i := hotel];
    }
  }

  lemma {:induction false} KeepHotelHelps(list: SearchList, into: seq<Hotel>, hotel: Hotel, ring: int)
    requires list.rooms != [] && forall r | r in hotel.rates :: FreeOf(r) >= 0
    ensures Units(list, KeepHotel(into, hotel, ring)) >= Units(list, into)
  {
    match FindHotel(into, hotel.code)
    case None =>
      var added := hotel.(radius := ring);
      assert (into + [added])[..|into|] == into;
      UnitsOfMoreRates(list, [], hotel.rates);
      assert [] + hotel.rates == hotel.rates;
    case Some(i) =>
      var known := RateKeys(into[i].rates);
      var more := Filter((r: Rate) => r.rateKey !in known, hotel.rates);
      MoreRatesHelp(list, into[i], more);
      UnitsAfterUpdate(list, into, i, into[i].(rates := into[i].rates + more));
  }

  /** With non-negative allotments, merging a ring never lowers the supply of any list. */
  lemma {:induction false} SupplyNeverFalls(list: SearchList, into: seq<Hotel>, hotels: seq<Hotel>, ring: int)
    requires list.rooms != [] && NonNegative(hotels)
    ensures Units(list, Keep(into, hotels, ring)) >= Units(list, into)
  {
    if hotels != [] {
      SupplyNeverFalls(list, into, hotels[..|hotels| - 1], ring);
      assert hotels[|hotels| - 1] in hotels;
      KeepHotelHelps(list, Keep(into, hotels[..|hotels| - 1], ring), hotels[|hotels| - 1], ring);
    }
  }

  // ---- Ring by ring ----------------------------------------------------------------------------

  /** The supplier's answer for a ring and the lists still short; no hotels is an empty answer. */
  type Supplier = (int, seq<SearchList>) -> Found

  function Merge(found: Found, ring: int, answer: Found): Found {
    Found(Keep(found.hotels, answer.hotels, ring), Keep(found.orderHotels, answer.orderHotels, ring))
  }

  /** The lists without enough rooms. */
  function ShortOf(lists: seq<SearchList>, found: Found, ratio: Ratio): (short: seq<SearchList>)
    requires ratio.den > 0
    ensures forall l :: l in short <==> l in lists && IsShort(l, found, ratio)
  {
    Filter(l => IsShort(l, found, ratio), lists)
  }

  /** What one ring does to the hotels found and the lists still short. */
  type RingStep = (Found, seq<SearchList>, int) -> (Found, seq<SearchList>)

  /** Ring after ring until none is left or no list is short. */
  function Rings(step: RingStep, found: Found, short: seq<SearchList>, ring: int, lastRing: int)
    : (Found, seq<SearchList>, int)
    decreases lastRing - ring + 10
  {
    if ring > lastRing || short == [] then (found, short, ring) else
      var (merged, left) := step(found, short, ring);
      Rings(step, merged, left, ring + 10, lastRing)
  }

  function SearchStep(ratio: Ratio, supplier: Supplier): RingStep
    requires ratio.den > 0
  {
    (found: Found, short: seq<SearchList>, ring: int) =>
      var merged := Merge(found, ring, supplier(ring, short));
      (merged, ShortOf(short, merged, ratio))
  }

  /** Where the search ends: what it found, which lists are short, and the ring it would search next. */
  function Widen(
    found: Found, short: seq<SearchList>, ring: int, lastRing: int, ratio: Ratio, supplier: Supplier)
    : (Found, seq<SearchList>, int)
    requires ratio.den > 0
  {
    Rings(SearchStep(ratio, supplier), found, short, ring, lastRing)
  }

  datatype SearchResult = Hotels(found: Found) | NoHotelsFound

  method SearchRing(found: Found, short: seq<SearchList>, ring: int, supplier: Supplier) returns (merged: Found)
    ensures merged == Merge(found, ring, supplier(ring, short))
  {
    var answer := supplier(ring, short);
    var hotels := KeepRing(found.hotels, answer.hotels, ring);
    var orderHotels := KeepRing(found.orderHotels, answer.orderHotels, ring);
    merged := Found(hotels, orderHotels);
  }

  method SearchRings(lists: seq<SearchList>, firstRing: int, lastRing: int, ratio: Ratio, supplier: Supplier)
    returns (found: Found)
    requires ratio.den > 0
    ensures found == Widen(Found([], []), lists, firstRing, lastRing, ratio, supplier).0
  {
    found := Found([], []);
    var short, ring := lists, firstRing;
    ghost var step := SearchStep(ratio, supplier);
    while ring <= lastRing && short != []
      invariant Rings(step, Found([], []), lists, firstRing, lastRing) == Rings(step, found, short, ring, lastRing)
      decreases lastRing - ring
    {
      var merged := SearchRing(found, short, ring, supplier);
      var left := ShortOf(short, merged, ratio);
      assert step(found, short, ring) == (merged, left);
      found, short, ring := merged, left, ring + 10;
    }
  }

  method SearchSplits(
    demand: seq<Demand>, multiRoomOrders: bool, firstRing: int, lastRing: int, ratio: Ratio, supplier: Supplier)
    returns (result: SearchResult)
    requires ratio.den > 0
    ensures
      var found := Widen(
        Found([], []), Lists(Additions(demand, multiRoomOrders)), firstRing, lastRing, ratio, supplier).0;
      result == if found == Found([], []) then NoHotelsFound else Hotels(found)
  {
    var lists := BuildLists(Additions(demand, multiRoomOrders));
    var found := SearchRings(lists, firstRing, lastRing, ratio, supplier);
    result := if |found.hotels| + |found.orderHotels| == 0 then NoHotelsFound else Hotels(found);
  }

  ghost predicate AnswersAreNonNegative(supplier: Supplier) {
    forall ring: int, short: seq<SearchList> ::
      NonNegative(supplier(ring, short).hotels) && NonNegative(supplier(ring, short).orderHotels)
  }

  lemma {:induction false} FilterTwice(lists: seq<SearchList>, before: SearchList -> bool, after: SearchList -> bool)
    requires forall l | l in lists && after(l) :: before(l)
    ensures Filter(after, Filter(before, lists)) == Filter(after, lists)
  {
    if lists != [] {
      FilterTwice(lists[1..], before, after);
    }
  }

  lemma {:induction false} FilterAll(lists: seq<SearchList>, keep: SearchList -> bool)
    requires forall l | l in lists :: keep(l)
    ensures Filter(keep, lists) == lists
  {
    if lists != [] {
      FilterAll(lists[1..], keep);
      assert [lists[0]] + lists[1..] == lists;
    }
  }

  /** A list that was dropped stays dropped, so filtering the short lists again is filtering all lists. */
  lemma {:induction false} RingKeepsShortExact(
    lists: seq<SearchList>, found: Found, ring: int, ratio: Ratio, answer: Found)
    requires ratio.den > 0 && NonNegative(answer.hotels) && NonNegative(answer.orderHotels)
    requires forall l | l in lists :: l.rooms != []
    ensures ShortOf(ShortOf(lists, found, ratio), Merge(found, ring, answer), ratio)
         == ShortOf(lists, Merge(found, ring, answer), ratio)
  {
    var merged := Merge(found, ring, answer);
    forall l | l in lists && IsShort(l, merged, ratio)
      ensures IsShort(l, found, ratio)
    {
      SupplyNeverFalls(l, found.hotels, answer.hotels, ring);
      SupplyNeverFalls(l, found.orderHotels, answer.orderHotels, ring);
    }
    FilterTwice(lists, l => IsShort(l, found, ratio), l => IsShort(l, merged, ratio));
  }

  /** What every ring keeps holds at the end of the search. */
  lemma {:induction false} RingsKeep(
    step: RingStep, keeps: (Found, seq<SearchList>) -> bool, found: Found, short: seq<SearchList>, ring: int, lastRing: int)
    requires keeps(found, short)
    requires forall f, s, r: int | keeps(f, s) :: keeps(step(f, s, r).0, step(f, s, r).1)
    ensures var (end, left, next) := Rings(step, found, short, ring, lastRing);
      keeps(end, left) && (left == [] || next > lastRing)
    decreases lastRing - ring + 10
  {
    if ring <= lastRing && short != [] {
      var (merged, left) := step(found, short, ring);
      RingsKeep(step, keeps, merged, left, ring + 10, lastRing);
    }
  }

  lemma {:induction false} ShortIsExact(
    lists: seq<SearchList>, found: Found, ring: int, lastRing: int, ratio: Ratio, supplier: Supplier)
    requires ratio.den > 0 && AnswersAreNonNegative(supplier)
    requires forall l | l in lists :: l.rooms != []
    ensures var (end, left, next) := Widen(found, ShortOf(lists, found, ratio), ring, lastRing, ratio, supplier);
      left == ShortOf(lists, end, ratio) && (left == [] || next > lastRing)
  {
    var step := SearchStep(ratio, supplier);
    var keeps := (f: Found, s: seq<SearchList>) => s == ShortOf(lists, f, ratio);
    forall f: Found, s: seq<SearchList>, r: int | keeps(f, s)
      ensures keeps(step(f, s, r).0, step(f, s, r).1)
    {
      RingKeepsShortExact(lists, f, r, ratio, supplier(r, s));
    }
    RingsKeep(step, keeps, found, ShortOf(lists, found, ratio), ring, lastRing);
  }

  lemma {:induction false} ListsHaveRooms(entries: seq<SearchList>)
    requires forall e | e in entries :: e.rooms != []
    ensures forall l | l in Lists(entries) :: l.rooms != []
  {
    if entries != [] {
      var before, last := Lists(entries[..|entries| - 1]), entries[|entries| - 1];
      ListsHaveRooms(entries[..|entries| - 1]);
      forall l | l in AddList(before, last)
        ensures l.rooms != []
      {
        var n :| 0 <= n < |AddList(before, last)| && AddList(before, last)[n] == l;
        assert n < |before| ==> before[n] in before;
      }
    }
  }

  /**
   When the search returns, the lists still short are exactly those whose supply
   misses their target now; every list dropped on the way still meets it, and the
   search stopped before the last ring only if no list is short.
   */
  lemma {:induction false} DroppedListsStaySatisfied(
    demand: seq<Demand>, multiRoomOrders: bool, firstRing: int, lastRing: int, ratio: Ratio, supplier: Supplier)
    requires ratio.den > 0 && AnswersAreNonNegative(supplier)
    ensures var lists := Lists(Additions(demand, multiRoomOrders));
      var (end, left, next) := Widen(Found([], []), lists, firstRing, lastRing, ratio, supplier);
      && (forall l | l in lists :: l.rooms != [] && (l in left <==> Supply(l, end) < Target(l, ratio)))
      && (next > lastRing || forall l | l in lists :: Supply(l, end) >= Target(l, ratio))
  {
    var none, lists := Found([], []), Lists(Additions(demand, multiRoomOrders));
    ListsHaveRooms(Additions(demand, multiRoomOrders));
    forall l | l in lists
      ensures IsShort(l, none, ratio)
    {
      assert Supply(l, none) == 0;
    }
    FilterAll(lists, l => IsShort(l, none, ratio));
    ShortIsExact(lists, none, firstRing, lastRing, ratio, supplier);
  }

  /** The target is the smallest whole number not below needed times the ratio, and at least one. */
  lemma {:induction false} TargetIsCeiling(list: SearchList, ratio: Ratio, k: nat)
    requires ratio.den > 0 && k >= 1
    ensures Target(list, ratio) <= k <==> list.needed * ratio.num <= k * ratio.den
  {
    var n, d := list.needed * ratio.num, ratio.den;
    DivisionBound(k + 1, d, n + d - 1);
    assert (k + 1) * d == k * d + d;
  }
}
