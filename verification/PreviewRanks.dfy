/**
 The ranks a preview shows: which hotel of the ranked list each PNR gets, exactly
 when a later PNR can get a better one, and hotels with which it does.
 */
module PreviewRanks {
  import opened Common
  import opened Rooms
  import opened Ledger
  import opened Planner
  import opened RateSelection
  import opened CandidatePlanning
  import opened SharedRates
  import opened Sorting
  import opened AllocationRun
  import opened Preview

  function KeysOf(rooms: seq<RoomPlan>): set<RateKey> {
    set plan, o | plan in rooms && o in plan.options :: o.rateKey
  }

  predicate SameStock(keys: set<RateKey>, a: Stock, b: Stock) {
    forall k | k in keys :: Available(a, k) == Available(b, k)
  }

  lemma {:induction false} FirstUsableIsLocal(
    options: seq<RateOption>, needed: nat, a: Stock, b: Stock, used: Stock, excluded: set<RateKey>)
    requires SameStock(Keys(options), a, b)
    ensures FirstUsable(options, needed, a, used, excluded) == FirstUsable(options, needed, b, used, excluded)
  {
    if options != [] {
      assert options[0].rateKey in Keys(options);
      FirstUsableIsLocal(options[1..], needed, a, b, used, excluded);
    }
  }

  lemma {:induction false} PerRoomIsLocal(rooms: seq<RoomPlan>, a: Stock, b: Stock, used: Stock, excluded: set<RateKey>)
    requires SameStock(KeysOf(rooms), a, b)
    ensures SelectPerRoom(rooms, a, used, excluded) == SelectPerRoom(rooms, b, used, excluded)
  {
    if rooms != [] {
      assert Keys(rooms[0].options) <= KeysOf(rooms);
      FirstUsableIsLocal(rooms[0].options, rooms[0].roomsNeeded, a, b, used, excluded);
      var o := FirstUsable(rooms[0].options, rooms[0].roomsNeeded, a, used, excluded);
      if o.Some? {
        PerRoomIsLocal(rooms[1..], a, b, UseRate(used, o.value.rateKey, rooms[0].roomsNeeded), excluded);
      }
    }
  }

  lemma {:induction false} FirstOrderIsLocal(
    options: seq<RateOption>, rooms: seq<RoomPlan>, a: Stock, b: Stock, excluded: set<RateKey>)
    requires SameStock(Keys(options), a, b)
    ensures FirstOrder(options, rooms, a, excluded) == FirstOrder(options, rooms, b, excluded)
  {
    if options != [] {
      assert options[0].rateKey in Keys(options);
      FirstOrderIsLocal(options[1..], rooms, a, b, excluded);
    }
  }

  /** A selection looks at the stock of its own rates only. */
  lemma {:induction false} SelectionIsLocal(rooms: seq<RoomPlan>, a: Stock, b: Stock, excluded: set<RateKey>)
    requires SameStock(KeysOf(rooms), a, b)
    ensures SelectRates(rooms, a, excluded) == SelectRates(rooms, b, excluded)
  {
    if IsOrderCandidate(rooms) {
      assert Keys(rooms[0].options) <= KeysOf(rooms);
      FirstOrderIsLocal(rooms[0].options, rooms, a, b, excluded);
    } else {
      PerRoomIsLocal(rooms, a, b, map[], excluded);
    }
  }

  lemma {:induction false} TakeTouchesOwnKeys(candidates: seq<Candidate>, stock: Stock, j: nat)
    requires TakeFirst(candidates, stock).0.Some? && j < |candidates|
    requires KeysOf(candidates[j].rooms) !! KeysOf(candidates[TakeFirst(candidates, stock).0.value.index].rooms)
    ensures SameStock(KeysOf(candidates[j].rooms), stock, TakeFirst(candidates, stock).1)
  {
    var (first, left) := TakeFirst(candidates, stock);
    var rooms := candidates[first.value.index].rooms;
    SelectionCanBeClaimed(rooms, stock, {});
    PicksMatchRooms(rooms, stock, {});
    var items := PickItems(first.value.picks);
    forall k | k in Totals(items)
      ensures k in KeysOf(rooms)
    {
      TotalsKeys(items, k);
      var i :| 0 <= i < |items| && items[i].rateKey == k;
      assert OffersKey(rooms[i], k);
    }
  }

  lemma {:induction false} TakeLeavesAtMost(candidates: seq<Candidate>, stock: Stock)
    ensures AtMost(TakeFirst(candidates, stock).1, stock)
  {
  }

  /** No candidate before `rank` can be selected. */
  predicate PassedOver(candidates: seq<Candidate>, stock: Stock, rank: nat) {
    forall j | 0 <= j < rank && j < |candidates| :: !Selectable(candidates[j], {}, stock, {})
  }

  /** Whatever stock is left, no allocation makes a candidate selectable that it passed over. */
  ghost predicate PassedOverForGood(candidates: seq<Candidate>) {
    forall stock: Stock :: TakeFirst(candidates, stock).0.Some? ==>
      PassedOver(candidates, TakeFirst(candidates, stock).1, TakeFirst(candidates, stock).0.value.index)
  }

  /**
   Hotel by hotel: none of its rates is offered by another hotel, or its selection
   never gains from rooms taken away (its room types share no rate, or do not overreach).
   */
  ghost predicate NoGainFromOthers(candidates: seq<Candidate>) {
    forall i | 0 <= i < |candidates| ::
      || Monotone(candidates[i].rooms, {})
      || forall j | 0 <= j < |candidates| && j != i :: KeysOf(candidates[i].rooms) !! KeysOf(candidates[j].rooms)
  }

  lemma {:induction false} NoGainSuffices(candidates: seq<Candidate>)
    requires NoGainFromOthers(candidates)
    ensures PassedOverForGood(candidates)
  {
    forall stock: Stock | TakeFirst(candidates, stock).0.Some?
      ensures PassedOver(candidates, TakeFirst(candidates, stock).1, TakeFirst(candidates, stock).0.value.index)
    {
      var (first, left) := TakeFirst(candidates, stock);
      forall j | 0 <= j < first.value.index
        ensures !Selectable(candidates[j], {}, left, {})
      {
        assert !Selectable(candidates[j], {}, stock, {});
        if Monotone(candidates[j].rooms, {}) {
          TakeLeavesAtMost(candidates, stock);
        } else {
          TakeTouchesOwnKeys(candidates, stock, j);
          SelectionIsLocal(candidates[j].rooms, stock, left, {});
        }
      }
    }
  }

  lemma {:induction false} TakeKeepsPassedOver(candidates: seq<Candidate>, stock: Stock, rank: nat)
    requires PassedOverForGood(candidates) && PassedOver(candidates, stock, rank)
    ensures PassedOver(candidates, TakeFirst(candidates, stock).1, rank)
    ensures TakeFirst(candidates, stock).0.Some? ==>
      rank <= TakeFirst(candidates, stock).0.value.index
      && PassedOver(candidates, TakeFirst(candidates, stock).1, TakeFirst(candidates, stock).0.value.index)
  {
  }

  lemma {:induction false} StaysPassedOver(candidates: seq<Candidate>, stock: Stock, a: nat, n: nat)
    requires PassedOverForGood(candidates) && a < n && Allocations(candidates, stock, n).0[a].Some?
    ensures PassedOver(candidates, Allocations(candidates, stock, n).1, Allocations(candidates, stock, n).0[a].value.index)
  {
    var left := Allocations(candidates, stock, n - 1).1;
    if a == n - 1 {
      TakeKeepsPassedOver(candidates, left, 0);
    } else {
      assert Allocations(candidates, stock, n).0[a] == Allocations(candidates, stock, n - 1).0[a];
      StaysPassedOver(candidates, stock, a, n - 1);
      TakeKeepsPassedOver(candidates, left, Allocations(candidates, stock, n - 1).0[a].value.index);
    }
  }

  lemma {:induction false} AllocationAt(candidates: seq<Candidate>, stock: Stock, k: nat, n: nat)
    requires k < n
    ensures Allocations(candidates, stock, n).0[k] == TakeFirst(candidates, Allocations(candidates, stock, k).1).0
  {
    RepeatExtends(left => TakeFirst(candidates, left), stock, k, n);
  }

  /** A later PNR never gets a better rank, and none after an unserved PNR. */
  ghost predicate Ascending(ranks: seq<Option<Choice>>) {
    forall a, b | 0 <= a < b < |ranks| ::
      ranks[b].Some? ==> ranks[a].Some? && ranks[a].value.index <= ranks[b].value.index
  }

  lemma {:induction false} TwoRanks(candidates: seq<Candidate>, stock: Stock, n: nat, a: nat, b: nat)
    requires PassedOverForGood(candidates) && a < b < n
    ensures var ranks := Allocations(candidates, stock, n).0;
      ranks[b].Some? ==> ranks[a].Some? && ranks[a].value.index <= ranks[b].value.index
  {
    AllocationAt(candidates, stock, a, n);
    AllocationAt(candidates, stock, b, n);
    AllocationAt(candidates, stock, a, b);
    if Allocations(candidates, stock, b).0[a].Some? {
      StaysPassedOver(candidates, stock, a, b);
      TakeKeepsPassedOver(candidates, Allocations(candidates, stock, b).1, Allocations(candidates, stock, b).0[a].value.index);
    } else {
      NullStaysNull(candidates, stock, a, n);
    }
  }

  /** Ranks never fall, in any preview from any stock, if and only if passed-over hotels stay passed over. */
  lemma {:induction false} RanksNeverFallIff(candidates: seq<Candidate>)
    ensures (forall stock: Stock, n: nat :: Ascending(Allocations(candidates, stock, n).0)) <==> PassedOverForGood(candidates)
  {
    if PassedOverForGood(candidates) {
      forall stock: Stock, n: nat
        ensures Ascending(Allocations(candidates, stock, n).0)
      {
        forall a, b | 0 <= a < b < n
          ensures var ranks := Allocations(candidates, stock, n).0;
            ranks[b].Some? ==> ranks[a].Some? && ranks[a].value.index <= ranks[b].value.index
        {
          TwoRanks(candidates, stock, n, a, b);
        }
      }
    } else {
      var stock: Stock :| TakeFirst(candidates, stock).0.Some? &&
        !PassedOver(candidates, TakeFirst(candidates, stock).1, TakeFirst(candidates, stock).0.value.index);
      FreedRankFalls(candidates, stock);
    }
  }

  lemma {:induction false} FreedRankFalls(candidates: seq<Candidate>, stock: Stock)
    requires TakeFirst(candidates, stock).0.Some?
    requires !PassedOver(candidates, TakeFirst(candidates, stock).1, TakeFirst(candidates, stock).0.value.index)
    ensures !Ascending(Allocations(candidates, stock, 2).0)
  {
    FirstAllocations(candidates, stock);
    var (first, left) := TakeFirst(candidates, stock);
    var j :| 0 <= j < first.value.index && j < |candidates| && Selectable(candidates[j], {}, left, {});
    var second := TakeFirst(candidates, left).0;
    assert second.Some? && second.value.index <= j;
    var ranks := Allocations(candidates, stock, 2).0;
    assert ranks[0] == first && ranks[1] == second;
  }

  lemma {:induction false} FirstRepeats(next: Stock -> (Option<Choice>, Stock), stock: Stock)
    ensures var (first, left) := next(stock);
      var (second, rest) := next(left);
      && Repeat(next, stock, 2).0 == [first, second]
      && Repeat(next, stock, 3).0 == [first, second, next(rest).0]
  {
    var (first, left) := next(stock);
    var (second, rest) := next(left);
    assert Repeat(next, stock, 0) == ([], stock);
    assert [] + [first] == [first] && [first] + [second] == [first, second];
    assert Repeat(next, stock, 1) == ([first], left);
    assert Repeat(next, stock, 2) == ([first, second], rest);
  }

  lemma {:induction false} FirstAllocations(candidates: seq<Candidate>, stock: Stock)
    ensures var (first, left) := TakeFirst(candidates, stock);
      var (second, rest) := TakeFirst(candidates, left);
      && Allocations(candidates, stock, 2).0 == [first, second]
      && Allocations(candidates, stock, 3).0 == [first, second, TakeFirst(candidates, rest).0]
  {
    FirstRepeats(left => TakeFirst(candidates, left), stock);
  }

  /**
   So they never fall if every hotel keeps its rates to itself or never gains from
   rooms taken away.
   */
  lemma {:induction false} RanksNeverFall(candidates: seq<Candidate>, stock: Stock, n: nat)
    requires NoGainFromOthers(candidates)
    ensures Ascending(Allocations(candidates, stock, n).0)
  {
    NoGainSuffices(candidates);
    RanksNeverFallIff(candidates);
  }

  // ---- Hotels with which a rank does fall --------------------------------------------------------

  /** Two hotels for two doubles and an adult with a child; both offer rate x, the better one also y, the other z. */
  function RivalHotels(x: RateKey, y: RateKey, z: RateKey): seq<Hotel> {
    [Hotel(HotelCode("a"), 5, 0, [ForTwoAndChild(x, 100, 5), ForThree(y, 120, 2)]),
     Hotel(HotelCode("b"), 4, 0, [ForTwoAndChild(x, 100, 5), ForThree(z, 80, 2)])]
  }

  function OnX(x: RateKey): RateOption { OptionOf(ForTwoAndChild(x, 100, 5), false, None) }

  function OnThree(k: RateKey, price: int): RateOption { OptionOf(ForThree(k, price, 2), false, None) }

  predicate Has(stock: Stock, x: RateKey, y: RateKey, z: RateKey, ofX: nat, ofY: nat, ofZ: nat) {
    Available(stock, x) == ofX && Available(stock, y) == ofY && Available(stock, z) == ofZ
  }

  /** What the candidates of these hotels list. */
  predicate ListRivals(candidates: seq<Candidate>, x: RateKey, y: RateKey, z: RateKey) {
    && |candidates| == 2
    && candidates[0].rooms == FamilyPlans(OnX(x), OnThree(y, 120), OnX(x))
    && candidates[1].rooms == FamilyPlans(OnThree(z, 80), OnX(x), OnX(x))
  }

  lemma {:induction false} PlansOfTwo(first: Hotel, second: Hotel, needs: seq<RoomNeed>, pools: Pools, minStars: int, c: Collation)
    requires first.stars > second.stars >= minStars
    requires BuildCandidate(first, needs, pools, c).Some? && BuildCandidate(second, needs, pools, c).Some?
    ensures CandidatePlans([first, second], needs, pools, minStars, c)
         == [BuildCandidate(first, needs, pools, c).value, BuildCandidate(second, needs, pools, c).value]
  {
    var hotels := [first, second];
    var build := h => BuildCandidate(h, needs, pools, c);
    var a, b := build(first).value, build(second).value;
    assert hotels[..1] == [first] && [first][..0] == [];
    assert Eligible([first], minStars, build) == [] + [a] == [a];
    assert Eligible(hotels, minStars, build) == [a] + [b] == [a, b];
    SortTwo(CandidateRank(c), a, b);
    assert LexLeq(CandidateRank(c)(a), CandidateRank(c)(b));
  }

  lemma {:induction false} BetterRival(x: RateKey, y: RateKey, pools: Pools, c: Collation)
    requires x != y && OutsidePools(pools, {x, y})
    ensures var hotel := Hotel(HotelCode("a"), 5, 0, [ForTwoAndChild(x, 100, 5), ForThree(y, 120, 2)]);
      var built := BuildCandidate(hotel, RoomNeeds(FamilyRooms()), pools, c);
      built.Some? && built.value.rooms == FamilyPlans(OnX(x), OnThree(y, 120), OnX(x))
  {
    FamilyPlansFor(pools, c, ForTwoAndChild(x, 100, 5), ForThree(y, 120, 2));
    FamilyStock(OnX(x), OnThree(y, 120), OnX(x));
    SelectFamily(OnX(x), OnThree(y, 120), OnX(x), map[x := 5, y := 2]);
  }

  lemma {:induction false} OtherRival(x: RateKey, z: RateKey, pools: Pools, c: Collation)
    requires x != z && OutsidePools(pools, {x, z})
    ensures var hotel := Hotel(HotelCode("b"), 4, 0, [ForTwoAndChild(x, 100, 5), ForThree(z, 80, 2)]);
      var built := BuildCandidate(hotel, RoomNeeds(FamilyRooms()), pools, c);
      built.Some? && built.value.rooms == FamilyPlans(OnThree(z, 80), OnX(x), OnX(x))
  {
    FamilyPlansFor(pools, c, ForTwoAndChild(x, 100, 5), ForThree(z, 80, 2));
    FamilyStock(OnThree(z, 80), OnX(x), OnX(x));
    SelectFamily(OnThree(z, 80), OnX(x), OnX(x), map[z := 2, x := 5]);
  }

  lemma {:induction false} RivalsAreListed(x: RateKey, y: RateKey, z: RateKey, pools: Pools, minStars: int, c: Collation)
    requires x != y && x != z && OutsidePools(pools, {x, y, z}) && minStars <= 4
    ensures ListRivals(CandidatePlans(RivalHotels(x, y, z), RoomNeeds(FamilyRooms()), pools, minStars, c), x, y, z)
  {
    var hotels := RivalHotels(x, y, z);
    BetterRival(x, y, pools, c);
    OtherRival(x, z, pools, c);
    PlansOfTwo(hotels[0], hotels[1], RoomNeeds(FamilyRooms()), pools, minStars, c);
  }

  lemma {:induction false} StockOfTwo(candidates: seq<Candidate>)
    requires |candidates| == 2
    ensures OptionStock(candidates) == SnapshotStock(candidates[0].rooms) + SnapshotStock(candidates[1].rooms)
  {
    assert candidates[..1] == [candidates[0]] && candidates[..1][..0] == [];
    assert OptionStock([candidates[0]]) == map[] + SnapshotStock(candidates[0].rooms);
    assert map[] + SnapshotStock(candidates[0].rooms) == SnapshotStock(candidates[0].rooms);
  }

  lemma {:induction false} RivalsStock(candidates: seq<Candidate>, x: RateKey, y: RateKey, z: RateKey)
    requires ListRivals(candidates, x, y, z) && x != y && x != z && y != z
    ensures Has(OptionStock(candidates), x, y, z, 5, 2, 2)
  {
    StockOfTwo(candidates);
    assert SnapshotStock(candidates[0].rooms) == map[x := 5, y := 2] by {
      FamilyStock(OnX(x), OnThree(y, 120), OnX(x));
    }
    assert SnapshotStock(candidates[1].rooms) == map[z := 2, x := 5] by {
      FamilyStock(OnThree(z, 80), OnX(x), OnX(x));
    }
  }

  /** Rooms two picks take from a stock. */
  lemma {:induction false} TwoPicksTake(stock: Stock, picks: seq<Pick>, k: RateKey)
    requires |picks| == 2 && Covers(stock, Totals(PickItems(picks)))
    ensures Available(Claim(Books(stock, []), PickItems(picks)).remaining, k)
         == Available(stock, k) - RoomsOn(picks[0], k) - RoomsOn(picks[1], k)
  {
    PickedTwo(picks);
    TotalsArePickedRooms(picks, k);
  }

  lemma {:induction false} TakeOfTwo(candidates: seq<Candidate>, stock: Stock)
    requires |candidates| == 2
    ensures TakeFirst(candidates, stock).0 ==
      var one, two := SelectRates(candidates[0].rooms, stock, {}), SelectRates(candidates[1].rooms, stock, {});
      if one.Some? then Some(Choice(0, one.value)) else if two.Some? then Some(Choice(1, two.value)) else None
  {
    assert FirstSelectable(candidates, 2, {}, stock, {}).None?;
  }

  lemma {:induction false} FirstPnr(candidates: seq<Candidate>, x: RateKey, y: RateKey, z: RateKey, stock: Stock)
    requires ListRivals(candidates, x, y, z) && x != y && x != z && y != z
    requires Has(stock, x, y, z, 5, 2, 2)
    ensures var (first, left) := TakeFirst(candidates, stock);
      first.Some? && first.value.index == 0 && Has(left, x, y, z, 2, 2, 2)
  {
    var rooms := candidates[0].rooms;
    var picks := [PickOf(rooms[0], OnX(x)), PickOf(rooms[1], OnX(x))];
    assert SelectRates(rooms, stock, {}) == Some(picks) by {
      SelectFamily(OnX(x), OnThree(y, 120), OnX(x), stock);
    }
    TakeOfTwo(candidates, stock);
    SelectionCanBeClaimed(rooms, stock, {});
    TwoPicksTake(stock, picks, x);
    TwoPicksTake(stock, picks, y);
    TwoPicksTake(stock, picks, z);
  }

  lemma {:induction false} SecondPnr(candidates: seq<Candidate>, x: RateKey, y: RateKey, z: RateKey, stock: Stock)
    requires ListRivals(candidates, x, y, z) && x != y && x != z && y != z
    requires Has(stock, x, y, z, 2, 2, 2)
    ensures var (second, left) := TakeFirst(candidates, stock);
      second.Some? && second.value.index == 1 && Has(left, x, y, z, 1, 2, 0)
  {
    var rooms := candidates[1].rooms;
    var picks := [PickOf(rooms[0], OnThree(z, 80)), PickOf(rooms[1], OnX(x))];
    assert SelectRates(candidates[0].rooms, stock, {}).None? by {
      SelectFamily(OnX(x), OnThree(y, 120), OnX(x), stock);
    }
    assert SelectRates(rooms, stock, {}) == Some(picks) by {
      SelectFamily(OnThree(z, 80), OnX(x), OnX(x), stock);
    }
    TakeOfTwo(candidates, stock);
    SelectionCanBeClaimed(rooms, stock, {});
    TwoPicksTake(stock, picks, x);
    TwoPicksTake(stock, picks, y);
    TwoPicksTake(stock, picks, z);
  }

  lemma {:induction false} ThirdPnr(candidates: seq<Candidate>, x: RateKey, y: RateKey, z: RateKey, stock: Stock)
    requires ListRivals(candidates, x, y, z) && x != y && x != z && y != z
    requires Has(stock, x, y, z, 1, 2, 0)
    ensures var third := TakeFirst(candidates, stock).0;
      third.Some? && third.value.index == 0
  {
    TakeOfTwo(candidates, stock);
    SelectFamily(OnX(x), OnThree(y, 120), OnX(x), stock);
  }

  lemma {:induction false} RivalRanks(candidates: seq<Candidate>, x: RateKey, y: RateKey, z: RateKey)
    requires ListRivals(candidates, x, y, z) && x != y && x != z && y != z
    ensures var ranks := Allocations(candidates, OptionStock(candidates), 3).0;
      && ranks[0].Some? && ranks[1].Some? && ranks[2].Some?
      && ranks[0].value.index == 0 && ranks[1].value.index == 1 && ranks[2].value.index == 0
  {
    var stock := OptionStock(candidates);
    var left := TakeFirst(candidates, stock).1;
    RivalsStock(candidates, x, y, z);
    FirstAllocations(candidates, stock);
    FirstPnr(candidates, x, y, z, stock);
    SecondPnr(candidates, x, y, z, left);
    ThirdPnr(candidates, x, y, z, TakeFirst(candidates, left).1);
  }

  /**
   With a rate shared by room types and by hotels a rank can fall, on candidates the
   planner lists for one and the same party: PNR 1 gets the better hotel on x alone;
   for PNR 2 the doubles would take the last two rooms of x, so that hotel is passed
   over and the other one takes one room of x; now the greedy choice moves the
   doubles to y, and PNR 3 gets the better hotel again.
   */
  lemma {:induction false} RanksCanFall(x: RateKey, y: RateKey, z: RateKey, pools: Pools, minStars: int, c: Collation)
    requires x != y && x != z && y != z && OutsidePools(pools, {x, y, z}) && minStars <= 4
    ensures var candidates := CandidatePlans(RivalHotels(x, y, z), RoomNeeds(FamilyRooms()), pools, minStars, c);
      var ranks := Allocations(candidates, OptionStock(candidates), 3).0;
      && ranks[0].Some? && ranks[1].Some? && ranks[2].Some?
      && ranks[0].value.index == 0 && ranks[1].value.index == 1 && ranks[2].value.index == 0
  {
    var candidates := CandidatePlans(RivalHotels(x, y, z), RoomNeeds(FamilyRooms()), pools, minStars, c);
    RivalsAreListed(x, y, z, pools, minStars, c);
    RivalRanks(candidates, x, y, z);
  }
}
