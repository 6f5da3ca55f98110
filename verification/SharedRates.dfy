/**
 Room types that compete for the same rates: exactly when the greedy choice of
 two room types can miss rates it could have had, and when fewer rooms can make
 it succeed.
 */
module SharedRates {
  import opened Common
  import opened Rooms
  import opened Ledger
  import opened Planner
  import opened RateSelection
  import opened CandidatePlanning
  import opened Sorting

  // ---- Two room types ---------------------------------------------------------------

  /** The greedy choice for one room type is its first usable option. */
  lemma {:induction false} FirstUsableAt(
    options: seq<RateOption>, needed: nat, stock: Stock, used: Stock, excluded: set<RateKey>) returns (t: nat)
    requires FirstUsable(options, needed, stock, used, excluded).Some?
    ensures t < |options| && FirstUsable(options, needed, stock, used, excluded) == Some(options[t])
    ensures Usable(options[t], needed, stock, used, excluded)
    ensures forall s | 0 <= s < t :: !Usable(options[s], needed, stock, used, excluded)
  {
    if Usable(options[0], needed, stock, used, excluded) {
      t := 0;
    } else {
      var rest := FirstUsableAt(options[1..], needed, stock, used, excluded);
      t := rest + 1;
      forall s | 0 <= s < t
        ensures !Usable(options[s], needed, stock, used, excluded)
      {
        assert s > 0 ==> options[s] == options[1..][s - 1];
      }
    }
  }

  predicate TwoTypes(rooms: seq<RoomPlan>) {
    |rooms| == 2 && !IsOrderCandidate(rooms)
  }

  /** What is left for the second room type once the first has its option. */
  function Second(rooms: seq<RoomPlan>, k: RateKey, stock: Stock, excluded: set<RateKey>): Option<RateOption>
    requires TwoTypes(rooms)
  {
    FirstUsable(rooms[1].options, rooms[1].roomsNeeded, stock, UseRate(map[], k, rooms[0].roomsNeeded), excluded)
  }

  lemma {:induction false} SelectTwo(rooms: seq<RoomPlan>, stock: Stock, excluded: set<RateKey>)
    requires TwoTypes(rooms)
    ensures var first := FirstUsable(rooms[0].options, rooms[0].roomsNeeded, stock, map[], excluded);
      SelectRates(rooms, stock, excluded) ==
        if first.None? then None else
          var second := Second(rooms, first.value.rateKey, stock, excluded);
          if second.None? then None else Some([PickOf(rooms[0], first.value), PickOf(rooms[1], second.value)])
  {
    assert SelectRates(rooms, stock, excluded) == SelectPerRoom(rooms, stock, map[], excluded);
    var first := FirstUsable(rooms[0].options, rooms[0].roomsNeeded, stock, map[], excluded);
    if first.Some? {
      SelectLast(rooms[1..], stock, UseRate(map[], first.value.rateKey, rooms[0].roomsNeeded), excluded);
      var second := Second(rooms, first.value.rateKey, stock, excluded);
      if second.Some? {
        assert [PickOf(rooms[0], first.value)] + [PickOf(rooms[1], second.value)]
            == [PickOf(rooms[0], first.value), PickOf(rooms[1], second.value)];
      }
    }
  }

  lemma {:induction false} SelectLast(rooms: seq<RoomPlan>, stock: Stock, used: Stock, excluded: set<RateKey>)
    requires |rooms| == 1
    ensures var o := FirstUsable(rooms[0].options, rooms[0].roomsNeeded, stock, used, excluded);
      SelectPerRoom(rooms, stock, used, excluded) == if o.None? then None else Some([PickOf(rooms[0], o.value)])
  {
    var o := FirstUsable(rooms[0].options, rooms[0].roomsNeeded, stock, used, excluded);
    if o.Some? {
      assert rooms[1..] == [];
      assert SelectPerRoom([], stock, UseRate(used, o.value.rateKey, rooms[0].roomsNeeded), excluded) == Some([]);
      assert [PickOf(rooms[0], o.value)] + [] == [PickOf(rooms[0], o.value)];
    }
  }

  /**
   The first room type prefers its option `i`, which the second offers too, to its
   option `j`, another rate that it could have taken instead.
   */
  predicate Prefers(rooms: seq<RoomPlan>, excluded: set<RateKey>, i: nat, j: nat)
    requires |rooms| == 2
  {
    var options := rooms[0].options;
    && i < j < |options|
    && options[i].rateKey !in excluded && options[j].rateKey !in excluded
    && options[i].rateKey in Keys(rooms[1].options)
    && options[j].rateKey !in Keys(options[..i + 1])
  }

  /** ... and `j` is no way out for the second room type. */
  predicate TakesAway(rooms: seq<RoomPlan>, excluded: set<RateKey>, i: nat, j: nat)
    requires |rooms| == 2
  {
    && Prefers(rooms, excluded, i, j)
    && (rooms[0].options[j].rateKey !in Keys(rooms[1].options) || rooms[0].roomsNeeded < rooms[1].roomsNeeded)
  }

  predicate Competes(rooms: seq<RoomPlan>, excluded: set<RateKey>)
    requires |rooms| == 2
  {
    && rooms[0].roomsNeeded > 0 && rooms[1].roomsNeeded > 0
    && exists i, j | 0 <= i < j < |rooms[0].options| :: TakesAway(rooms, excluded, i, j)
  }

  /** With rooms on two preferred rates only, greedy takes the earlier one. */
  lemma {:induction false} TakesPreferred(rooms: seq<RoomPlan>, excluded: set<RateKey>, i: nat, j: nat, stock: Stock)
    requires TwoTypes(rooms) && Prefers(rooms, excluded, i, j) && rooms[0].roomsNeeded > 0
    requires forall k | k in stock && stock[k] >= rooms[0].roomsNeeded ::
               k == rooms[0].options[i].rateKey || k == rooms[0].options[j].rateKey
    requires Available(stock, rooms[0].options[i].rateKey) >= rooms[0].roomsNeeded
    ensures var first := FirstUsable(rooms[0].options, rooms[0].roomsNeeded, stock, map[], excluded);
      first.Some? && first.value.rateKey == rooms[0].options[i].rateKey
  {
    var options, p := rooms[0].options, rooms[0].roomsNeeded;
    assert Usable(options[i], p, stock, map[], excluded) && options[i] in options;
    var t := FirstUsableAt(options, p, stock, map[], excluded);
    assert options[t] in options[..i + 1];
    assert options[t].rateKey in Keys(options[..i + 1]);
  }

  /** A stock on which greedy takes the second room type's rate away, though both could be had. */
  lemma {:induction false} MissedStock(rooms: seq<RoomPlan>, excluded: set<RateKey>, i: nat, j: nat)
    requires TwoTypes(rooms) && rooms[0].roomsNeeded > 0 && rooms[1].roomsNeeded > 0
    requires i < j < |rooms[0].options| && TakesAway(rooms, excluded, i, j)
    ensures var stock: Stock := map[
        rooms[0].options[i].rateKey := Max(rooms[0].roomsNeeded, rooms[1].roomsNeeded),
        rooms[0].options[j].rateKey := rooms[0].roomsNeeded];
      SelectRates(rooms, stock, excluded).None? && Assignable(rooms, stock, excluded)
  {
    var p, q := rooms[0].roomsNeeded, rooms[1].roomsNeeded;
    var a, b := rooms[0].options[i], rooms[0].options[j];
    assert a in rooms[0].options[..i + 1] && a.rateKey in Keys(rooms[0].options[..i + 1]);
    var stock: Stock := map[a.rateKey := Max(p, q), b.rateKey := p];
    TakesPreferred(rooms, excluded, i, j, stock);
    SelectTwo(rooms, stock, excluded);
    assert forall e | e in rooms[1].options :: e.rateKey in Keys(rooms[1].options);
    assert Second(rooms, a.rateKey, stock, excluded).None?;
    TwoPicksFit(rooms, stock, excluded, b.rateKey, a.rateKey);
  }

  lemma {:induction false} TwoPicksFit(rooms: seq<RoomPlan>, stock: Stock, excluded: set<RateKey>, k: RateKey, l: RateKey)
    requires |rooms| == 2 && k != l && k !in excluded && l !in excluded
    requires k in Keys(rooms[0].options) && l in Keys(rooms[1].options)
    requires Available(stock, k) >= rooms[0].roomsNeeded && Available(stock, l) >= rooms[1].roomsNeeded
    ensures Assignable(rooms, stock, excluded)
  {
    var first := Pick(k, rooms[0].roomsNeeded, rooms[0].shape, 0, true);
    var picks := [first, Pick(l, rooms[1].roomsNeeded, rooms[1].shape, 0, true)];
    PickedTwo(picks);
    assert IsAssignment(picks, rooms, stock, excluded);
  }

  function RoomsOn(pick: Pick, k: RateKey): nat {
    if pick.rateKey == k then pick.roomsNeeded else 0
  }

  lemma {:induction false} PickedTwo(picks: seq<Pick>)
    requires |picks| == 2
    ensures forall k :: PickedRooms(picks, k) == RoomsOn(picks[0], k) + RoomsOn(picks[1], k)
  {
    forall k ensures PickedRooms(picks, k) == RoomsOn(picks[0], k) + RoomsOn(picks[1], k) {
      assert picks == [picks[0]] + [picks[1]];
      PickedRoomsAppend([picks[0]], picks[1], k);
    }
  }

  /** Greedy fails on the second room type only if that needed the rate just taken. */
  lemma {:induction false} SecondMissed(rooms: seq<RoomPlan>, stock: Stock, excluded: set<RateKey>, i: nat, l: RateKey)
    requires TwoTypes(rooms) && i < |rooms[0].options|
    requires Available(stock, rooms[0].options[i].rateKey) >= rooms[0].roomsNeeded
    requires Second(rooms, rooms[0].options[i].rateKey, stock, excluded).None?
    requires l !in excluded && OffersKey(rooms[1], l) && Available(stock, l) >= rooms[1].roomsNeeded
    ensures rooms[0].options[i].rateKey == l && rooms[0].roomsNeeded > 0 && rooms[1].roomsNeeded > 0
    ensures Available(stock, l) < rooms[0].roomsNeeded + rooms[1].roomsNeeded
    ensures forall e | e in rooms[1].options && e.rateKey != l && e.rateKey !in excluded ::
              Available(stock, e.rateKey) < rooms[1].roomsNeeded
  {
    var used := UseRate(map[], rooms[0].options[i].rateKey, rooms[0].roomsNeeded);
    var b :| b in rooms[1].options && b.rateKey == l;
    assert !Usable(b, rooms[1].roomsNeeded, stock, used, excluded);
    assert forall e | e in rooms[1].options :: !Usable(e, rooms[1].roomsNeeded, stock, used, excluded);
  }

  /** If greedy misses an assignment, a preferred rate took the second room type's away. */
  lemma {:induction false} MissedBecause(rooms: seq<RoomPlan>, stock: Stock, excluded: set<RateKey>)
    requires TwoTypes(rooms) && Assignable(rooms, stock, excluded) && SelectRates(rooms, stock, excluded).None?
    ensures Competes(rooms, excluded)
  {
    var options, p := rooms[0].options, rooms[0].roomsNeeded;
    var k, l := TwoRatesFit(rooms, stock, excluded);
    var o :| o in options && o.rateKey == k;
    var j :| 0 <= j < |options| && options[j] == o;
    assert Usable(options[j], p, stock, map[], excluded);
    SelectTwo(rooms, stock, excluded);
    var i := FirstUsableAt(options, p, stock, map[], excluded);
    SecondMissed(rooms, stock, excluded, i, l);
    assert forall s | 0 <= s <= i :: options[s].rateKey != k;
    assert TakesAway(rooms, excluded, i, j);
  }

  /** The rates of an assignment, each with enough rooms, or one rate with enough for both. */
  lemma {:induction false} TwoRatesFit(rooms: seq<RoomPlan>, stock: Stock, excluded: set<RateKey>) returns (k: RateKey, l: RateKey)
    requires |rooms| == 2 && Assignable(rooms, stock, excluded)
    ensures k !in excluded && l !in excluded && OffersKey(rooms[0], k) && OffersKey(rooms[1], l)
    ensures Available(stock, k) >= rooms[0].roomsNeeded && Available(stock, l) >= rooms[1].roomsNeeded
    ensures k == l ==> Available(stock, k) >= rooms[0].roomsNeeded + rooms[1].roomsNeeded
  {
    var picks: seq<Pick> :| IsAssignment(picks, rooms, stock, excluded);
    PickedTwo(picks);
    k, l := picks[0].rateKey, picks[1].rateKey;
    assert PickedRooms(picks, k) <= Available(stock, k) && PickedRooms(picks, l) <= Available(stock, l);
  }

  /**
   For two room types, greedy finds rates on every stock on which some assignment
   exists if and only if the two do not compete: nowhere does the first prefer a
   rate of the second to a later one that the second does not offer or could not
   use for want of rooms.
   */
  lemma {:induction false} GreedyIsCompleteIff(rooms: seq<RoomPlan>, excluded: set<RateKey>)
    requires TwoTypes(rooms)
    ensures (forall stock: Stock :: SelectRates(rooms, stock, excluded).Some? <==> Assignable(rooms, stock, excluded))
       <==> !Competes(rooms, excluded)
  {
    if Competes(rooms, excluded) {
      var i, j :| 0 <= i < j < |rooms[0].options| && TakesAway(rooms, excluded, i, j);
      MissedStock(rooms, excluded, i, j);
    } else {
      forall stock: Stock
        ensures SelectRates(rooms, stock, excluded).Some? <==> Assignable(rooms, stock, excluded)
      {
        if SelectRates(rooms, stock, excluded).Some? {
          SelectionIsAssignment(rooms, stock, excluded);
        } else if Assignable(rooms, stock, excluded) {
          MissedBecause(rooms, stock, excluded);
        }
      }
    }
  }

  // ---- Fewer rooms left, and yet a selection -----------------------------------------------

  ghost predicate AtMost(less: Stock, more: Stock) {
    forall k: RateKey :: Available(less, k) <= Available(more, k)
  }

  /** Whatever can be selected can still be selected with more rooms left. */
  ghost predicate Monotone(rooms: seq<RoomPlan>, excluded: set<RateKey>) {
    forall less: Stock, more: Stock ::
      AtMost(less, more) && SelectRates(rooms, less, excluded).Some? ==> SelectRates(rooms, more, excluded).Some?
  }

  /** The first room type needs more rooms, and prefers a rate of the second to one that the second does not offer. */
  predicate Overreaches(rooms: seq<RoomPlan>, excluded: set<RateKey>)
    requires |rooms| == 2
  {
    && 0 < rooms[1].roomsNeeded < rooms[0].roomsNeeded
    && exists i, j | 0 <= i < j < |rooms[0].options| ::
         Prefers(rooms, excluded, i, j) && rooms[0].options[j].rateKey !in Keys(rooms[1].options)
  }

  lemma {:induction false} FewerRoomsHelp(rooms: seq<RoomPlan>, excluded: set<RateKey>, i: nat, j: nat)
    requires TwoTypes(rooms) && 0 < rooms[1].roomsNeeded < rooms[0].roomsNeeded
    requires Prefers(rooms, excluded, i, j) && rooms[0].options[j].rateKey !in Keys(rooms[1].options)
    ensures var k, l := rooms[0].options[i].rateKey, rooms[0].options[j].rateKey;
      && SelectRates(rooms, map[k := rooms[0].roomsNeeded, l := rooms[0].roomsNeeded], excluded).None?
      && SelectRates(rooms, map[k := rooms[1].roomsNeeded, l := rooms[0].roomsNeeded], excluded).Some?
  {
    var options, p, q := rooms[0].options, rooms[0].roomsNeeded, rooms[1].roomsNeeded;
    var k, l := options[i].rateKey, options[j].rateKey;
    MissedStock(rooms, excluded, i, j);
    assert Max(p, q) == p;
    var less: Stock := map[k := q, l := p];
    assert options[i] in options[..i + 1] && k in Keys(options[..i + 1]);
    assert Usable(options[j], p, less, map[], excluded);
    var t := FirstUsableAt(options, p, less, map[], excluded);
    assert options[t].rateKey == l;
    var b :| b in rooms[1].options && b.rateKey == k;
    assert Usable(b, q, less, UseRate(map[], l, p), excluded);
    SelectTwo(rooms, less, excluded);
  }

  lemma {:induction false} HelpedBecause(rooms: seq<RoomPlan>, less: Stock, more: Stock, excluded: set<RateKey>)
    requires TwoTypes(rooms) && AtMost(less, more)
    requires SelectRates(rooms, less, excluded).Some? && SelectRates(rooms, more, excluded).None?
    ensures Overreaches(rooms, excluded)
  {
    var options, p, q := rooms[0].options, rooms[0].roomsNeeded, rooms[1].roomsNeeded;
    SelectTwo(rooms, less, excluded);
    SelectTwo(rooms, more, excluded);
    var j := FirstUsableAt(options, p, less, map[], excluded);
    assert Usable(options[j], p, more, map[], excluded);
    var i := FirstUsableAt(options, p, more, map[], excluded);
    var k, l := options[i].rateKey, options[j].rateKey;
    var b := Second(rooms, l, less, excluded).value;
    assert !Usable(b, q, more, UseRate(map[], k, p), excluded);
    assert b.rateKey == k != l;
    assert k in Keys(rooms[1].options);
    assert forall s | 0 <= s <= i :: options[s].rateKey != l;
    assert !Usable(options[i], p, less, map[], excluded);
    assert forall e | e in rooms[1].options :: !Usable(e, q, more, UseRate(map[], k, p), excluded);
    assert Prefers(rooms, excluded, i, j);
  }

  /** For two room types, rooms taken by others never help if and only if the first does not overreach. */
  lemma {:induction false} GreedyIsMonotoneIff(rooms: seq<RoomPlan>, excluded: set<RateKey>)
    requires TwoTypes(rooms)
    ensures Monotone(rooms, excluded) <==> !Overreaches(rooms, excluded)
  {
    if Overreaches(rooms, excluded) {
      var i, j :| 0 <= i < j < |rooms[0].options|
        && Prefers(rooms, excluded, i, j) && rooms[0].options[j].rateKey !in Keys(rooms[1].options);
      FewerRoomsHelp(rooms, excluded, i, j);
      var k, l, p := rooms[0].options[i].rateKey, rooms[0].options[j].rateKey, rooms[0].roomsNeeded;
      assert AtMost(map[k := rooms[1].roomsNeeded, l := p], map[k := p, l := p]);
    } else if less: Stock, more: Stock :|
        AtMost(less, more) && SelectRates(rooms, less, excluded).Some? && SelectRates(rooms, more, excluded).None? {
      HelpedBecause(rooms, less, more, excluded);
    }
  }

  /** Room types that share no rate are monotone, and so is a multiroom order. */
  lemma {:induction false} MonotoneWithoutSharing(rooms: seq<RoomPlan>, excluded: set<RateKey>)
    requires IsOrderCandidate(rooms) || DisjointOptions(rooms)
    ensures Monotone(rooms, excluded)
  {
    forall less: Stock, more: Stock | AtMost(less, more) && SelectRates(rooms, less, excluded).Some?
      ensures SelectRates(rooms, more, excluded).Some?
    {
      if IsOrderCandidate(rooms) {
        var o := FirstOrder(rooms[0].options, rooms, less, excluded).value;
        assert OrderUsable(o, rooms, more, excluded);
      } else {
        GreedyIsCompleteWithoutSharing(rooms, less, excluded);
        var picks: seq<Pick> :| IsAssignment(picks, rooms, less, excluded);
        forall k: RateKey ensures PickedRooms(picks, k) <= Available(more, k) {
          assert PickedRooms(picks, k) <= Available(less, k) <= Available(more, k);
        }
        assert IsAssignment(picks, rooms, more, excluded);
        GreedyIsCompleteWithoutSharing(rooms, more, excluded);
      }
    }
  }

  // ---- A hotel of which that is so ---------------------------------------------------------------

  /** Two doubles and a room for an adult with a child. */
  function FamilyRooms(): seq<Shape> {
    [Shape(2, 0), Shape(2, 0), Shape(1, 1)]
  }

  function ForTwoAndChild(k: RateKey, price: int, allotment: int): Rate {
    Rate(k, 2, 1, price, Some(allotment), None)
  }

  function ForThree(k: RateKey, price: int, allotment: int): Rate {
    Rate(k, 3, 0, price, Some(allotment), None)
  }

  /** None of the rates is in the supply pool of these rooms. */
  predicate OutsidePools(pools: Pools, keys: set<RateKey>) {
    forall k, shape | k in keys && shape in FamilyRooms() :: !InPool(pools, shape, k)
  }

  lemma {:induction false} FamilyNeeds()
    ensures RoomNeeds(FamilyRooms()) == [RoomNeed(Shape(2, 0), 2), RoomNeed(Shape(1, 1), 1)]
  {
    var rooms := FamilyRooms();
    assert rooms[..2] == [Shape(2, 0), Shape(2, 0)] && rooms[..2][..1] == [Shape(2, 0)] && rooms[..2][..1][..0] == [];
    assert RoomNeeds([Shape(2, 0)]) == [RoomNeed(Shape(2, 0), 1)];
    assert RoomNeeds([Shape(2, 0), Shape(2, 0)]) == [RoomNeed(Shape(2, 0), 2)];
    assert FindNeed([RoomNeed(Shape(2, 0), 2)], Shape(1, 1)).None?;
  }

  /** Of two rates that hold a double, only the shared one also holds the adult with a child. */
  function FamilyPlans(first: RateOption, second: RateOption, shared: RateOption): seq<RoomPlan> {
    [RoomPlan(Shape(2, 0), 2, [first, second]), RoomPlan(Shape(1, 1), 1, [shared])]
  }

  lemma {:induction false} SortTwo<T>(key: T -> seq<int>, a: T, b: T)
    ensures Sort(key, [a, b]) == if LexLeq(key(a), key(b)) then [a, b] else [b, a]
    ensures Sort(key, [a]) == [a]
  {
    assert [a, b][1..] == [b] && [b][1..] == [] && [a][1..] == [];
    assert Sort(key, [b]) == [b] && Insert(key, a, []) == [a];
    assert [a] + [b] == [a, b] && [b] + [a] == [b, a];
  }

  lemma {:induction false} CheaperFirst(pools: Pools, c: Collation, a: Rate, b: Rate)
    requires OutsidePools(pools, {a.rateKey, b.rateKey}) && a.netPrice < b.netPrice
    requires a.adults + a.children == 3 == b.adults + b.children
    ensures var rank := RateRank(pools, Shape(2, 0), c); LexLeq(rank(a), rank(b)) && !LexLeq(rank(b), rank(a))
  {
    var s, t := RateRank(pools, Shape(2, 0), c)(a), RateRank(pools, Shape(2, 0), c)(b);
    assert Shape(2, 0) == FamilyRooms()[0];
    assert RateShape(a) != Shape(2, 0) && RateShape(b) != Shape(2, 0);
    assert s[1..][0] == s[1] == t[1] == t[1..][0];
    assert s[1..][1..] == s[2..] && t[1..][1..] == t[2..] && s[2..][1..] == s[3..] && t[2..][1..] == t[3..];
    assert s[2..][0] == s[2] == t[2] == t[2..][0];
    assert s[3..][0] == a.netPrice && t[3..][0] == b.netPrice;
    assert LexLeq(s[3..], t[3..]) && !LexLeq(t[3..], s[3..]);
    assert LexLeq(s[2..], t[2..]) && !LexLeq(t[2..], s[2..]);
    assert LexLeq(s[1..], t[1..]) && !LexLeq(t[1..], s[1..]);
  }

  lemma {:induction false} KeptOfTwo(keep: Rate -> bool, a: Rate, b: Rate)
    ensures Filter(keep, [a, b]) == (if keep(a) then [a] else []) + (if keep(b) then [b] else [])
  {
    assert [a, b][1..] == [b] && [b][1..] == [];
    assert Filter(keep, [b]) == if keep(b) then [b] else [];
  }

  lemma {:induction false} PlanOutsidePools(rates: seq<Rate>, need: RoomNeed, pools: Pools, c: Collation)
    requires forall r | r in RatesFor(rates, need.shape, pools, c) :: !InPool(pools, need.shape, r.rateKey)
    ensures var sorted := RatesFor(rates, need.shape, pools, c);
      RoomPlanFor(rates, need, pools, c) == RoomPlan(need.shape, need.roomsNeeded,
        seq(|sorted|, i requires 0 <= i < |sorted| => OptionOf(sorted[i], false, None)))
  {
    var sorted := RatesFor(rates, need.shape, pools, c);
    assert forall i | 0 <= i < |sorted| :: sorted[i] in sorted;
  }

  /** The options such a hotel lists: the cheaper rate first for the doubles, the shared rate for the other room. */
  lemma {:induction false} FamilyPlansFor(pools: Pools, c: Collation, two: Rate, three: Rate)
    requires two == ForTwoAndChild(two.rateKey, two.netPrice, FreeOf(two)) && FreeOf(two) > 0
    requires three == ForThree(three.rateKey, three.netPrice, FreeOf(three)) && FreeOf(three) > 0
    requires OutsidePools(pools, {two.rateKey, three.rateKey}) && two.netPrice != three.netPrice
    ensures var shared, other := OptionOf(two, false, None), OptionOf(three, false, None);
      RoomPlansFor([two, three], RoomNeeds(FamilyRooms()), pools, c) ==
        if two.netPrice < three.netPrice then FamilyPlans(shared, other, shared) else FamilyPlans(other, shared, shared)
  {
    var double, family := RoomNeed(Shape(2, 0), 2), RoomNeed(Shape(1, 1), 1);
    FamilyNeeds();
    DoublePlan(pools, c, two, three);
    FamilyPlan(pools, c, two, three);
    var plans := RoomPlansFor([two, three], RoomNeeds(FamilyRooms()), pools, c);
    assert plans == [RoomPlanFor([two, three], double, pools, c), RoomPlanFor([two, three], family, pools, c)];
  }

  lemma {:induction false} DoublePlan(pools: Pools, c: Collation, two: Rate, three: Rate)
    requires two == ForTwoAndChild(two.rateKey, two.netPrice, FreeOf(two)) && FreeOf(two) > 0
    requires three == ForThree(three.rateKey, three.netPrice, FreeOf(three)) && FreeOf(three) > 0
    requires OutsidePools(pools, {two.rateKey, three.rateKey}) && two.netPrice != three.netPrice
    ensures var shared, other := OptionOf(two, false, None), OptionOf(three, false, None);
      RoomPlanFor([two, three], RoomNeed(Shape(2, 0), 2), pools, c)
      == RoomPlan(Shape(2, 0), 2, if two.netPrice < three.netPrice then [shared, other] else [other, shared])
  {
    var rates, double := [two, three], Shape(2, 0);
    assert double == FamilyRooms()[0];
    KeptOfTwo(r => HasAllotment(r) && Covering(r.adults, r.children, double), two, three);
    assert [two] + [three] == [two, three];
    SortTwo(RateRank(pools, double, c), two, three);
    if two.netPrice < three.netPrice {
      CheaperFirst(pools, c, two, three);
    } else {
      CheaperFirst(pools, c, three, two);
    }
    assert RatesFor(rates, double, pools, c) == if two.netPrice < three.netPrice then [two, three] else [three, two];
    PlanOutsidePools(rates, RoomNeed(double, 2), pools, c);
  }

  lemma {:induction false} FamilyPlan(pools: Pools, c: Collation, two: Rate, three: Rate)
    requires two == ForTwoAndChild(two.rateKey, two.netPrice, FreeOf(two)) && FreeOf(two) > 0
    requires three == ForThree(three.rateKey, three.netPrice, FreeOf(three))
    requires OutsidePools(pools, {two.rateKey, three.rateKey})
    ensures RoomPlanFor([two, three], RoomNeed(Shape(1, 1), 1), pools, c)
         == RoomPlan(Shape(1, 1), 1, [OptionOf(two, false, None)])
  {
    var rates, family := [two, three], Shape(1, 1);
    assert family == FamilyRooms()[2];
    KeptOfTwo(r => HasAllotment(r) && Covering(r.adults, r.children, family), two, three);
    assert [two] + [] == [two];
    SortTwo(RateRank(pools, family, c), two, three);
    assert RatesFor(rates, family, pools, c) == [two];
    PlanOutsidePools(rates, RoomNeed(family, 1), pools, c);
  }

  /** What greedy takes of such a hotel: the first rate for the doubles if it can, the shared one for the other room. */
  lemma {:induction false} SelectFamily(first: RateOption, second: RateOption, shared: RateOption, stock: Stock)
    requires first.orderRooms.None? && second.orderRooms.None?
    ensures var rooms := FamilyPlans(first, second, shared);
      var o := if Available(stock, first.rateKey) >= 2 then first else second;
      SelectRates(rooms, stock, {}) ==
        if Available(stock, o.rateKey) < 2
           || Available(stock, shared.rateKey) < 1 + if o.rateKey == shared.rateKey then 2 else 0
        then None else Some([PickOf(rooms[0], o), PickOf(rooms[1], shared)])
  {
    var rooms := FamilyPlans(first, second, shared);
    assert !IsOrderCandidate(rooms);
    SelectTwo(rooms, stock, {});
    assert [first, second][1..] == [second] && [second][1..] == [] && [shared][1..] == [];
    assert FirstUsable([second], 2, stock, map[], {}) == if Available(stock, second.rateKey) >= 2 then Some(second) else None;
  }

  /**
   Sharing breaks completeness, on a hotel the planner builds: rate x, the cheaper
   one for two doubles, is also the only one for the adult with a child. The hotel
   is listed with its five rooms of x and two of y. With two rooms of x left the
   doubles take both and the selection fails although y would do; with one left it succeeds.
   */
  lemma {:induction false} GreedyCanMiss(x: RateKey, y: RateKey, pools: Pools, c: Collation)
    requires x != y && OutsidePools(pools, {x, y})
    ensures var rooms := RoomPlansFor([ForTwoAndChild(x, 100, 5), ForThree(y, 120, 2)], RoomNeeds(FamilyRooms()), pools, c);
      && SelectRates(rooms, SnapshotStock(rooms), {}).Some?
      && SelectRates(rooms, map[x := 2, y := 2], {}).None? && Assignable(rooms, map[x := 2, y := 2], {})
      && SelectRates(rooms, map[x := 1, y := 2], {}).Some?
  {
    var two, three := ForTwoAndChild(x, 100, 5), ForThree(y, 120, 2);
    FamilyPlansFor(pools, c, two, three);
    var onX, onY := OptionOf(two, false, None), OptionOf(three, false, None);
    var rooms := FamilyPlans(onX, onY, onX);
    FamilyStock(onX, onY, onX);
    SelectFamily(onX, onY, onX, SnapshotStock(rooms));
    SelectFamily(onX, onY, onX, map[x := 2, y := 2]);
    SelectFamily(onX, onY, onX, map[x := 1, y := 2]);
    assert onY in rooms[0].options && onX in rooms[1].options;
    TwoPicksFit(rooms, map[x := 2, y := 2], {}, y, x);
  }

  lemma {:induction false} FamilyStock(first: RateOption, second: RateOption, shared: RateOption)
    requires first.rateKey != second.rateKey && (shared == first || shared == second)
    ensures SnapshotStock(FamilyPlans(first, second, shared))
         == map[first.rateKey := first.allotment, second.rateKey := second.allotment]
  {
    var rooms := FamilyPlans(first, second, shared);
    assert rooms[..1] == [rooms[0]] && rooms[..1][..0] == [];
    var both := rooms[0].options;
    assert both[..1] == [first] && [first][..0] == [] && [shared][..0] == [];
    assert OptionsStock([first]) == map[first.rateKey := first.allotment];
    assert OptionsStock(both) == map[first.rateKey := first.allotment, second.rateKey := second.allotment];
    assert OptionsStock([shared]) == map[shared.rateKey := shared.allotment];
    assert SnapshotStock([rooms[0]]) == OptionsStock(both);
  }
}
