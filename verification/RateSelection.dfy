/**
 Candidates of one PNR and the greedy choice of their rates against the ledger.
 */
module RateSelection {
  import opened Common
  import opened Rooms
  import opened Ledger
  import opened Planner
  import opened Sorting

  /** `orderRooms` is set for a rate that books all rooms of the PNR as one order. */
  datatype RateOption = RateOption(
    rateKey: RateKey,
    adults: nat,
    children: nat,
    netPrice: int,
    allotment: nat,
    inPool: bool,
    orderRooms: Option<nat>)

  datatype RoomPlan = RoomPlan(shape: Shape, roomsNeeded: nat, options: seq<RateOption>)

  datatype Candidate = Candidate(
    id: nat,
    planId: nat,
    hotelCode: HotelCode,
    stars: int,
    radius: int,
    estimatedPrice: int,
    overflow: bool,
    rooms: seq<RoomPlan>)

  datatype Pick = Pick(rateKey: RateKey, roomsNeeded: nat, shape: Shape, netPrice: int, inPool: bool)

  function PickOf(plan: RoomPlan, option: RateOption): Pick {
    Pick(option.rateKey, plan.roomsNeeded, plan.shape, option.netPrice, option.inPool)
  }

  function PickItems(picks: seq<Pick>): seq<Item> {
    seq(|picks|, i requires 0 <= i < |picks| => Item(picks[i].rateKey, picks[i].roomsNeeded))
  }

  // ---- selectCandidateRates ----------------------------------------------------

  predicate Usable(o: RateOption, needed: nat, stock: Stock, used: Stock, excluded: set<RateKey>) {
    o.rateKey !in excluded && Available(stock, o.rateKey) - Available(used, o.rateKey) >= needed
  }

  function FirstUsable(
    options: seq<RateOption>, needed: nat, stock: Stock, used: Stock, excluded: set<RateKey>): (r: Option<RateOption>)
    ensures r.Some? ==> r.value in options && Usable(r.value, needed, stock, used, excluded)
    ensures r.None? ==> forall o | o in options :: !Usable(o, needed, stock, used, excluded)
  {
    if options == [] then None
    else if Usable(options[0], needed, stock, used, excluded) then Some(options[0])
    else FirstUsable(options[1..], needed, stock, used, excluded)
  }

  function UseRate(used: Stock, k: RateKey, rooms: nat): Stock {
    used[k := Available(used, k) + rooms]
  }

  /** Room by room, the first option with enough rooms left after the rooms before it. */
  function SelectPerRoom(rooms: seq<RoomPlan>, stock: Stock, used: Stock, excluded: set<RateKey>): Option<seq<Pick>> {
    if rooms == [] then Some([]) else
      match FirstUsable(rooms[0].options, rooms[0].roomsNeeded, stock, used, excluded)
      case None => None
      case Some(option) =>
        match SelectPerRoom(rooms[1..], stock, UseRate(used, option.rateKey, rooms[0].roomsNeeded), excluded)
        case None => None
        case Some(rest) => Some([PickOf(rooms[0], option)] + rest)
  }

  function TotalRooms(rooms: seq<RoomPlan>): nat {
    if rooms == [] then 0 else rooms[0].roomsNeeded + TotalRooms(rooms[1..])
  }

  predicate OffersKey(plan: RoomPlan, k: RateKey) {
    exists o | o in plan.options :: o.rateKey == k
  }

  predicate OrderUsable(o: RateOption, rooms: seq<RoomPlan>, stock: Stock, excluded: set<RateKey>) {
    && o.orderRooms == Some(TotalRooms(rooms))
    && o.rateKey !in excluded
    && Available(stock, o.rateKey) >= TotalRooms(rooms)
    && forall plan | plan in rooms :: OffersKey(plan, o.rateKey)
  }

  function FirstOrder(options: seq<RateOption>, rooms: seq<RoomPlan>, stock: Stock, excluded: set<RateKey>): (r: Option<RateOption>)
    ensures r.Some? ==> r.value in options && OrderUsable(r.value, rooms, stock, excluded)
    ensures r.None? ==> forall o | o in options :: !OrderUsable(o, rooms, stock, excluded)
  {
    if options == [] then None
    else if OrderUsable(options[0], rooms, stock, excluded) then Some(options[0])
    else FirstOrder(options[1..], rooms, stock, excluded)
  }

  predicate IsOrderCandidate(rooms: seq<RoomPlan>) {
    rooms != [] && exists o | o in rooms[0].options :: o.orderRooms.Some? && o.orderRooms.value > 0
  }

  function SelectOrderRate(rooms: seq<RoomPlan>, stock: Stock, excluded: set<RateKey>): Option<seq<Pick>>
    requires rooms != []
  {
    match FirstOrder(rooms[0].options, rooms, stock, excluded)
    case None => None
    case Some(option) => Some(seq(|rooms|, i requires 0 <= i < |rooms| => PickOf(rooms[i], option)))
  }

  function SelectRates(rooms: seq<RoomPlan>, stock: Stock, excluded: set<RateKey>): Option<seq<Pick>> {
    if IsOrderCandidate(rooms) then SelectOrderRate(rooms, stock, excluded)
    else if rooms == [] then None
    else SelectPerRoom(rooms, stock, map[], excluded)
  }

  function Prepend(chosen: seq<Pick>, rest: Option<seq<Pick>>): Option<seq<Pick>> {
    match rest case None => None case Some(picks) => Some(chosen + picks)
  }

  lemma {:induction false} SelectPerRoomFrom(
    rooms: seq<RoomPlan>, n: nat, chosen: seq<Pick>, stock: Stock, used: Stock, excluded: set<RateKey>)
    requires n < |rooms|
    ensures var o := FirstUsable(rooms[n].options, rooms[n].roomsNeeded, stock, used, excluded);
      Prepend(chosen, SelectPerRoom(rooms[n..], stock, used, excluded)) ==
        if o.None? then None else
          Prepend(chosen + [PickOf(rooms[n], o.value)],
            SelectPerRoom(rooms[n + 1..], stock, UseRate(used, o.value.rateKey, rooms[n].roomsNeeded), excluded))
  {
    assert rooms[n..][0] == rooms[n] && rooms[n..][1..] == rooms[n + 1..];
    var o := FirstUsable(rooms[n].options, rooms[n].roomsNeeded, stock, used, excluded);
    if o.Some? {
      var rest := SelectPerRoom(rooms[n + 1..], stock, UseRate(used, o.value.rateKey, rooms[n].roomsNeeded), excluded);
      if rest.Some? {
        assert chosen + ([PickOf(rooms[n], o.value)] + rest.value) == chosen + [PickOf(rooms[n], o.value)] + rest.value;
      }
    }
  }

  method SelectCandidateRates(candidate: Candidate, ledger: AllotmentLedger, excluded: set<RateKey>)
    returns (picks: Option<seq<Pick>>)
    ensures picks == SelectRates(candidate.rooms, ledger.remaining, excluded)
  {
    var rooms := candidate.rooms;
    if IsOrderCandidate(rooms) {
      return SelectOrderRate(rooms, ledger.remaining, excluded);
    }
    var used: Stock := map[];
    var chosen: seq<Pick> := [];
    ghost var all := SelectPerRoom(rooms, ledger.remaining, map[], excluded);
    assert rooms[0..] == rooms;
    assert all == Prepend([], all) by { if all.Some? { assert [] + all.value == all.value; } }
    for n := 0 to |rooms|
      invariant |chosen| == n
      invariant all == Prepend(chosen, SelectPerRoom(rooms[n..], ledger.remaining, used, excluded))
    {
      SelectPerRoomFrom(rooms, n, chosen, ledger.remaining, used, excluded);
      var option := FirstUsable(rooms[n].options, rooms[n].roomsNeeded, ledger.remaining, used, excluded);
      if option.None? {
        return None;
      }
      used := UseRate(used, option.value.rateKey, rooms[n].roomsNeeded);
      chosen := chosen + [PickOf(rooms[n], option.value)];
    }
    assert rooms[|rooms|..] == [];
    assert chosen + [] == chosen;
    picks := if |chosen| > 0 then Some(chosen) else None;
  }

  // ---- A selection can be claimed ------------------------------------------------

  /** Rooms of one rate key among the picks. */
  function PickedRooms(picks: seq<Pick>, k: RateKey): nat {
    if picks == [] then 0 else
      (if picks[0].rateKey == k then picks[0].roomsNeeded else 0) + PickedRooms(picks[1..], k)
  }

  lemma {:induction false} PickedRoomsAppend(picks: seq<Pick>, last: Pick, k: RateKey)
    ensures PickedRooms(picks + [last], k) == PickedRooms(picks, k) + if last.rateKey == k then last.roomsNeeded else 0
  {
    if picks == [] {
      assert picks + [last] == [last];
    } else {
      assert (picks + [last])[1..] == picks[1..] + [last];
      PickedRoomsAppend(picks[1..], last, k);
    }
  }

  lemma {:induction false} TotalsArePickedRooms(picks: seq<Pick>, k: RateKey)
    ensures Available(Totals(PickItems(picks)), k) == PickedRooms(picks, k)
  {
    if picks != [] {
      var n := |picks| - 1;
      TotalsArePickedRooms(picks[..n], k);
      assert PickItems(picks)[..n] == PickItems(picks[..n]);
      PickedRoomsAppend(picks[..n], picks[n], k);
      assert picks == picks[..n] + [picks[n]];
    }
  }

  lemma {:induction false} PerRoomFitsStock(
    rooms: seq<RoomPlan>, stock: Stock, used: Stock, excluded: set<RateKey>, k: RateKey)
    requires SelectPerRoom(rooms, stock, used, excluded).Some?
    requires Available(used, k) <= Available(stock, k)
    ensures Available(used, k) + PickedRooms(SelectPerRoom(rooms, stock, used, excluded).value, k) <= Available(stock, k)
  {
    if rooms != [] {
      var option := FirstUsable(rooms[0].options, rooms[0].roomsNeeded, stock, used, excluded).value;
      var used' := UseRate(used, option.rateKey, rooms[0].roomsNeeded);
      var rest := SelectPerRoom(rooms[1..], stock, used', excluded).value;
      PerRoomFitsStock(rooms[1..], stock, used', excluded, k);
      assert ([PickOf(rooms[0], option)] + rest)[1..] == rest;
    }
  }

  lemma {:induction false} OrderPicksTotal(rooms: seq<RoomPlan>, option: RateOption, k: RateKey)
    ensures PickedRooms(seq(|rooms|, i requires 0 <= i < |rooms| => PickOf(rooms[i], option)), k)
         == if option.rateKey == k then TotalRooms(rooms) else 0
  {
    if rooms != [] {
      var picks := seq(|rooms|, i requires 0 <= i < |rooms| => PickOf(rooms[i], option));
      assert picks[1..] == seq(|rooms[1..]|, i requires 0 <= i < |rooms[1..]| => PickOf(rooms[1..][i], option));
      OrderPicksTotal(rooms[1..], option, k);
    }
  }

  /** Whatever rates a selection picks, the ledger it was made against can claim them all at once. */
  lemma {:induction false} SelectionCanBeClaimed(rooms: seq<RoomPlan>, stock: Stock, excluded: set<RateKey>)
    requires SelectRates(rooms, stock, excluded).Some?
    ensures Covers(stock, Totals(PickItems(SelectRates(rooms, stock, excluded).value)))
  {
    var picks := SelectRates(rooms, stock, excluded).value;
    var totals := Totals(PickItems(picks));
    forall k | k in totals
      ensures totals[k] <= Available(stock, k)
    {
      TotalsArePickedRooms(picks, k);
      if IsOrderCandidate(rooms) {
        OrderPicksTotal(rooms, FirstOrder(rooms[0].options, rooms, stock, excluded).value, k);
      } else {
        PerRoomFitsStock(rooms, stock, map[], excluded, k);
      }
    }
  }

  // ---- A selection keeps the rooms of the candidate -----------------------------------

  lemma {:induction false} PerRoomPicks(rooms: seq<RoomPlan>, stock: Stock, used: Stock, excluded: set<RateKey>)
    requires SelectPerRoom(rooms, stock, used, excluded).Some?
    ensures var picks := SelectPerRoom(rooms, stock, used, excluded).value;
      |picks| == |rooms|
      && forall i | 0 <= i < |rooms| ::
           picks[i].shape == rooms[i].shape && picks[i].roomsNeeded == rooms[i].roomsNeeded
           && picks[i].rateKey !in excluded && OffersKey(rooms[i], picks[i].rateKey)
  {
    if rooms != [] {
      var option := FirstUsable(rooms[0].options, rooms[0].roomsNeeded, stock, used, excluded).value;
      PerRoomPicks(rooms[1..], stock, UseRate(used, option.rateKey, rooms[0].roomsNeeded), excluded);
    }
  }

  /** Every pick is for its room type, as many rooms as needed, on a rate that room type offers. */
  lemma {:induction false} PicksMatchRooms(rooms: seq<RoomPlan>, stock: Stock, excluded: set<RateKey>)
    requires SelectRates(rooms, stock, excluded).Some?
    ensures var picks := SelectRates(rooms, stock, excluded).value;
      |picks| == |rooms| > 0
      && forall i | 0 <= i < |rooms| ::
           picks[i].shape == rooms[i].shape && picks[i].roomsNeeded == rooms[i].roomsNeeded
           && picks[i].rateKey !in excluded && OffersKey(rooms[i], picks[i].rateKey)
  {
    if !IsOrderCandidate(rooms) {
      PerRoomPicks(rooms, stock, map[], excluded);
    }
  }

  // ---- One order for all rooms ------------------------------------------------------------

  /** This rate books all rooms of the candidate as one order, and has enough of them left. */
  predicate BooksWhole(rooms: seq<RoomPlan>, o: RateOption, stock: Stock, excluded: set<RateKey>)
    requires rooms != []
  {
    && o in rooms[0].options && o.orderRooms.Some? && o.orderRooms.value == TotalRooms(rooms)
    && o.rateKey !in excluded && o.rateKey in stock && stock[o.rateKey] >= TotalRooms(rooms)
    && forall i | 0 <= i < |rooms| :: exists other | other in rooms[i].options :: other.rateKey == o.rateKey
  }

  /**
   A candidate for one order is selected if and only if some order for exactly its
   number of rooms is listed for every room type, not excluded, and has that many
   rooms left; all rooms are then picked on that one rate.
   */
  lemma {:induction false} OrderSelectedIff(rooms: seq<RoomPlan>, stock: Stock, excluded: set<RateKey>)
    requires IsOrderCandidate(rooms) && TotalRooms(rooms) > 0
    ensures var selected := SelectRates(rooms, stock, excluded);
      && (selected.Some? <==> exists o | o in rooms[0].options :: BooksWhole(rooms, o, stock, excluded))
      && (selected.Some? ==>
            exists o | o in rooms[0].options :: BooksWhole(rooms, o, stock, excluded)
              && selected.value == seq(|rooms|, i requires 0 <= i < |rooms| => PickOf(rooms[i], o)))
  {
    forall o | o in rooms[0].options
      ensures OrderUsable(o, rooms, stock, excluded) <==> BooksWhole(rooms, o, stock, excluded)
    {
      UsableOrder(rooms, o, stock, excluded);
    }
  }

  lemma {:induction false} UsableOrder(rooms: seq<RoomPlan>, o: RateOption, stock: Stock, excluded: set<RateKey>)
    requires rooms != [] && o in rooms[0].options && TotalRooms(rooms) > 0
    ensures OrderUsable(o, rooms, stock, excluded) <==> BooksWhole(rooms, o, stock, excluded)
  {
    forall i | 0 <= i < |rooms| ensures rooms[i] in rooms {
    }
    assert (forall plan | plan in rooms :: OffersKey(plan, o.rateKey)) <==>
      forall i | 0 <= i < |rooms| :: exists other | other in rooms[i].options :: other.rateKey == o.rateKey by {
      forall i | 0 <= i < |rooms|
        ensures OffersKey(rooms[i], o.rateKey) <==> exists other | other in rooms[i].options :: other.rateKey == o.rateKey
      {
      }
    }
  }

  // ---- Without shared rates the greedy choice misses nothing ------------------------------

  /** Some assignment of an allowed option to each room fits the stock. */
  ghost predicate Assignable(rooms: seq<RoomPlan>, stock: Stock, excluded: set<RateKey>) {
    exists picks: seq<Pick> :: IsAssignment(picks, rooms, stock, excluded)
  }

  ghost predicate IsAssignment(picks: seq<Pick>, rooms: seq<RoomPlan>, stock: Stock, excluded: set<RateKey>) {
    && |picks| == |rooms|
    && (forall i | 0 <= i < |rooms| ::
          && picks[i].roomsNeeded == rooms[i].roomsNeeded
          && picks[i].rateKey !in excluded && OffersKey(rooms[i], picks[i].rateKey))
    && forall k: RateKey :: PickedRooms(picks, k) <= Available(stock, k)
  }

  function Keys(options: seq<RateOption>): set<RateKey> {
    set o | o in options :: o.rateKey
  }

  predicate DisjointOptions(rooms: seq<RoomPlan>) {
    forall i, j | 0 <= i < j < |rooms| :: Keys(rooms[i].options) !! Keys(rooms[j].options)
  }

  /** Some allowed option of this room type has enough rooms on its own. */
  predicate RoomHasRate(plan: RoomPlan, stock: Stock, excluded: set<RateKey>) {
    exists o | o in plan.options :: o.rateKey !in excluded && Available(stock, o.rateKey) >= plan.roomsNeeded
  }

  lemma {:induction false} PickedAtLeast(picks: seq<Pick>, i: nat)
    requires i < |picks|
    ensures PickedRooms(picks, picks[i].rateKey) >= picks[i].roomsNeeded
  {
    if i > 0 {
      PickedAtLeast(picks[1..], i - 1);
    }
  }

  lemma {:induction false} FreshRoomHasUsable(plan: RoomPlan, stock: Stock, used: Stock, excluded: set<RateKey>)
    requires Keys(plan.options) !! used.Keys && RoomHasRate(plan, stock, excluded)
    ensures FirstUsable(plan.options, plan.roomsNeeded, stock, used, excluded).Some?
    ensures FirstUsable(plan.options, plan.roomsNeeded, stock, used, excluded).value.rateKey in Keys(plan.options)
  {
    var o :| o in plan.options && o.rateKey !in excluded && Available(stock, o.rateKey) >= plan.roomsNeeded;
    assert o.rateKey in Keys(plan.options);
    assert Usable(o, plan.roomsNeeded, stock, used, excluded);
  }

  lemma {:induction false} DisjointGreedy(rooms: seq<RoomPlan>, stock: Stock, used: Stock, excluded: set<RateKey>)
    requires DisjointOptions(rooms)
    requires forall i | 0 <= i < |rooms| :: Keys(rooms[i].options) !! used.Keys
    requires forall i | 0 <= i < |rooms| :: RoomHasRate(rooms[i], stock, excluded)
    ensures SelectPerRoom(rooms, stock, used, excluded).Some?
  {
    if rooms != [] {
      FreshRoomHasUsable(rooms[0], stock, used, excluded);
      var option := FirstUsable(rooms[0].options, rooms[0].roomsNeeded, stock, used, excluded).value;
      var rest := rooms[1..];
      forall i | 0 <= i < |rest|
        ensures Keys(rest[i].options) !! UseRate(used, option.rateKey, rooms[0].roomsNeeded).Keys
      {
        assert rest[i] == rooms[i + 1];
      }
      DisjointGreedy(rest, stock, UseRate(used, option.rateKey, rooms[0].roomsNeeded), excluded);
    }
  }

  lemma {:induction false} SelectionIsAssignment(rooms: seq<RoomPlan>, stock: Stock, excluded: set<RateKey>)
    requires !IsOrderCandidate(rooms) && SelectRates(rooms, stock, excluded).Some?
    ensures Assignable(rooms, stock, excluded)
  {
    var picks := SelectRates(rooms, stock, excluded).value;
    PicksMatchRooms(rooms, stock, excluded);
    forall k: RateKey
      ensures PickedRooms(picks, k) <= Available(stock, k)
    {
      PerRoomFitsStock(rooms, stock, map[], excluded, k);
    }
    assert IsAssignment(picks, rooms, stock, excluded);
  }

  lemma {:induction false} AssignmentHasRates(rooms: seq<RoomPlan>, stock: Stock, excluded: set<RateKey>)
    requires Assignable(rooms, stock, excluded)
    ensures forall i | 0 <= i < |rooms| :: RoomHasRate(rooms[i], stock, excluded)
  {
    var picks: seq<Pick> :| IsAssignment(picks, rooms, stock, excluded);
    forall i | 0 <= i < |rooms|
      ensures RoomHasRate(rooms[i], stock, excluded)
    {
      PickedAtLeast(picks, i);
      var o :| o in rooms[i].options && o.rateKey == picks[i].rateKey;
      assert PickedRooms(picks, o.rateKey) <= Available(stock, o.rateKey);
    }
  }

  /**
   When no two room types share a rate key, greedy finds rates exactly when some
   assignment exists, whatever stock is left and whatever rates are excluded.
   */
  lemma {:induction false} GreedyIsCompleteWithoutSharing(rooms: seq<RoomPlan>, stock: Stock, excluded: set<RateKey>)
    requires rooms != [] && !IsOrderCandidate(rooms) && DisjointOptions(rooms)
    ensures SelectRates(rooms, stock, excluded).Some? <==> Assignable(rooms, stock, excluded)
  {
    if SelectRates(rooms, stock, excluded).Some? {
      SelectionIsAssignment(rooms, stock, excluded);
    }
    if Assignable(rooms, stock, excluded) {
      AssignmentHasRates(rooms, stock, excluded);
      DisjointGreedy(rooms, stock, map[], excluded);
    }
  }
}
