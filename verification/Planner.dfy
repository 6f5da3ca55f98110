/**
 Planning the hotels of one PNR: what its rooms need, what a hotel can host,
 the ranked candidates, and the greedy choice of rates for one candidate.
 */
module Planner {
  import opened Common
  import opened Rooms
  import opened Ledger
  import opened Sorting

  datatype Rate = Rate(
    rateKey: RateKey,
    adults: nat,
    children: nat,
    netPrice: int,
    allotment: Option<int>,
    rooms: Option<seq<Shape>>)   // set for a multiroom order rate

  datatype HotelCode = HotelCode(text: string)

  datatype Hotel = Hotel(code: HotelCode, stars: int, radius: int, rates: seq<Rate>)

  datatype RoomNeed = RoomNeed(shape: Shape, roomsNeeded: nat)

  function RateShape(rate: Rate): Shape {
    Shape(rate.adults, rate.children)
  }

  function FreeOf(rate: Rate): int {
    if rate.allotment.Some? then rate.allotment.value else 0
  }

  predicate HasAllotment(rate: Rate) {
    rate.allotment.Some? && rate.allotment.value > 0
  }

  predicate Covering(adults: nat, children: nat, shape: Shape) {
    adults >= shape.adults && children >= shape.children
  }

  /** Order rates that book exactly these rooms, in any order, with allotment for all of them. */
  predicate IsOrderRate(rate: Rate, rooms: seq<Shape>) {
    rate.rooms.Some? && multiset(rate.rooms.value) == multiset(rooms)
    && rate.allotment.Some? && rate.allotment.value >= |rooms|
  }

  function Filter<T(!new)>(keep: T -> bool, xs: seq<T>): (kept: seq<T>)
    ensures forall x :: x in kept <==> x in xs && keep(x)
  {
    if xs == [] then []
    else if keep(xs[0]) then [xs[0]] + Filter(keep, xs[1..])
    else Filter(keep, xs[1..])
  }

  // ---- Room needs -----------------------------------------------------------------

  function FindNeed(needs: seq<RoomNeed>, shape: Shape): (r: Option<nat>)
    ensures r.Some? ==> r.value < |needs| && needs[r.value].shape == shape
    ensures r.None? ==> forall i | 0 <= i < |needs| :: needs[i].shape != shape
  {
    if needs == [] then None
    else if needs[0].shape == shape then Some(0)
    else
      match FindNeed(needs[1..], shape)
      case None => None
      case Some(i) => Some(i + 1)
  }

  function AddRoom(needs: seq<RoomNeed>, room: Shape): seq<RoomNeed> {
    match FindNeed(needs, room)
    case Some(i) => needs[i := needs[i].(roomsNeeded := needs[i].roomsNeeded + 1)]
    case None => needs + [RoomNeed(room, 1)]
  }

  /** Room types of a split with how many rooms of each, in order of first use. */
  function RoomNeeds(rooms: seq<Shape>): seq<RoomNeed> {
    if rooms == [] then [] else AddRoom(RoomNeeds(rooms[..|rooms| - 1]), rooms[|rooms| - 1])
  }

  method ToRoomNeeds(rooms: seq<Shape>) returns (needs: seq<RoomNeed>)
    ensures needs == RoomNeeds(rooms)
  {
    needs := [];
    for n := 0 to |rooms|
      invariant needs == RoomNeeds(rooms[..n])
    {
      assert rooms[..n + 1][..n] == rooms[..n];
      var known := FindNeed(needs, rooms[n]);
      if known.Some? {
        needs := needs[known.value := needs[known.value].(roomsNeeded := needs[known.value].roomsNeeded + 1)];
      } else {
        needs := needs + [RoomNeed(rooms[n], 1)];
      }
    }
    assert rooms[..|rooms|] == rooms;
  }

  predicate DistinctShapes(needs: seq<RoomNeed>) {
    forall i, j | 0 <= i < j < |needs| :: needs[i].shape != needs[j].shape
  }

  /** Each room type appears once, with exactly its number of rooms, and none is missing. */
  lemma {:induction false} RoomNeedsCountRooms(rooms: seq<Shape>)
    ensures DistinctShapes(RoomNeeds(rooms))
    ensures forall i | 0 <= i < |RoomNeeds(rooms)| ::
              RoomNeeds(rooms)[i].roomsNeeded == multiset(rooms)[RoomNeeds(rooms)[i].shape] > 0
    ensures forall room | room in rooms :: FindNeed(RoomNeeds(rooms), room).Some?
  {
    if rooms != [] {
      var front, last := rooms[..|rooms| - 1], rooms[|rooms| - 1];
      RoomNeedsCountRooms(front);
      assert rooms == front + [last];
      var before, after := RoomNeeds(front), RoomNeeds(rooms);
      forall room | room in rooms
        ensures FindNeed(after, room).Some?
      {
        if room in front {
          var i := FindNeed(before, room).value;
          assert after[i].shape == room;
        } else {
          assert FindNeed(before, last).None?;
          assert after[|before|].shape == room;
        }
      }
      if FindNeed(before, last).None? {
        assert last !in front;
      }
    }
  }

  function Replicate(shape: Shape, n: nat): seq<Shape> {
    if n == 0 then [] else [shape] + Replicate(shape, n - 1)
  }

  lemma {:induction false} ReplicateCounts(shape: Shape, n: nat)
    ensures multiset(Replicate(shape, n)) == multiset{}[shape := n]
  {
    if n > 0 { ReplicateCounts(shape, n - 1); }
  }

  /** The rooms a list of needs stands for. */
  function Expand(needs: seq<RoomNeed>): seq<Shape> {
    if needs == [] then [] else Replicate(needs[0].shape, needs[0].roomsNeeded) + Expand(needs[1..])
  }

  lemma {:induction false} ExpandCounts(needs: seq<RoomNeed>, shape: Shape)
    requires DistinctShapes(needs)
    ensures multiset(Expand(needs))[shape] ==
      match FindNeed(needs, shape) case Some(i) => needs[i].roomsNeeded case None => 0
  {
    if needs != [] {
      ExpandCounts(needs[1..], shape);
      ReplicateCounts(needs[0].shape, needs[0].roomsNeeded);
      assert multiset(Expand(needs))[shape] ==
        multiset(Replicate(needs[0].shape, needs[0].roomsNeeded))[shape] + multiset(Expand(needs[1..]))[shape];
    }
  }

  /** Grouping rooms into needs and expanding them again loses and adds nothing. */
  lemma {:induction false} ExpandRoomNeeds(rooms: seq<Shape>)
    ensures multiset(Expand(RoomNeeds(rooms))) == multiset(rooms)
  {
    var needs := RoomNeeds(rooms);
    RoomNeedsCountRooms(rooms);
    forall shape: Shape
      ensures multiset(Expand(needs))[shape] == multiset(rooms)[shape]
    {
      ExpandCounts(needs, shape);
      if shape !in rooms {
        assert multiset(rooms)[shape] == 0;
      }
    }
  }

  // ---- What a hotel can host --------------------------------------------------------

  /** Free single rooms of exactly this type. */
  function FreeRooms(rates: seq<Rate>, shape: Shape): nat {
    if rates == [] then 0 else
      FreeRooms(rates[..|rates| - 1], shape)
      + if rates[|rates| - 1].rooms.None? && RateShape(rates[|rates| - 1]) == shape
        then Max(0, FreeOf(rates[|rates| - 1])) else 0
  }

  method CountFreeRooms(rates: seq<Rate>, shape: Shape) returns (free: nat)
    ensures free == FreeRooms(rates, shape)
  {
    free := 0;
    for i := 0 to |rates|
      invariant free == FreeRooms(rates[..i], shape)
    {
      assert rates[..i + 1][..i] == rates[..i];
      if rates[i].rooms.None? && RateShape(rates[i]) == shape {
        free := free + Max(0, FreeOf(rates[i]));
      }
    }
    assert rates[..|rates|] == rates;
  }

  /** None until the first room type bounds it. */
  function SetsFor(rates: seq<Rate>, needs: seq<RoomNeed>): Option<nat>
    requires forall need | need in needs :: need.roomsNeeded > 0
  {
    if needs == [] then None else
      var need := needs[|needs| - 1];
      Some(Tighter(SetsFor(rates, needs[..|needs| - 1]), FreeRooms(rates, need.shape) / need.roomsNeeded))
  }

  function Tighter(sets: Option<nat>, fit: nat): nat {
    if sets.Some? && sets.value <= fit then sets.value else fit
  }

  function HotelSetCapacity(rates: seq<Rate>, rooms: seq<Shape>): nat {
    RoomNeedsCountRooms(rooms);
    var sets := SetsFor(rates, RoomNeeds(rooms));
    if sets.Some? then sets.value else 0
  }

  /** No rooms make no sets. */
  lemma {:induction false} NoRoomsNoSets(rates: seq<Rate>)
    ensures HotelSetCapacity(rates, []) == 0
  {
    assert RoomNeeds([]) == [];
  }

  method ComputeSets(rates: seq<Rate>, needs: seq<RoomNeed>) returns (sets: Option<nat>)
    requires forall need | need in needs :: need.roomsNeeded > 0
    ensures sets == SetsFor(rates, needs)
  {
    sets := None;
    for n := 0 to |needs|
      invariant sets == SetsFor(rates, needs[..n])
    {
      assert needs[..n + 1][..n] == needs[..n];
      var free := CountFreeRooms(rates, needs[n].shape);
      sets := Some(Tighter(sets, free / needs[n].roomsNeeded));
    }
    assert needs[..|needs|] == needs;
  }

  method ComputeHotelSetCapacity(hotel: Hotel, rooms: seq<Shape>) returns (capacity: nat)
    ensures capacity == HotelSetCapacity(hotel.rates, rooms)
  {
    var needs := ToRoomNeeds(rooms);
    RoomNeedsCountRooms(rooms);
    var sets := ComputeSets(hotel.rates, needs);
    capacity := if sets.Some? then sets.value else 0;
  }

  lemma {:induction false} DivisionBound(k: nat, n: nat, free: nat)
    requires n > 0
    ensures k * n <= free <==> k <= free / n
  {
    if k <= free / n {
      assert k * n <= (free / n) * n;
    } else {
      assert k >= free / n + 1;
      assert k * n >= (free / n + 1) * n;
    }
  }

  lemma {:induction false} SetsForIsLargest(rates: seq<Rate>, needs: seq<RoomNeed>, k: nat)
    requires forall need | need in needs :: need.roomsNeeded > 0
    ensures needs != [] ==> SetsFor(rates, needs).Some?
    ensures needs != [] ==>
      (k <= SetsFor(rates, needs).value <==>
       forall need | need in needs :: k * need.roomsNeeded <= FreeRooms(rates, need.shape))
  {
    if needs != [] {
      var front, last := needs[..|needs| - 1], needs[|needs| - 1];
      SetsForIsLargest(rates, front, k);
      DivisionBound(k, last.roomsNeeded, FreeRooms(rates, last.shape));
      assert forall need :: need in needs <==> need in front || need == last;
    }
  }

  /** Fitting by room types is fitting by rooms. */
  lemma {:induction false} NeedsFitIff(rates: seq<Rate>, rooms: seq<Shape>, k: nat)
    ensures (forall need | need in RoomNeeds(rooms) :: k * need.roomsNeeded <= FreeRooms(rates, need.shape)) <==>
            (forall room | room in rooms :: k * multiset(rooms)[room] <= FreeRooms(rates, room))
  {
    RoomNeedsCountRooms(rooms);
    var needs := RoomNeeds(rooms);
    forall need | need in needs
      ensures need.shape in rooms && need.roomsNeeded == multiset(rooms)[need.shape]
    {
      var i :| 0 <= i < |needs| && needs[i] == need;
      assert need.shape in multiset(rooms);
    }
    forall room | room in rooms
      ensures exists need | need in needs :: need.shape == room
    {
      var i := FindNeed(needs, room).value;
      assert needs[i] in needs;
    }
  }

  /**
   A hotel's set capacity is exactly the largest number of whole sets: k sets fit
   if and only if, for every room type, k times the rooms a set needs are free.
   */
  lemma {:induction false} SetCapacityIsLargest(rates: seq<Rate>, rooms: seq<Shape>, k: nat)
    requires rooms != []
    ensures k <= HotelSetCapacity(rates, rooms) <==>
            forall room | room in rooms :: k * multiset(rooms)[room] <= FreeRooms(rates, room)
  {
    RoomNeedsCountRooms(rooms);
    assert FindNeed(RoomNeeds(rooms), rooms[0]).Some?;
    SetsForIsLargest(rates, RoomNeeds(rooms), k);
    NeedsFitIff(rates, rooms, k);
  }
}
