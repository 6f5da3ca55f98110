/**
 Rooms for a party: the configured splits, the check on rooms a user sets, and
 the closed test of whether any arrangement exists.
 */
module Rooms {
  import opened Common

  datatype Shape = Shape(adults: nat, children: nat)

  datatype SplitPlan = SplitPlan(preferred: seq<Shape>, fallbacks: seq<seq<Shape>>)

  const MAX_ROOMS: nat := 9
  const MAX_ADULTS_PER_ROOM: nat := 6
  const MAX_CHILDREN_PER_ROOM: nat := 4

  function SumAdults(rooms: seq<Shape>): nat {
    if rooms == [] then 0 else rooms[0].adults + SumAdults(rooms[1..])
  }

  function SumChildren(rooms: seq<Shape>): nat {
    if rooms == [] then 0 else rooms[0].children + SumChildren(rooms[1..])
  }

  predicate ValidateSplit(adults: int, children: int, rooms: seq<Shape>) {
    && SumAdults(rooms) == adults
    && SumChildren(rooms) == children
    && !(exists room | room in rooms :: room.children > 0 && room.adults == 0)
    && forall room | room in rooms :: room.adults >= 1
  }

  datatype RoomsError = RoomCount | RoomTooManyAdults | RoomTooManyChildren | WrongParty

  /** Why rooms the user set cannot hold this party. */
  function CustomRoomsError(adults: int, children: int, rooms: seq<Shape>): Option<RoomsError> {
    if |rooms| < 1 || |rooms| > MAX_ROOMS then Some(RoomCount)
    else if exists room | room in rooms :: room.adults > MAX_ADULTS_PER_ROOM then Some(RoomTooManyAdults)
    else if exists room | room in rooms :: room.children > MAX_CHILDREN_PER_ROOM then Some(RoomTooManyChildren)
    else if !ValidateSplit(adults, children, rooms) then Some(WrongParty)
    else None
  }

  predicate ArrangementPossible(adults: int, children: int) {
    adults >= 1 && children >= 0
    && var roomsWithAdult := Min(adults, MAX_ROOMS);
       adults <= MAX_ROOMS * MAX_ADULTS_PER_ROOM && children <= roomsWithAdult * MAX_CHILDREN_PER_ROOM
  }

  // ---- The closed test decides existence ----------------------------------------

  /** Sums of accepted rooms are bounded by the room count. */
  lemma {:induction false} SumsAreBounded(rooms: seq<Shape>)
    requires forall room | room in rooms ::
               1 <= room.adults <= MAX_ADULTS_PER_ROOM && room.children <= MAX_CHILDREN_PER_ROOM
    ensures |rooms| <= SumAdults(rooms) <= |rooms| * MAX_ADULTS_PER_ROOM
    ensures SumChildren(rooms) <= |rooms| * MAX_CHILDREN_PER_ROOM
  {
    if rooms != [] {
      SumsAreBounded(rooms[1..]);
    }
  }

  /** `n` rooms filled front to back, each keeping an adult for every later room. */
  function Arrange(adults: nat, children: nat, n: nat): (rooms: seq<Shape>)
    requires n <= adults <= n * MAX_ADULTS_PER_ROOM && children <= n * MAX_CHILDREN_PER_ROOM
    ensures |rooms| == n && SumAdults(rooms) == adults && SumChildren(rooms) == children
    ensures forall room | room in rooms ::
              1 <= room.adults <= MAX_ADULTS_PER_ROOM && room.children <= MAX_CHILDREN_PER_ROOM
    decreases n
  {
    if n == 0 then [] else
      var a: nat := Min(MAX_ADULTS_PER_ROOM, adults - (n - 1));
      var c: nat := Min(MAX_CHILDREN_PER_ROOM, children);
      [Shape(a, c)] + Arrange(adults - a, children - c, n - 1)
  }

  /** An arrangement is reported possible exactly when some list of rooms would be accepted. */
  lemma {:induction false} ArrangementPossibleIffRoomsExist(adults: int, children: int)
    ensures ArrangementPossible(adults, children) <==>
            exists rooms: seq<Shape> :: CustomRoomsError(adults, children, rooms) == None
  {
    if ArrangementPossible(adults, children) {
      var rooms := Arrange(adults, children, Min(adults, MAX_ROOMS));
      assert CustomRoomsError(adults, children, rooms) == None;
    }
    if rooms: seq<Shape> :| CustomRoomsError(adults, children, rooms) == None {
      SumsAreBounded(rooms);
    }
  }

  // ---- Configured splits ------------------------------------------------------------

  function R(adults: nat, children: nat): Shape {
    Shape(adults, children)
  }

  /** A split the supplier accepts for exactly this party. */
  predicate Accepted(adults: int, children: int, rooms: seq<Shape>) {
    CustomRoomsError(adults, children, rooms) == None
  }

  predicate RuleAccepted(adults: int, children: int, rule: Option<SplitPlan>) {
    rule.Some? ==>
      adults >= 1 && children >= 0 && Accepted(adults, children, rule.value.preferred)
      && forall rooms | rooms in rule.value.fallbacks :: Accepted(adults, children, rooms)
  }

  predicate Bookable(a: Shape) {
    1 <= a.adults <= MAX_ADULTS_PER_ROOM && a.children <= MAX_CHILDREN_PER_ROOM
  }

  /** `Accepted` for one to four rooms, room by room. */
  predicate Fits(adults: int, children: int, r: seq<Shape>) {
    match |r|
    case 1 => Bookable(r[0])
              && r[0].adults == adults && r[0].children == children
    case 2 => Bookable(r[0]) && Bookable(r[1])
              && r[0].adults + r[1].adults == adults && r[0].children + r[1].children == children
    case 3 => Bookable(r[0]) && Bookable(r[1]) && Bookable(r[2])
              && r[0].adults + r[1].adults + r[2].adults == adults
              && r[0].children + r[1].children + r[2].children == children
    case 4 => Bookable(r[0]) && Bookable(r[1]) && Bookable(r[2]) && Bookable(r[3])
              && r[0].adults + r[1].adults + r[2].adults + r[3].adults == adults
              && r[0].children + r[1].children + r[2].children + r[3].children == children
    case _ => false
  }

  predicate RuleFits(adults: int, children: int, rule: Option<SplitPlan>) {
    rule.Some? ==>
      adults >= 1 && children >= 0 && Fits(adults, children, rule.value.preferred)
      && |rule.value.fallbacks| <= 1
      && (|rule.value.fallbacks| == 1 ==> Fits(adults, children, rule.value.fallbacks[0]))
  }

  lemma {:induction false} FitsIsAccepted(adults: int, children: int, r: seq<Shape>)
    requires Fits(adults, children, r)
    ensures Accepted(adults, children, r)
  {
    assert r == [r[0]] + r[1..];
    if |r| > 1 {
      FitsIsAccepted(adults - r[0].adults, children - r[0].children, r[1..]);
    }
  }

  function Plan(preferred: seq<Shape>, fallbacks: seq<seq<Shape>>): Option<SplitPlan> {
    Some(SplitPlan(preferred, fallbacks))
  }

  function AdultsOnlyRule(adults: int): (r: Option<SplitPlan>)
    ensures RuleFits(adults, 0, r)
  {
    match adults
    case 1 => Plan([R(1, 0)], [])
    case 2 => Plan([R(2, 0)], [])
    case 3 => Plan([R(3, 0)], [[R(2, 0), R(1, 0)]])
    case 4 => Plan([R(2, 0), R(2, 0)], [[R(3, 0), R(1, 0)]])
    case 5 => Plan([R(2, 0), R(2, 0), R(1, 0)], [[R(3, 0), R(2, 0)]])
    case 6 => Plan([R(2, 0), R(2, 0), R(2, 0)], [[R(3, 0), R(2, 0), R(1, 0)]])
    case 7 => Plan([R(4, 0), R(3, 0)], [[R(3, 0), R(2, 0), R(2, 0)]])
    case 8 => Plan([R(2, 0), R(2, 0), R(2, 0), R(2, 0)], [[R(3, 0), R(2, 0), R(2, 0), R(1, 0)]])
    case 9 => Plan([R(4, 0), R(3, 0), R(2, 0)], [[R(3, 0), R(3, 0), R(3, 0)]])
    case _ => None
  }

  function OneAdultRule(children: int): (r: Option<SplitPlan>)
    ensures RuleFits(1, children, r)
  {
    match children
    case 1 => Plan([R(1, 1)], [])
    case 2 => Plan([R(1, 2)], [])
    case 3 => Plan([R(1, 3)], [])
    case 4 => Plan([R(1, 4)], [])
    case _ => None
  }

  function TwoAdultsRule(children: int): (r: Option<SplitPlan>)
    ensures RuleFits(2, children, r)
  {
    match children
    case 1 => Plan([R(2, 1)], [[R(1, 1), R(1, 0)]])
    case 2 => Plan([R(2, 2)], [[R(1, 1), R(1, 1)]])
    case 3 => Plan([R(1, 2), R(1, 1)], [[R(2, 3)]])
    case 4 => Plan([R(1, 2), R(1, 2)], [[R(2, 4)]])
    case 5 => Plan([R(1, 3), R(1, 2)], [[R(1, 4), R(1, 1)]])
    case 6 => Plan([R(1, 3), R(1, 3)], [[R(1, 4), R(1, 2)]])
    case 7 => Plan([R(1, 4), R(1, 3)], [])
    case _ => None
  }

  function ThreeAdultsRule(children: int): (r: Option<SplitPlan>)
    ensures RuleFits(3, children, r)
  {
    match children
    case 1 => Plan([R(2, 0), R(1, 1)], [[R(2, 1), R(1, 0)]])
    case 2 => Plan([R(2, 0), R(1, 2)], [[R(2, 1), R(1, 1)]])
    case 3 => Plan([R(2, 0), R(1, 3)], [[R(2, 2), R(1, 1)]])
    case 4 => Plan([R(2, 1), R(1, 3)], [[R(2, 2), R(1, 2)]])
    case 5 => Plan([R(2, 2), R(1, 3)], [[R(2, 1), R(1, 4)]])
    case 6 => Plan([R(2, 3), R(1, 3)], [[R(1, 2), R(1, 2), R(1, 2)]])
    case _ => None
  }

  function FourAdultsRule(children: int): (r: Option<SplitPlan>)
    ensures RuleFits(4, children, r)
  {
    match children
    case 1 => Plan([R(2, 0), R(2, 1)], [[R(2, 1), R(1, 0), R(1, 0)]])
    case 2 => Plan([R(2, 0), R(2, 2)], [[R(2, 1), R(2, 1)]])
    case 3 => Plan([R(2, 1), R(2, 2)], [[R(2, 0), R(1, 3), R(1, 0)]])
    case 4 => Plan([R(2, 2), R(2, 2)], [[R(2, 0), R(1, 3), R(1, 1)]])
    case 5 => Plan([R(2, 2), R(2, 3)], [[R(2, 1), R(1, 2), R(1, 2)]])
    case _ => None
  }

  function FiveAdultsRule(children: int): (r: Option<SplitPlan>)
    ensures RuleFits(5, children, r)
  {
    match children
    case 1 => Plan([R(2, 0), R(2, 0), R(1, 1)], [[R(2, 0), R(2, 1), R(1, 0)]])
    case 2 => Plan([R(2, 0), R(2, 0), R(1, 2)], [[R(2, 0), R(2, 1), R(1, 1)]])
    case 3 => Plan([R(2, 0), R(2, 1), R(1, 2)], [[R(2, 0), R(2, 0), R(1, 3)]])
    case 4 => Plan([R(2, 0), R(2, 2), R(1, 2)], [[R(2, 2), R(2, 2), R(1, 0)]])
    case _ => None
  }

  function SixAdultsRule(children: int): (r: Option<SplitPlan>)
    ensures RuleFits(6, children, r)
  {
    match children
    case 1 => Plan([R(2, 0), R(2, 0), R(2, 1)], [[R(3, 0), R(2, 0), R(1, 1)]])
    case 2 => Plan([R(2, 0), R(2, 0), R(2, 2)], [[R(2, 0), R(2, 1), R(2, 1)]])
    case 3 => Plan([R(2, 0), R(2, 1), R(2, 2)], [[R(3, 0), R(2, 1), R(1, 2)]])
    case _ => None
  }

  function ManyAdultsRule(adults: int, children: int): (r: Option<SplitPlan>)
    ensures RuleFits(adults, children, r)
  {
    match (adults, children)
    case (7, 1) => Plan([R(3, 0), R(2, 0), R(2, 1)], [[R(4, 0), R(2, 0), R(1, 1)]])
    case (7, 2) => Plan([R(4, 0), R(2, 0), R(1, 2)], [[R(3, 0), R(2, 1), R(2, 1)]])
    case (8, 1) => Plan([R(3, 0), R(3, 0), R(2, 1)], [[R(4, 0), R(2, 0), R(2, 1)]])
    case _ => None
  }

  /** ROOM_SPLIT_RULES. */
  function SplitRule(adults: int, children: int): (r: Option<SplitPlan>)
    ensures RuleFits(adults, children, r)
  {
    if children == 0 then AdultsOnlyRule(adults)
    else if adults == 1 then OneAdultRule(children)
    else if adults == 2 then TwoAdultsRule(children)
    else if adults == 3 then ThreeAdultsRule(children)
    else if adults == 4 then FourAdultsRule(children)
    else if adults == 5 then FiveAdultsRule(children)
    else if adults == 6 then SixAdultsRule(children)
    else ManyAdultsRule(adults, children)
  }

  datatype SplitResult = NoAdults | NegativeChildren | NoRule | InvalidRule | Split(plan: SplitPlan)

  function ValidSplits(adults: int, children: int, splits: seq<seq<Shape>>): seq<seq<Shape>> {
    if splits == [] then []
    else if ValidateSplit(adults, children, splits[0])
    then [splits[0]] + ValidSplits(adults, children, splits[1..])
    else ValidSplits(adults, children, splits[1..])
  }

  function ResolveRoomSplitPlan(adults: int, children: int): SplitResult {
    if adults < 1 then NoAdults
    else if children < 0 then NegativeChildren
    else
      match SplitRule(adults, children)
      case None => NoRule
      case Some(plan) =>
        if ValidateSplit(adults, children, plan.preferred)
        then Split(plan.(fallbacks := ValidSplits(adults, children, plan.fallbacks)))
        else InvalidRule
  }

  lemma {:induction false} ValidSplitsKeepsAll(adults: int, children: int, splits: seq<seq<Shape>>)
    requires forall rooms | rooms in splits :: Accepted(adults, children, rooms)
    ensures ValidSplits(adults, children, splits) == splits
  {
    if splits != [] {
      assert Accepted(adults, children, splits[0]);
      ValidSplitsKeepsAll(adults, children, splits[1..]);
    }
  }

  lemma {:induction false} FittingPlan(adults: int, children: int, plan: SplitPlan)
    requires RuleFits(adults, children, Some(plan))
    ensures RuleAccepted(adults, children, Some(plan))
    ensures ValidSplits(adults, children, plan.fallbacks) == plan.fallbacks
  {
    FitsIsAccepted(adults, children, plan.preferred);
    if |plan.fallbacks| == 1 {
      FitsIsAccepted(adults, children, plan.fallbacks[0]);
    }
    ValidSplitsKeepsAll(adults, children, plan.fallbacks);
  }

  /**
   Every configured rule holds exactly its party, an adult in every room, within
   the supplier's limits: a rule is never rejected and none of its fallbacks is
   dropped. A party no rule covers may still be arranged by hand.
   */
  lemma {:induction false} RulesAreUsedAsConfigured(adults: int, children: int, plan: SplitPlan)
    requires SplitRule(adults, children) == Some(plan)
    ensures ResolveRoomSplitPlan(adults, children) == Split(plan)
    ensures forall rooms | rooms == plan.preferred || rooms in plan.fallbacks ::
              CustomRoomsError(adults, children, rooms) == None
    ensures ArrangementPossible(adults, children)
  {
    FittingPlan(adults, children, plan);
    ArrangementPossibleIffRoomsExist(adults, children);
  }

  /** Every party of up to nine travellers that can be arranged at all has a rule, and no other party has one. */
  lemma {:induction false} PartiesWithRules(adults: int, children: int)
    ensures SplitRule(adults, children).Some? <==> adults + children <= 9 && ArrangementPossible(adults, children)
  {
  }

  /** What becomes of a party: refused without an adult, with a negative count or without a rule; never for its rule. */
  lemma {:induction false} PartyIsResolved(adults: int, children: int)
    ensures var result := ResolveRoomSplitPlan(adults, children);
      && (result == NoAdults <==> adults < 1)
      && (result == NegativeChildren <==> adults >= 1 && children < 0)
      && (result == NoRule <==> adults >= 1 && children >= 0 && (adults + children > 9 || (adults == 1 && children > 4)))
      && result != InvalidRule
  {
    PartiesWithRules(adults, children);
    if SplitRule(adults, children).Some? {
      RulesAreUsedAsConfigured(adults, children, SplitRule(adults, children).value);
    }
  }

  /** Rooms a user set are refused for the first of these reasons, and accepted if none holds. */
  lemma {:induction false} CustomRoomsAreRefusedIff(adults: int, children: int, rooms: seq<Shape>)
    ensures var refused := CustomRoomsError(adults, children, rooms);
      var crowded := exists i | 0 <= i < |rooms| :: rooms[i].adults > 6;
      var childish := exists i | 0 <= i < |rooms| :: rooms[i].children > 4;
      && (refused == Some(RoomCount) <==> rooms == [] || |rooms| > 9)
      && (refused == Some(RoomTooManyAdults) <==> 0 < |rooms| <= 9 && crowded)
      && (refused == Some(RoomTooManyChildren) <==> 0 < |rooms| <= 9 && !crowded && childish)
      && (refused == None <==>
            && 0 < |rooms| <= 9 && !crowded && !childish
            && SumAdults(rooms) == adults && SumChildren(rooms) == children
            && forall i | 0 <= i < |rooms| :: rooms[i].adults >= 1)
  {
    forall i | 0 <= i < |rooms| ensures rooms[i] in rooms {
    }
  }
}
