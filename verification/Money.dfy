/**
 Prices: splitting an order's price over its rooms, the platform fee, and the
 amounts a booking is reserved and charged with. Amounts are in cents; `real`
 carries the fractions that rounding removes.
 */
module Money {

  function Round(amount: real): int {
    (amount + 0.5).Floor
  }

  /** Rounding moves an amount by at most half a cent, a tie upwards. */
  lemma {:induction false} RoundIsNearest(amount: real, n: int)
    ensures Round(amount) == n <==> -0.5 <= amount - n as real < 0.5
  {
  }

  lemma {:induction false} RoundShifts(whole: int, amount: real)
    ensures Round(whole as real + amount) == whole + Round(amount)
  {
    RoundIsNearest(amount, Round(amount));
    RoundIsNearest(whole as real + amount, whole + Round(amount));
  }

  // ---- splitAmount ------------------------------------------------------------------

  function Share(total: int, parts: nat): int
    requires parts > 0
  {
    Round(total as real / parts as real)
  }

  /** All rooms but the last get the rounded share; the last takes what is left. */
  function SplitAmount(total: int, parts: nat): (shares: seq<int>)
    ensures |shares| == if parts <= 1 then 1 else parts
  {
    if parts <= 1 then [total] else
      seq(parts, i requires 0 <= i < parts =>
        if i < parts - 1 then Share(total, parts) else Round((total - Share(total, parts) * (parts - 1)) as real))
  }

  function Sum(amounts: seq<int>): int {
    if amounts == [] then 0 else Sum(amounts[..|amounts| - 1]) + amounts[|amounts| - 1]
  }

  lemma {:induction false} SumOfEqual(amounts: seq<int>, share: int)
    requires forall i | 0 <= i < |amounts| :: amounts[i] == share
    ensures Sum(amounts) == |amounts| * share
  {
    if amounts != [] {
      SumOfEqual(amounts[..|amounts| - 1], share);
    }
  }

  /** The shares of any number of rooms add up to the total exactly. */
  lemma {:induction false} SplitIsExact(total: int, parts: nat)
    ensures Sum(SplitAmount(total, parts)) == total
  {
    var shares := SplitAmount(total, parts);
    var front := shares[..|shares| - 1];
    if parts > 1 {
      SumOfEqual(front, Share(total, parts));
      RoundIsNearest((total - Share(total, parts) * (parts - 1)) as real, total - Share(total, parts) * (parts - 1));
    } else {
      assert front == [];
      assert Sum(front) == 0;
    }
  }

  lemma {:induction false} RoundOfQuotient(total: int, parts: nat, n: int)
    requires parts > 0 && (2 * n - 1) * parts <= 2 * total < (2 * n + 1) * parts
    ensures Round(total as real / parts as real) == n
  {
    var x, d := total as real / parts as real, parts as real;
    assert x * d == total as real;
    assert (x - n as real + 0.5) * d == total as real - n as real * d + 0.5 * d >= 0.0 by {
      assert ((2 * n - 1) * parts) as real == 2.0 * n as real * d - d;
    }
    assert (x - n as real - 0.5) * d == total as real - n as real * d - 0.5 * d < 0.0 by {
      assert ((2 * n + 1) * parts) as real == 2.0 * n as real * d + d;
    }
    Sign(x - n as real + 0.5, d);
    Sign(x - n as real - 0.5, d);
    RoundIsNearest(x, n);
  }

  lemma {:induction false} Sign(x: real, d: real)
    requires d > 0.0
    ensures x * d >= 0.0 <==> x >= 0.0
  {
  }

  /** The rounded share in whole-number terms: the quotient, or one more from half a cent on. */
  lemma {:induction false} ShareIsQuotient(total: nat, parts: nat)
    requires parts > 0
    ensures Share(total, parts) == total / parts + if 2 * (total % parts) < parts then 0 else 1
  {
    var q, r := total / parts, total % parts;
    assert total == q * parts + r;
    var n := if 2 * r < parts then q else q + 1;
    assert (2 * n) * parts == 2 * (q * parts) + if 2 * r < parts then 0 else 2 * parts;
    assert (2 * n - 1) * parts == (2 * n) * parts - parts;
    assert (2 * n + 1) * parts == (2 * n) * parts + parts;
    RoundOfQuotient(total, parts, n);
  }

  /** What the last room pays. */
  lemma {:induction false} LastShare(total: nat, parts: nat)
    requires parts > 1
    ensures SplitAmount(total, parts)[parts - 1] ==
      total / parts + total % parts + if 2 * (total % parts) < parts then 0 else 1 - parts
  {
    var q, r, share := total / parts, total % parts, Share(total, parts);
    ShareIsQuotient(total, parts);
    assert total == q * parts + r;
    assert share * (parts - 1) == share * parts - share;
    assert (q + 1) * parts == q * parts + parts;
    RoundIsNearest((total - share * (parts - 1)) as real, total - share * (parts - 1));
  }

  /** A split has a negative share exactly when the last room pays for shares rounded up on too small a total. */
  lemma {:induction false} NegativeShareIff(total: nat, parts: nat)
    requires parts > 1
    ensures (exists i | 0 <= i < parts :: SplitAmount(total, parts)[i] < 0) <==>
            2 * (total % parts) >= parts && total / parts + total % parts + 1 < parts
  {
    ShareIsQuotient(total, parts);
    LastShare(total, parts);
  }

  lemma {:induction false} Scale(a: int, b: int, d: nat)
    requires a <= b
    ensures a * d <= b * d
  {
  }

  lemma {:induction false} SmallTotal(q: nat, r: nat, parts: nat)
    requires 2 * r >= parts && q + r + 1 < parts
    ensures 2 * (q * parts + r) < parts * (parts - 1)
  {
    var square, rp := parts * parts, r * parts;
    Scale(q, parts - 2 - r, parts);
    assert (parts - 2 - r) * parts == square - 2 * parts - rp;
    Scale(parts, 2 * r, parts - 1);
    assert parts * (parts - 1) == square - parts;
    assert 2 * r * (parts - 1) == 2 * rp - 2 * r;
  }

  lemma {:induction false} EnoughIsNotSmall(total: nat, parts: nat)
    requires parts > 1 && 2 * total >= parts * (parts - 1)
    ensures !(2 * (total % parts) >= parts && total / parts + total % parts + 1 < parts)
  {
    var q, r := total / parts, total % parts;
    assert total == q * parts + r;
    if 2 * r >= parts && q + r + 1 < parts {
      SmallTotal(q, r, parts);
    }
  }

  /** From parts * (parts - 1) / 2 cents on, no room gets a negative share. */
  lemma {:induction false} EnoughForEveryRoom(total: nat, parts: nat, i: nat)
    requires 2 * total >= parts * (parts - 1) && i < |SplitAmount(total, parts)|
    ensures SplitAmount(total, parts)[i] >= 0
  {
    if parts > 1 {
      NegativeShareIff(total, parts);
      EnoughIsNotSmall(total, parts);
    }
  }

  // ---- Pricing ------------------------------------------------------------------------

  datatype Pricing = Pricing(
    totalPrice: int,
    actualPrice: int,
    buyingPrice: int,
    sellingPrice: int,
    tax: int,
    platformFee: int,
    earnings: int,
    discount: int)

  function CalculatePricing(actual: real, buying: real, feePercent: real, commissionPercent: real, tax: real): Pricing {
    var selling := actual - actual * (commissionPercent / 100.0);
    var subTotal := selling + tax;
    var fee := subTotal * (feePercent / 100.0);
    var total := subTotal + fee;
    Pricing(
      Round(total), Round(actual), Round(buying), Round(selling), Round(tax), Round(fee),
      Round(total - buying), Round(actual - selling))
  }

  /** Without commission and tax, whole-cent prices add up exactly after rounding. */
  lemma {:induction false} PricesAddUp(actual: int, buying: int, feePercent: real)
    ensures var p := CalculatePricing(actual as real, buying as real, feePercent, 0.0, 0.0);
      && p.actualPrice == p.sellingPrice == actual && p.buyingPrice == buying && p.tax == p.discount == 0
      && p.totalPrice == p.actualPrice + p.platformFee
      && p.earnings == p.totalPrice - p.buyingPrice
  {
    var fee := actual as real * (feePercent / 100.0);
    RoundIsNearest(actual as real, actual);
    RoundIsNearest(buying as real, buying);
    RoundShifts(actual, fee);
    RoundShifts(actual - buying, fee);
    assert actual as real * (0.0 / 100.0) == 0.0;
    assert actual as real + fee - buying as real == (actual - buying) as real + fee;
  }

  /** `n` is the whole number nearest to `amount`, a tie upwards. */
  predicate Nearest(n: int, amount: real) {
    -0.5 <= amount - n as real < 0.5
  }

  /**
   Every amount is the exact one rounded: the selling price is less the commission,
   the fee is its percentage of selling price and tax, and the total is both with
   the fee; earnings and discount are what is left of them.
   */
  lemma {:induction false} PricesAre(actual: real, buying: real, feePercent: real, commissionPercent: real, tax: real)
    ensures var p := CalculatePricing(actual, buying, feePercent, commissionPercent, tax);
      var selling, fee := actual * (1.0 - commissionPercent / 100.0),
                          (actual * (1.0 - commissionPercent / 100.0) + tax) * feePercent / 100.0;
      && Nearest(p.actualPrice, actual) && Nearest(p.buyingPrice, buying) && Nearest(p.tax, tax)
      && Nearest(p.sellingPrice, selling) && Nearest(p.discount, actual * commissionPercent / 100.0)
      && Nearest(p.platformFee, fee) && Nearest(p.totalPrice, selling + tax + fee)
      && Nearest(p.earnings, selling + tax + fee - buying)
  {
    var selling := actual * (1.0 - commissionPercent / 100.0);
    Product(actual, commissionPercent);
    Product(selling + tax, feePercent);
    var fee := (selling + tax) * (feePercent / 100.0);
    RoundIsNearest(actual, Round(actual));
    RoundIsNearest(buying, Round(buying));
    RoundIsNearest(tax, Round(tax));
    RoundIsNearest(selling, Round(selling));
    RoundIsNearest(fee, Round(fee));
    RoundIsNearest(selling + tax + fee, Round(selling + tax + fee));
    RoundIsNearest(selling + tax + fee - buying, Round(selling + tax + fee - buying));
    RoundIsNearest(actual - selling, Round(actual - selling));
  }

  lemma {:induction false} Product(amount: real, percent: real)
    ensures amount * (1.0 - percent / 100.0) == amount - amount * (percent / 100.0)
    ensures amount * (percent / 100.0) == amount * percent / 100.0
  {
  }

  // ---- A manual booking's reserved and final price -----------------------------------------

  /** One supplier order: its price at the re-check and when booked, and its rooms. */
  datatype PricedOrder = PricedOrder(checkedPrice: int, bookedPrice: int, rooms: nat)

  function CheckedPrices(orders: seq<PricedOrder>): seq<int> {
    if orders == [] then [] else CheckedPrices(orders[..|orders| - 1]) + [orders[|orders| - 1].checkedPrice]
  }

  /** Each booked room with its share of its order. */
  function RoomPrices(orders: seq<PricedOrder>): seq<int> {
    if orders == [] then [] else
      RoomPrices(orders[..|orders| - 1]) + SplitAmount(orders[|orders| - 1].bookedPrice, orders[|orders| - 1].rooms)
  }

  /** Reserved in the wallet before the supplier is called. */
  function ReservedShare(orders: seq<PricedOrder>, feePercent: real): int {
    var cost := Sum(CheckedPrices(orders)) as real;
    CalculatePricing(cost, cost, feePercent, 0.0, 0.0).totalPrice
  }

  /** The saved allocation: priced from the sum of its room prices. */
  function AllocationPricing(roomPrices: seq<int>, buyingPrices: seq<int>, feePercent: real): Pricing {
    CalculatePricing(Sum(roomPrices) as real, Sum(buyingPrices) as real, feePercent, 0.0, 0.0)
  }

  lemma {:induction false} SumAppend(a: seq<int>, b: seq<int>)
    ensures Sum(a + b) == Sum(a) + Sum(b)
  {
    if b == [] {
      assert a + b == a;
    } else {
      SumAppend(a, b[..|b| - 1]);
      assert (a + b)[..|a + b| - 1] == a + b[..|b| - 1];
    }
  }

  /** Splitting orders over rooms loses no cent. */
  lemma {:induction false} RoomPricesSum(orders: seq<PricedOrder>)
    requires forall o | o in orders :: o.bookedPrice == o.checkedPrice
    ensures Sum(RoomPrices(orders)) == Sum(CheckedPrices(orders))
  {
    if orders != [] {
      var last := orders[|orders| - 1];
      assert last in orders;
      RoomPricesSum(orders[..|orders| - 1]);
      SplitIsExact(last.bookedPrice, last.rooms);
      SumAppend(RoomPrices(orders[..|orders| - 1]), SplitAmount(last.bookedPrice, last.rooms));
      SumAppend(CheckedPrices(orders[..|orders| - 1]), [last.checkedPrice]);
      assert [last.checkedPrice][..0] == [];
    }
  }

  lemma {:induction false} TotalIgnoresBuying(actual: real, buying: real, other: real, feePercent: real)
    ensures CalculatePricing(actual, buying, feePercent, 0.0, 0.0).totalPrice
         == CalculatePricing(actual, other, feePercent, 0.0, 0.0).totalPrice
  {
  }

  /** Booked at its re-checked prices, a manual booking is charged exactly what was reserved for it. */
  lemma {:induction false} ChargeEqualsReservation(orders: seq<PricedOrder>, buyingPrices: seq<int>, feePercent: real)
    requires forall o | o in orders :: o.bookedPrice == o.checkedPrice
    ensures var p := AllocationPricing(RoomPrices(orders), buyingPrices, feePercent);
      p.totalPrice == ReservedShare(orders, feePercent) == p.actualPrice + p.platformFee
  {
    RoomPricesSum(orders);
    var cost := Sum(CheckedPrices(orders));
    PricesAddUp(cost, Sum(buyingPrices), feePercent);
    TotalIgnoresBuying(cost as real, Sum(buyingPrices) as real, cost as real, feePercent);
  }
}
