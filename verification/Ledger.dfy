/**
 The allotment ledger shared by the concurrent workers of one allocation run:
 rooms per rate key are claimed before a booking attempt, then committed or released.
 */
module Ledger {
  import opened Common

  datatype RateKey = RateKey(text: string)
  type Stock = map<RateKey, nat>

  datatype Item = Item(rateKey: RateKey, rooms: nat)

  datatype ClaimState = Held | Committed | Released

  datatype ClaimRecord = ClaimRecord(items: Stock, state: ClaimState)

  /** The ledger's value: rooms left per rate key, and every claim handed out so far. */
  datatype Books = Books(remaining: Stock, claims: seq<ClaimRecord>)

  function Available(stock: Stock, k: RateKey): nat {
    if k in stock then stock[k] else 0
  }

  // ---- Operations on the books ------------------------------------------------

  /** Rooms asked for per rate key. */
  function Totals(items: seq<Item>): Stock {
    if items == [] then map[] else
      var item := items[|items| - 1];
      var before := Totals(items[..|items| - 1]);
      before[item.rateKey := Available(before, item.rateKey) + item.rooms]
  }

  lemma {:induction false} TotalsKeys(items: seq<Item>, k: RateKey)
    ensures k in Totals(items) <==> exists i | 0 <= i < |items| :: items[i].rateKey == k
  {
    if items != [] {
      var front := items[..|items| - 1];
      TotalsKeys(front, k);
      assert forall i | 0 <= i < |front| :: front[i] == items[i];
    }
  }

  lemma {:induction false} TotalsOfNext(items: seq<Item>, i: nat)
    requires i < |items|
    ensures var before := Totals(items[..i]);
      Totals(items[..i + 1]) == before[items[i].rateKey := Available(before, items[i].rateKey) + items[i].rooms]
  {
    assert items[..i + 1][..i] == items[..i];
  }

  predicate Covers(stock: Stock, totals: Stock) {
    forall k | k in totals :: totals[k] <= Available(stock, k)
  }

  function Take(stock: Stock, totals: Stock): Stock
    requires Covers(stock, totals)
  {
    map k | k in stock.Keys + totals.Keys ::
      if k in totals then Available(stock, k) - totals[k] else stock[k]
  }

  function GiveBack(stock: Stock, totals: Stock): Stock {
    map k | k in stock :: stock[k] + Available(totals, k)
  }

  function Claim(b: Books, items: seq<Item>): Books {
    var totals := Totals(items);
    if Covers(b.remaining, totals)
    then Books(Take(b.remaining, totals), b.claims + [ClaimRecord(totals, Held)])
    else b
  }

  function Release(b: Books, c: nat): Books
    requires c < |b.claims|
  {
    if b.claims[c].state == Held
    then Books(GiveBack(b.remaining, b.claims[c].items), b.claims[c := b.claims[c].(state := Released)])
    else b
  }

  function Commit(b: Books, c: nat): Books
    requires c < |b.claims|
  {
    if b.claims[c].state == Held then b.(claims := b.claims[c := b.claims[c].(state := Committed)]) else b
  }

  // ---- Conservation --------------------------------------------------------------

  /** Rooms of a rate key in claims that are in this state. */
  function RoomsIn(claims: seq<ClaimRecord>, k: RateKey, state: ClaimState): nat {
    if claims == [] then 0 else
      var last := claims[|claims| - 1];
      RoomsIn(claims[..|claims| - 1], k, state) + if last.state == state then Available(last.items, k) else 0
  }

  /** No room appears or disappears: what is left, held and committed is what the ledger started with. */
  ghost predicate Conserved(start: Stock, b: Books) {
    && (forall k: RateKey :: Available(start, k) ==
          Available(b.remaining, k) + RoomsIn(b.claims, k, Held) + RoomsIn(b.claims, k, Committed))
    && (forall c | 0 <= c < |b.claims| :: b.claims[c].items.Keys <= b.remaining.Keys)
  }

  lemma {:induction false} RoomsAfterStateChange(claims: seq<ClaimRecord>, c: nat, to: ClaimState, k: RateKey, state: ClaimState)
    requires c < |claims|
    ensures RoomsIn(claims[c := claims[c].(state := to)], k, state)
              + (if claims[c].state == state then Available(claims[c].items, k) else 0)
         == RoomsIn(claims, k, state) + (if to == state then Available(claims[c].items, k) else 0)
  {
    var changed := claims[c := claims[c].(state := to)];
    var n := |claims| - 1;
    if c == n {
      assert changed[..n] == claims[..n];
    } else {
      RoomsAfterStateChange(claims[..n], c, to, k, state);
      assert changed[..n] == claims[..n][c := claims[..n][c].(state := to)];
    }
  }

  lemma {:induction false} ClaimConserves(start: Stock, b: Books, items: seq<Item>)
    requires Conserved(start, b)
    ensures Conserved(start, Claim(b, items))
  {
    var totals := Totals(items);
    if Covers(b.remaining, totals) {
      var after := Claim(b, items);
      assert after.claims[..|b.claims|] == b.claims;
    }
  }

  lemma {:induction false} ReleaseConserves(start: Stock, b: Books, c: nat)
    requires Conserved(start, b) && c < |b.claims|
    ensures Conserved(start, Release(b, c))
  {
    forall k: RateKey, state: ClaimState
      ensures b.claims[c].state == Held ==>
        RoomsIn(Release(b, c).claims, k, state) + (if state == Held then Available(b.claims[c].items, k) else 0)
        == RoomsIn(b.claims, k, state) + (if state == Released then Available(b.claims[c].items, k) else 0)
    {
      RoomsAfterStateChange(b.claims, c, Released, k, state);
    }
  }

  lemma {:induction false} CommitConserves(start: Stock, b: Books, c: nat)
    requires Conserved(start, b) && c < |b.claims|
    ensures Conserved(start, Commit(b, c))
  {
    forall k: RateKey, state: ClaimState
      ensures b.claims[c].state == Held ==>
        RoomsIn(Commit(b, c).claims, k, state) + (if state == Held then Available(b.claims[c].items, k) else 0)
        == RoomsIn(b.claims, k, state) + (if state == Committed then Available(b.claims[c].items, k) else 0)
    {
      RoomsAfterStateChange(b.claims, c, Committed, k, state);
    }
  }

  /** Releasing a held claim puts the stock back exactly as it was before the claim. */
  lemma {:induction false} ReleaseUndoesClaim(start: Stock, b: Books, items: seq<Item>)
    requires Conserved(start, b) && Covers(b.remaining, Totals(items))
    ensures forall k: RateKey ::
      Available(Release(Claim(b, items), |b.claims|).remaining, k) == Available(b.remaining, k)
  {
  }

  // ---- The ledger object ------------------------------------------------------------

  class LedgerClaim {
    const id: nat
    const items: Stock
    var state: ClaimState

    constructor (id: nat, items: Stock)
      ensures this.id == id && this.items == items && state == Held
    {
      this.id := id;
      this.items := items;
      this.state := Held;
    }
  }

  class AllotmentLedger {
    var remaining: Stock
    var nextClaimId: nat
    /** Every claim handed out, in order. */
    ghost var handedOut: seq<LedgerClaim>

    ghost predicate Valid()
      reads this
    {
      && nextClaimId == |handedOut| + 1
      && (forall c | 0 <= c < |handedOut| :: handedOut[c].id == c + 1)
    }

    ghost function Value(): Books
      reads this, handedOut
    {
      Books(remaining, seq(|handedOut|, c requires 0 <= c < |handedOut| reads this, handedOut =>
        ClaimRecord(handedOut[c].items, handedOut[c].state)))
    }

    /** Negative counts start at zero. */
    constructor (counts: map<RateKey, int>)
      ensures Valid() && handedOut == []
      ensures remaining == map k | k in counts :: Max(0, counts[k])
      ensures Value() == Books(remaining, []) && Conserved(remaining, Value())
    {
      remaining := map k | k in counts :: Max(0, counts[k]);
      nextClaimId := 1;
      handedOut := [];
    }

    /** Rooms asked for per rate key, in one pass over the items. */
    static method SumItems(items: seq<Item>) returns (totals: Stock)
      ensures totals == Totals(items)
    {
      totals := map[];
      for i := 0 to |items|
        invariant totals == Totals(items[..i])
      {
        TotalsOfNext(items, i);
        var item := items[i];
        totals := totals[item.rateKey := (if item.rateKey in totals then totals[item.rateKey] else 0) + item.rooms];
      }
      assert items[..|items|] == items;
    }

    method HasRoomsFor(totals: Stock) returns (enough: bool)
      ensures enough == Covers(remaining, totals)
    {
      var rest := totals.Keys;
      while rest != {}
        invariant rest <= totals.Keys
        invariant forall k | k in totals.Keys - rest :: totals[k] <= Available(remaining, k)
        decreases rest
      {
        var k :| k in rest;
        if Available(remaining, k) < totals[k] {
          return false;
        }
        rest := rest - {k};
      }
      enough := true;
    }

    static method Deduct(stock: Stock, totals: Stock) returns (left: Stock)
      requires Covers(stock, totals)
      ensures left == Take(stock, totals)
    {
      left := stock;
      var rest := totals.Keys;
      while rest != {}
        invariant rest <= totals.Keys
        invariant left.Keys == stock.Keys + (totals.Keys - rest)
        invariant forall k | k in totals && k !in rest :: k in left && left[k] == Available(stock, k) - totals[k]
        invariant forall k | k in left && (k !in totals || k in rest) :: k in stock && left[k] == stock[k]
        decreases rest
      {
        var k :| k in rest;
        assert Available(left, k) == Available(stock, k);
        left := left[k := Available(left, k) - totals[k]];
        rest := rest - {k};
      }
      assert left.Keys == Take(stock, totals).Keys;
    }

    method TryClaim(items: seq<Item>) returns (claim: LedgerClaim?)
      requires Valid()
      modifies this
      ensures Valid() && Value() == Claim(old(Value()), items)
      ensures (claim != null) == Covers(old(remaining), Totals(items))
      ensures claim == null ==> handedOut == old(handedOut)
      ensures claim != null ==>
        fresh(claim) && claim.items == Totals(items) && claim.state == Held && claim.id == |handedOut|
        && handedOut == old(handedOut) + [claim]
    {
      var totals := SumItems(items);
      var enough := HasRoomsFor(totals);
      if !enough {
        return null;
      }
      remaining := Deduct(remaining, totals);
      claim := new LedgerClaim(nextClaimId, totals);
      nextClaimId := nextClaimId + 1;
      handedOut := handedOut + [claim];
    }

    method ReleaseClaim(claim: LedgerClaim, ghost c: nat)
      requires Valid() && c < |handedOut| && handedOut[c] == claim
      modifies this`remaining, claim
      ensures Valid() && Value() == Release(old(Value()), c)
    {
      if claim.state != Held {
        return;
      }
      ghost var before := remaining;
      var rest := claim.items.Keys;
      while rest != {}
        invariant rest <= claim.items.Keys
        invariant remaining.Keys == before.Keys
        invariant forall k | k in remaining ::
          remaining[k] == before[k] + if k in rest then 0 else Available(claim.items, k)
        invariant claim.state == Held
        decreases rest
      {
        var k :| k in rest;
        if k in remaining {
          remaining := remaining[k := remaining[k] + claim.items[k]];
        }
        rest := rest - {k};
      }
      claim.state := Released;
      forall i, j | 0 <= i < j < |handedOut|
        ensures handedOut[i] != handedOut[j]
      {
        assert handedOut[i].id != handedOut[j].id;
      }
      assert remaining == GiveBack(before, claim.items);
    }

    method CommitClaim(claim: LedgerClaim, ghost c: nat)
      requires Valid() && c < |handedOut| && handedOut[c] == claim
      modifies claim
      ensures Valid() && Value() == Commit(old(Value()), c)
    {
      forall i, j | 0 <= i < j < |handedOut|
        ensures handedOut[i] != handedOut[j]
      {
        assert handedOut[i].id != handedOut[j].id;
      }
      if claim.state == Held {
        claim.state := Committed;
      }
    }
  }
}
