/**
 The price that list and relist measure a new price against: what the name was
 last bought for, whichever way, and without a purchase ten times its etching
 fee within limits.
 */
module BasePrices {
  import opened Domain
  import opened Tables
  import opened Pricing
  import opened TradingRules
  import opened Runs
  import opened Acceptance
  import opened Reachability
  import opened Queries

  // Ten times the fee, no less than 55,000 and no more than 100,000.
  lemma EtchingPriceIs(feeSats: nat)
    ensures 55_000 <= 10 * feeSats <= 100_000 ==> EtchingPrice(feeSats) == 10 * feeSats
    ensures 10 * feeSats < 55_000 ==> EtchingPrice(feeSats) == 55_000
    ensures 10 * feeSats > 100_000 ==> EtchingPrice(feeSats) == 100_000
  {
  }

  // The clamp without minimum and maximum.
  ghost predicate Etched(feeSats: nat, base: nat) {
    if 10 * feeSats < 55_000 then base == 55_000
    else if 10 * feeSats > 100_000 then base == 100_000
    else base == 10 * feeSats
  }

  // The price of the newest purchase; without one, or when the query fails, the
  // etching price.
  ghost predicate BaseIs(h: seq<TradeRecord>, n: Name, e: Env, base: nat) {
    if e.boughtLookupOk && !NoBuy(h, n) then exists i :: NewestBuy(h, n, i) && h[i].price == Some(base)
    else e.etchingFee.Some? && Etched(e.etchingFee.value, base)
  }

  ghost predicate BuysPriced(h: seq<TradeRecord>, n: Name) {
    forall i :: 0 <= i < |h| && BuyOf(h[i], n) ==> h[i].price.Some?
  }

  lemma PreviousPriceIff(t: Tables, n: Name, e: Env, base: nat)
    requires BuysPriced(t.history, n)
    ensures PreviousPrice(t, n, e) == Some(base) <==> BaseIs(t.history, n, e, base)
  {
    var h := t.history;
    var i := SomeNewestBuy(h, n);
    LastBoughtIs(h, n, i);
    if e.etchingFee.Some? { EtchingPriceIs(e.etchingFee.value); }
    if !NoBuy(h, n) { OneNewestBuy(h, n, i); }
  }

  lemma OneNewestBuy(h: seq<TradeRecord>, n: Name, i: int)
    requires NewestBuy(h, n, i)
    ensures forall j :: NewestBuy(h, n, j) ==> j == i
  {
  }

  lemma BuysPricedInRuns(worlds: seq<World>, steps: seq<Step>, i: nat, n: Name)
    requires IsRun(worlds, steps) && i < |worlds|
    ensures BuysPriced(worlds[i].market.tables.history, n)
  {
    RunKeeps(worlds, steps, i);
  }

  // In every run, a list that is taken asks a price within the band of that
  // base, and the record says so.
  lemma TakenListBase(worlds: seq<World>, steps: seq<Step>, i: nat)
    requires IsRun(worlds, steps) && i < |steps| && steps[i].TradeStep? && steps[i].action.List?
    requires TakenTrade(worlds[i].market, steps[i]).Some?
    ensures
      var h, q, e := worlds[i].market.tables.history, steps[i].q, steps[i].e;
      var r := TakenTrade(worlds[i].market, steps[i]).value;
      && r.previousPrice.Some? && BaseIs(h, q.name, e, r.previousPrice.value)
      && q.price >= 55_000 && q.price * 100 <= r.previousPrice.value * 126
      && r.previousPrice.value * 126 < (q.price + 1) * 10_000
  {
    var t, q, e := worlds[i].market.tables, steps[i].q, steps[i].e;
    var r := TakenTrade(worlds[i].market, steps[i]).value;
    ListAcceptedIff(t, q, e, r);
    BuysPricedInRuns(worlds, steps, i, q.name);
    PreviousPriceIff(t, q.name, e, r.previousPrice.value);
    PriceAcceptedIff(r.previousPrice.value, q.price);
  }

  // In every run, a relist by the seller that the canister agrees to takes
  // effect if and only if its price is within the band of the base, or of the
  // listed price when there is none.
  lemma RelistBaseIff(worlds: seq<World>, steps: seq<Step>, i: nat, seller: Address, n: Name, price: nat, e: Env, base: nat)
    requires IsRun(worlds, steps) && i < |worlds|
    requires n in worlds[i].market.tables.listings && worlds[i].market.tables.listings[n].seller == seller && e.invokeOk
    requires
      var t := worlds[i].market.tables;
      BaseIs(t.history, n, e, base) || ((forall b :: !BaseIs(t.history, n, e, b)) && base == t.listings[n].price)
    ensures CheckRelist(worlds[i].market.tables, seller, n, price, e).Success? <==>
      price >= 55_000 && price * 100 <= base * 126 && base * 126 < (price + 1) * 10_000
  {
    var t := worlds[i].market.tables;
    BuysPricedInRuns(worlds, steps, i, n);
    PreviousPriceIff(t, n, e, base);
    if PreviousPrice(t, n, e).Some? { PreviousPriceIff(t, n, e, PreviousPrice(t, n, e).value); }
    RelistAcceptedIff(t, seller, n, price, e);
    PriceAcceptedIff(base, price);
  }
}
