/**
 What a request that goes through leaves behind, in terms of the request: the
 row, the record, the advertised deal, the sale rankings and the answer.
 */
module TradeEffects {
  import opened Domain
  import opened SortedSets
  import opened Rankings
  import opened Tables
  import opened Pricing
  import opened EventHandling
  import opened TradingRules
  import opened Runs
  import opened Invariants
  import opened Acceptance
  import opened TradePreservation
  import opened Reachability
  import opened MarketTheorems
  import opened RollbackLimits

  // ---------- the row and the record ----------

  // The listing after a taken trade, from the request and the row before it.
  ghost predicate RowTaken(t: Tables, t': Tables, action: Action, q: Request, now: int) {
    var n := q.name;
    && t'.listings - {n} == t.listings - {n}
    && match action
       case List =>
         && n !in t.listings && n in t'.listings && q.psbt.outputs != []
         && t'.listings[n] == Listing(n, q.caller, q.price, q.psbt.txId, q.psbt.outputs[0].value, now)
       case BuyAndRelist =>
         && n in t.listings && n in t'.listings
         && t'.listings[n] == t.listings[n].(seller := q.caller, price := q.price, txId := q.psbt.txId)
       case _ => n in t.listings && n !in t'.listings
  }

  lemma RowOfRecord(t: Tables, t': Tables, action: Action, q: Request, e: Env)
    requires Check(t, action, q, e).Success? && t'.listings == ListingsAfter(t.listings, Check(t, action, q, e).value, e.now)
    requires action.List? ==> q.name !in t.listings
    ensures RowTaken(t, t', action, q, e.now)
  {
    var r := Check(t, action, q, e).value;
    match action
    case List => ListAcceptedIff(t, q, e, r);
    case Delist => DelistAcceptedIff(t, q, r);
    case BuyAndRelist => BuyAndRelistAcceptedIff(t, q, e, r);
    case BuyAndDelist => BuyAndDelistAcceptedIff(t, q, e, r);
    case Relist =>
  }

  // In every run a taken trade writes exactly this row and adds its own pending
  // record; no other row and no older record changes.
  lemma TakenRow(worlds: seq<World>, steps: seq<Step>, i: nat)
    requires IsRun(worlds, steps) && i < |steps| && TakenTrade(worlds[i].market, steps[i]).Some?
    ensures
      var t, t', s := worlds[i].market.tables, worlds[i + 1].market.tables, steps[i];
      var r := TakenTrade(worlds[i].market, s).value;
      && RowTaken(t, t', s.action, s.q, s.e.now)
      && t'.history == t.history + [r]
      && r.name == s.q.name && r.action == s.action && r.txId == Some(s.q.psbt.txId) && r.status == Pending
  {
    RunKeeps(worlds, steps, i);
    TakenTablesOf(worlds[i], steps[i]);
    RowOfRecord(worlds[i].market.tables, worlds[i + 1].market.tables, steps[i].action, steps[i].q, steps[i].e);
  }

  // ---------- the advertised deal ----------

  // best_deals after a taken trade.
  ghost predicate DealTaken(
    t: Tables, k: map<string, ListingItem>, k': map<string, ListingItem>, action: Action, q: Request, base: nat, now: int)
  {
    var n := q.name;
    match action
    case List => k' == k[n := ListingItem(n, q.price, now, Discount(q.price, base), q.caller)]
    case BuyAndRelist =>
      && n in t.listings
      && k' == k[n := ListingItem(
           n, q.price, t.listings[n].listedAt, Discount(q.price, t.listings[n].price), q.caller)]
    case _ => k' == k - {n}
  }

  lemma PutBack<T>(m: map<string, T>, k: string, v: T)
    ensures (m - {k})[k := v] == m[k := v]
  {
  }

  lemma DealShown(r: Ranking<ListingItem>, item: ListingItem)
    ensures BestDealsAdd(r, item).Visible() == r.Visible()[item.name := item]
  {
    AddShows(r, item.discount, item.name, item);
  }

  lemma ReplacedShows(r: Ranking<ListingItem>, r1: Ranking<ListingItem>, item: ListingItem)
    requires r1 == r.Remove(item.name)
    ensures BestDealsAdd(r1, item).Visible() == r.Visible()[item.name := item]
  {
    RemoveHides(r, item.name);
    DealShown(r1, item);
    PutBack(r.Visible(), item.name, item);
  }

  lemma DealsOfRecord(m: Market, r: TradeRecord, now: int)
    requires Shape(r) && !r.action.Relist?
    requires !TxTaken(m.tables.listings, r.name, r.txId.value)
    requires r.action.BuyAndRelist? ==> r.name in m.tables.listings && m.tables.listings[r.name].name == r.name
    ensures
      var ls', k := ListingsAfter(m.tables.listings, r, now), m.rankings.bestDeals.Visible();
      HandlePending(m, r, now).rankings.bestDeals.Visible() ==
        if r.action.IsExit() then k - {r.name} else k[r.name := ItemOf(ls'[r.name], r.previousPrice.value)]
  {
    PendingRankings(m, r, now);
    var ls', b := ListingsAfter(m.tables.listings, r, now), m.rankings.bestDeals;
    match r.action
    case List =>
      DealShown(b, ItemOf(ls'[r.name], r.previousPrice.value));
    case BuyAndRelist => ReplacedShows(b, b.Remove(r.name), ItemOf(ls'[r.name], r.previousPrice.value));
    case _ => RemoveHides(b, r.name);
  }

  lemma DealOfRequest(t: Tables, action: Action, q: Request, e: Env, k: map<string, ListingItem>)
    requires Check(t, action, q, e).Success? && (action.BuyAndRelist? ==> t.listings[q.name].name == q.name)
    ensures
      var r := Check(t, action, q, e).value;
      var ls' := ListingsAfter(t.listings, r, e.now);
      && Shape(r) && r.action == action && (!action.IsExit() ==> r.name in ls')
      && DealTaken(
           t, k, if action.IsExit() then k - {r.name} else k[r.name := ItemOf(ls'[r.name], r.previousPrice.value)],
           action, q, r.previousPrice.value, e.now)
  {
    var r := Check(t, action, q, e).value;
    match action
    case List => ListAcceptedIff(t, q, e, r);
    case Delist => DelistAcceptedIff(t, q, r);
    case BuyAndRelist => BuyAndRelistAcceptedIff(t, q, e, r);
    case BuyAndDelist => BuyAndDelistAcceptedIff(t, q, e, r);
    case Relist =>
  }

  lemma TakenDealOn(m: Market, r: TradeRecord, now: int)
    requires ListingsInv(m.tables) && Fits(m.tables, r)
    ensures
      var m1 := m.(tables := m.tables.(history := AddRecord(m.tables.history, r)));
      var ls', k := ListingsAfter(m.tables.listings, r, now), m.rankings.bestDeals.Visible();
      && (!r.action.IsExit() ==> r.name in ls')
      && HandlePending(m1, r, now).rankings.bestDeals.Visible() ==
           if r.action.IsExit() then k - {r.name} else k[r.name := ItemOf(ls'[r.name], r.previousPrice.value)]
  {
    var m1 := m.(tables := m.tables.(history := AddRecord(m.tables.history, r)));
    LookupFacts(m.tables.history, r.txId.value);
    NotTaken(m.tables, r.name, r.txId.value);
    if r.name in m.tables.listings { assert Backed(m.tables, r.name); }
    DealsOfRecord(m1, r, now);
  }

  // In every run a taken list or buy_and_relist is advertised at its price, with
  // the discount against its base or against the price it was bought for; an
  // exit is taken off. No other deal changes.
  lemma TakenDeal(worlds: seq<World>, steps: seq<Step>, i: nat)
    requires IsRun(worlds, steps) && i < |steps| && TakenTrade(worlds[i].market, steps[i]).Some?
    ensures
      var m, m', s := worlds[i].market, worlds[i + 1].market, steps[i];
      DealTaken(
        m.tables, m.rankings.bestDeals.Visible(), m'.rankings.bestDeals.Visible(), s.action, s.q,
        TakenTrade(m, s).value.previousPrice.GetOr(0), s.e.now)
  {
    var w, s := worlds[i], steps[i];
    RunKeeps(worlds, steps, i);
    TakenTradeFits(w, s);
    TakenEffect(w, s);
    TakenDealOn(w.market, TakenTrade(w.market, s).value, s.e.now);
    if s.q.name in w.market.tables.listings { assert Backed(w.market.tables, s.q.name); }
    DealOfRequest(w.market.tables, s.action, s.q, s.e, w.market.rankings.bestDeals.Visible());
  }

  // ---------- new listings ----------

  // A list is a new listing if and only if fewer than twenty others rank above
  // it; a sold or exited name is none.
  ghost predicate NewTaken(k: Ranking<ListingItem>, k': Ranking<ListingItem>, action: Action, n: Name, now: int) {
    match action
    case List => n in k'.Members() <==> |Above(Without(k.zset, n), Entry(now, n))| < 20
    case _ => k'.Members() == k.Members() - {n}
  }

  lemma NewOfRecord(m: Market, r: TradeRecord, now: int)
    requires ListingsInv(m.tables) && Fits(m.tables, r)
    ensures
      var m1 := m.(tables := m.tables.(history := AddRecord(m.tables.history, r)));
      NewTaken(m.rankings.newListings, HandlePending(m1, r, now).rankings.newListings, r.action, r.name, now)
  {
    var m1 := m.(tables := m.tables.(history := AddRecord(m.tables.history, r)));
    var k := m.rankings.newListings;
    LookupFacts(m.tables.history, r.txId.value);
    NotTaken(m.tables, r.name, r.txId.value);
    if r.name in m.tables.listings { assert Backed(m.tables, r.name); }
    PendingRankings(m1, r, now);
    if r.action.List? { AddedStays(k.zset, now, r.name, NEW_LISTINGS_LIMIT); }
  }

  lemma TakenNew(worlds: seq<World>, steps: seq<Step>, i: nat)
    requires IsRun(worlds, steps) && i < |steps| && TakenTrade(worlds[i].market, steps[i]).Some?
    ensures
      var k, k', s := worlds[i].market.rankings.newListings, worlds[i + 1].market.rankings.newListings, steps[i];
      NewTaken(k, k', s.action, s.q.name, s.e.now)
  {
    var w, s := worlds[i], steps[i];
    RunKeeps(worlds, steps, i);
    TakenTradeFits(w, s);
    TakenEffect(w, s);
    NewOfRecord(w.market, TakenTrade(w.market, s).value, s.e.now);
  }

  // ---------- sale rankings ----------

  // A purchase shows the sold name with its price, seller, buyer and number of
  // sales, and the seller with profit and number of sales; nothing else does.
  ghost predicate SaleTaken(m: Market, m': Market, action: Action, q: Request) {
    var h', k, k' := m'.tables.history, m.rankings, m'.rankings;
    if action == BuyAndRelist || action == BuyAndDelist then
      && q.name in m.tables.listings
      && var l := m.tables.listings[q.name];
      && k'.mostTraded.Visible() == k.mostTraded.Visible()[q.name :=
           MostTradedItem(q.name, l.price, l.seller, q.caller, AsU32(TradedCount(h', q.name)))]
      && k'.topEarners.Visible() == k.topEarners.Visible()[l.seller :=
           TopEarnerItem(l.seller, Earned(h', l.seller), AsU32(SalesOf(h', l.seller)))]
    else k'.mostTraded == k.mostTraded && k'.topEarners == k.topEarners
  }

  ghost predicate SaleRanked(m: Market, m': Market, sold: Listing, buyer: Address) {
    && m'.rankings.mostTraded == MostTradedAdd(m.rankings.mostTraded, SaleItem(m.tables, sold, buyer))
    && m'.rankings.topEarners == TopEarnersAdd(m.rankings.topEarners, EarnerItem(m.tables, sold.seller))
  }

  lemma RelistedSale(m: Market, r: TradeRecord)
    requires r.buyer.Some? && r.price.Some? && r.name in m.tables.listings
    ensures SaleRanked(m, HandleBuyAndRelistPending(m, r), m.tables.listings[r.name], r.buyer.value)
  {
  }

  lemma ExitedSale(m: Market, r: TradeRecord)
    requires r.buyer.Some? && r.name in m.tables.listings
    ensures SaleRanked(m, HandleBuyAndDelistPending(m, r), m.tables.listings[r.name], r.buyer.value)
  {
  }

  lemma SaleShown(m: Market, m': Market, sold: Listing, buyer: Address)
    requires SaleRanked(m, m', sold, buyer)
    ensures m'.rankings.mostTraded.Visible() == m.rankings.mostTraded.Visible()[sold.name := SaleItem(m.tables, sold, buyer)]
    ensures m'.rankings.topEarners.Visible() ==
      m.rankings.topEarners.Visible()[sold.seller := EarnerItem(m.tables, sold.seller)]
  {
    var traded, earner := SaleItem(m.tables, sold, buyer), EarnerItem(m.tables, sold.seller);
    AddShows(m.rankings.mostTraded, traded.tradeCount, traded.name, traded);
    AddShows(m.rankings.topEarners, earner.profit, earner.address, earner);
  }

  lemma NoSale(m: Market, r: TradeRecord, now: int)
    requires !r.action.IsBuy()
    ensures HandlePending(m, r, now).rankings.mostTraded == m.rankings.mostTraded
    ensures HandlePending(m, r, now).rankings.topEarners == m.rankings.topEarners
  {
  }

  lemma SaleOfRecord(m: Market, r: TradeRecord, now: int)
    requires r.action.IsBuy() && r.buyer.Some? && r.price.Some? && r.name in m.tables.listings
    ensures SaleRanked(m, HandlePending(m, r, now), m.tables.listings[r.name], r.buyer.value)
  {
    if r.action.BuyAndRelist? { RelistedSale(m, r); } else { ExitedSale(m, r); }
  }

  lemma BuyerOf(t: Tables, action: Action, q: Request, e: Env)
    requires Check(t, action, q, e).Success? && action.IsBuy()
    ensures
      var r := Check(t, action, q, e).value;
      r.action == action && r.name == q.name && q.name in t.listings && r.buyer == Some(q.caller) && r.price.Some?
  {
    var r := Check(t, action, q, e).value;
    if action.BuyAndRelist? { BuyAndRelistAcceptedIff(t, q, e, r); } else { BuyAndDelistAcceptedIff(t, q, e, r); }
  }

  lemma SoldOn(m: Market, m': Market, r: TradeRecord, action: Action, q: Request, e: Env)
    requires Check(m.tables, action, q, e) == Success(r) && action.IsBuy()
    requires q.name in m.tables.listings ==> m.tables.listings[q.name].name == q.name
    requires m' == HandlePending(m.(tables := m.tables.(history := AddRecord(m.tables.history, r))), r, e.now)
    requires m'.tables.history == AddRecord(m.tables.history, r)
    ensures SaleTaken(m, m', action, q)
  {
    var m1 := m.(tables := m.tables.(history := AddRecord(m.tables.history, r)));
    BuyerOf(m.tables, action, q, e);
    SaleOfRecord(m1, r, e.now);
    SaleShown(m1, m', m.tables.listings[q.name], q.caller);
  }

  lemma TakenSaleOn(w: World, s: Step)
    requires Inv(w) && Admissible(w, s) && TakenTrade(w.market, s).Some?
    ensures SaleTaken(w.market, Next(w, s).market, s.action, s.q)
  {
    var m, r := w.market, TakenTrade(w.market, s).value;
    TakenEffect(w, s);
    TakenTablesOf(w, s);
    if s.action.IsBuy() {
      if s.q.name in m.tables.listings { assert Backed(m.tables, s.q.name); }
      SoldOn(m, Next(w, s).market, r, s.action, s.q, s.e);
    } else {
      NoSale(m.(tables := m.tables.(history := AddRecord(m.tables.history, r))), r, s.e.now);
    }
  }

  lemma TakenSale(worlds: seq<World>, steps: seq<Step>, i: nat)
    requires IsRun(worlds, steps) && i < |steps| && TakenTrade(worlds[i].market, steps[i]).Some?
    ensures SaleTaken(worlds[i].market, worlds[i + 1].market, steps[i].action, steps[i].q)
  {
    RunKeeps(worlds, steps, i);
    TakenSaleOn(worlds[i], steps[i]);
  }

  // ---------- broadcasts of a sale ----------

  lemma RelistedSends(m: Market, r: TradeRecord)
    requires r.buyer.Some? && r.price.Some? && r.name in m.tables.listings
    ensures
      var m', n := HandleBuyAndRelistPending(m, r), m.tables.listings[r.name].name;
      && m.events <= m'.events
      && RecentSale(n) in m'.events[|m.events|..] && TopSale(n) in m'.events[|m.events|..]
  {
    var before := m.tables.listings;
    var m1 := m.(tables := m.tables.(listings :=
      UpdateSellerPriceTx(before, r.name, r.buyer.value, r.price.value, r.txId.GetOr(""))));
    SaleSends(m1, before[r.name], r.buyer.value, HandleBuyAndRelistPending(m, r));
  }

  lemma ExitedSends(m: Market, r: TradeRecord)
    requires r.buyer.Some? && r.name in m.tables.listings
    ensures
      var m', n := HandleBuyAndDelistPending(m, r), m.tables.listings[r.name].name;
      && m.events <= m'.events
      && RecentSale(n) in m'.events[|m.events|..] && TopSale(n) in m'.events[|m.events|..]
  {
    SaleSends(m, m.tables.listings[r.name], r.buyer.value, HandleBuyAndDelistPending(m, r));
  }

  lemma SaleSends(m: Market, sold: Listing, buyer: Address, m': Market)
    requires UpdateSaleRankings(m, sold, buyer).events <= m'.events
    ensures m.events <= m'.events
    ensures RecentSale(sold.name) in m'.events[|m.events|..] && TopSale(sold.name) in m'.events[|m.events|..]
  {
    var n := |m.events|;
    var mid := UpdateSaleRankings(m, sold, buyer).events;
    assert mid[n] == RecentSale(sold.name) && mid[n + 2] == TopSale(sold.name);
    assert m'.events[n..][0] == mid[n] && m'.events[n..][2] == mid[n + 2];
  }

  lemma SoldSends(m: Market, r: TradeRecord, now: int)
    requires r.action.IsBuy() && r.buyer.Some? && r.price.Some? && r.name in m.tables.listings
    ensures
      var m', n := HandlePending(m, r, now), m.tables.listings[r.name].name;
      && m.events <= m'.events
      && RecentSale(n) in m'.events[|m.events|..] && TopSale(n) in m'.events[|m.events|..]
  {
    if r.action.BuyAndRelist? { RelistedSends(m, r); } else { ExitedSends(m, r); }
  }

  lemma SaleSent(w: World, s: Step)
    requires Inv(w) && TakenTrade(w.market, s).Some? && s.action.IsBuy()
    ensures
      var a, b, n := w.market.events, Next(w, s).market.events, s.q.name;
      a <= b && RecentSale(n) in b[|a|..] && TopSale(n) in b[|a|..]
  {
    var m, r := w.market, TakenTrade(w.market, s).value;
    BuyerOf(m.tables, s.action, s.q, s.e);
    assert Backed(m.tables, s.q.name);
    TakenEffect(w, s);
    SoldSends(m.(tables := m.tables.(history := AddRecord(m.tables.history, r))), r, s.e.now);
  }

  // In every run a taken purchase is broadcast as a recent sale and a top sale.
  lemma SaleIsBroadcast(worlds: seq<World>, steps: seq<Step>, i: nat)
    requires IsRun(worlds, steps) && i < |steps| && TakenTrade(worlds[i].market, steps[i]).Some?
    requires steps[i].action == BuyAndRelist || steps[i].action == BuyAndDelist
    ensures
      var a, b, n := worlds[i].market.events, worlds[i + 1].market.events, steps[i].q.name;
      a <= b && RecentSale(n) in b[|a|..] && TopSale(n) in b[|a|..]
  {
    RunKeeps(worlds, steps, i);
    SaleSent(worlds[i], steps[i]);
  }

  // ---------- relists ----------

  // A relist that takes effect changes the price of the row, adds its record and
  // advertises the new price against its base; nothing else changes.
  lemma RelistEffectIs(w: World, s: Step)
    requires Inv(w) && s.RelistStep? && CheckRelist(w.market.tables, s.caller, s.name, s.newPrice, s.e).Success?
    ensures
      var t, t', k, k' := w.market.tables, Next(w, s).market.tables, w.market.rankings, Next(w, s).market.rankings;
      && s.name in t.listings
      && var l := t.listings[s.name];
      var base := PreviousPrice(t, s.name, s.e).GetOr(l.price);
      && t' == t.(
           listings := t.listings[s.name := l.(price := s.newPrice)],
           history := t.history + [TradeRecord(
             s.name, l.seller, Relist, None, Finalized, Some(l.seller), Some(l.price), Some(s.newPrice), l.utxoSats,
             None, None)])
      && k' == k.(bestDeals := k'.bestDeals)
      && k'.bestDeals.Visible() == k.bestDeals.Visible()[s.name :=
           ListingItem(s.name, s.newPrice, l.listedAt, Discount(s.newPrice, base), l.seller)]
  {
    var t := w.market.tables;
    RelistAcceptedIff(t, s.caller, s.name, s.newPrice, s.e);
    var r := CheckRelist(t, s.caller, s.name, s.newPrice, s.e).value;
    var base := PreviousPrice(t, s.name, s.e).GetOr(t.listings[s.name].price);
    RelistWorld(w, s, r, base);
    assert Backed(t, s.name);
    DealShown(w.market.rankings.bestDeals, ItemOf(t.listings[s.name].(price := s.newPrice), base));
  }

  lemma TakenRelist(worlds: seq<World>, steps: seq<Step>, i: nat)
    requires IsRun(worlds, steps) && i < |steps| && steps[i].RelistStep?
    ensures
      var w, s := worlds[i], steps[i];
      if CheckRelist(w.market.tables, s.caller, s.name, s.newPrice, s.e).Success? then
        var t, t' := w.market.tables, worlds[i + 1].market.tables;
        && s.name in t.listings && t.listings[s.name].seller == s.caller
        && t'.listings == t.listings[s.name := t.listings[s.name].(price := s.newPrice)]
        && var deals := worlds[i + 1].market.rankings.bestDeals.Visible();
        && s.name in deals && deals[s.name].price == s.newPrice
        && deals[s.name].discount ==
             Discount(s.newPrice, PreviousPrice(t, s.name, s.e).GetOr(t.listings[s.name].price))
      else worlds[i + 1].market == w.market
  {
    RunKeeps(worlds, steps, i);
    var w, s := worlds[i], steps[i];
    if CheckRelist(w.market.tables, s.caller, s.name, s.newPrice, s.e).Success? {
      RelistAcceptedIff(w.market.tables, s.caller, s.name, s.newPrice, s.e);
      RelistEffectIs(w, s);
    }
  }

  // ---------- answers ----------

  // A caller is told of success exactly when the trade is taken, with the
  // transaction, the name, and except for a delist the price (0 for a
  // buy_and_delist) and the caller's address.
  lemma AnswerIs(m: Market, action: Action, q: Request, e: Env)
    ensures
      var answer := Trade(m, action, q, e).1;
      && (answer.Success? <==> TakenTrade(m, TradeStep(action, q, e)).Some?)
      && (answer.Success? && action.Delist? ==> answer.value == DelistResponse(q.psbt.txId, q.name))
      && (answer.Success? && (action.List? || action.BuyAndRelist?) ==>
           answer.value == ListResponse(q.psbt.txId, q.name, q.price, q.caller))
      && (answer.Success? && action.BuyAndDelist? ==>
           answer.value == ListResponse(q.psbt.txId, q.name, 0, q.caller))
      && (answer.Failure? ==> Check(m.tables, action, q, e).Success? ==> answer.error == Canister)
  {
    var checked := Check(m.tables, action, q, e);
    if checked.Success? {
      if action.List? { ListAcceptedIff(m.tables, q, e, checked.value); }
      if action.IsBuy() { BuyerOf(m.tables, action, q, e); CallerIsParty(m.tables, action, q, e); }
    }
  }

  lemma CallerIsParty(t: Tables, action: Action, q: Request, e: Env)
    requires Check(t, action, q, e).Success? && action.IsBuy()
    ensures q.party == q.caller
  {
    var r := Check(t, action, q, e).value;
    if action.BuyAndRelist? { BuyAndRelistAcceptedIff(t, q, e, r); } else { BuyAndDelistAcceptedIff(t, q, e, r); }
  }
}
