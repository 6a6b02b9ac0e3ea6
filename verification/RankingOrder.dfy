/**
 What the rankings are ranked by, in every reachable state, and what a reader
 of the best deals therefore sees.
 */
module RankingOrder {
  import opened Domain
  import opened SortedSets
  import opened Rankings
  import opened Tables
  import opened EventHandling
  import opened TradingRules
  import opened Runs
  import opened Reachability

  // Every member has metadata, its own, and is ranked by its score.
  ghost predicate Scored<T(!new)>(r: Ranking<T>, score: T -> int, key: T -> string) {
    forall m :: m in Scores(r.zset) ==> m in r.meta && key(r.meta[m]) == m && Scores(r.zset)[m] == score(r.meta[m])
  }

  lemma AddScored<T(!new)>(r: Ranking<T>, score: T -> int, key: T -> string, item: T)
    requires Scored(r, score, key)
    ensures Scored(r.Add(score(item), key(item), item), score, key)
  {
  }

  lemma RemoveScored<T(!new)>(r: Ranking<T>, score: T -> int, key: T -> string, member: string)
    requires Scored(r, score, key)
    ensures Scored(r.Remove(member), score, key)
  {
  }

  lemma TrimScored<T(!new)>(r: Ranking<T>, score: T -> int, key: T -> string, limit: nat)
    requires Scored(r, score, key)
    ensures Scored(r.Trim(limit), score, key)
  {
    var kept := r.Trim(limit).zset;
    ScoresAre(r.zset);
    ScoresAre(kept);
    forall m | m in Scores(kept) ensures m in Scores(r.zset) && Scores(kept)[m] == Scores(r.zset)[m] {
      assert Entry(Scores(kept)[m], m) in kept;
    }
  }

  // New listings by time, best deals by discount, names by their number of
  // sales, sellers by profit.
  ghost predicate ByListing(r: Ranking<ListingItem>) {
    Scored(r, (item: ListingItem) => item.listedAt, (item: ListingItem) => item.name)
  }

  ghost predicate ByDiscount(r: Ranking<ListingItem>) {
    Scored(r, (item: ListingItem) => item.discount, (item: ListingItem) => item.name)
  }

  ghost predicate ByCount(r: Ranking<MostTradedItem>) {
    Scored(r, (item: MostTradedItem) => item.tradeCount, (item: MostTradedItem) => item.name)
  }

  ghost predicate ByProfit(r: Ranking<TopEarnerItem>) {
    Scored(r, (item: TopEarnerItem) => item.profit, (item: TopEarnerItem) => item.address)
  }

  ghost predicate Ranked(k: Rankings) {
    ByListing(k.newListings) && ByDiscount(k.bestDeals) && ByCount(k.mostTraded) && ByProfit(k.topEarners)
  }

  // ---------- the ranking helpers ----------

  lemma NewAdded(r: Ranking<ListingItem>, item: ListingItem)
    requires ByListing(r)
    ensures ByListing(NewListingsAdd(r, item))
  {
    var score, key := (item: ListingItem) => item.listedAt, (item: ListingItem) => item.name;
    AddScored(r, score, key, item);
    TrimScored(r.Add(item.listedAt, item.name, item), score, key, NEW_LISTINGS_LIMIT);
  }

  lemma DealAdded(r: Ranking<ListingItem>, item: ListingItem)
    requires ByDiscount(r)
    ensures ByDiscount(BestDealsAdd(r, item))
  {
    AddScored(r, (item: ListingItem) => item.discount, (item: ListingItem) => item.name, item);
  }

  lemma TradedAdded(r: Ranking<MostTradedItem>, item: MostTradedItem)
    requires ByCount(r)
    ensures ByCount(MostTradedAdd(r, item))
  {
    AddScored(r, (item: MostTradedItem) => item.tradeCount, (item: MostTradedItem) => item.name, item);
  }

  lemma EarnerAdded(r: Ranking<TopEarnerItem>, item: TopEarnerItem)
    requires ByProfit(r)
    ensures ByProfit(TopEarnersAdd(r, item))
  {
    AddScored(r, (item: TopEarnerItem) => item.profit, (item: TopEarnerItem) => item.address, item);
  }

  lemma UpdateRanked(m: Market, l: Listing, previous: nat, isNew: bool)
    requires Ranked(m.rankings)
    ensures Ranked(UpdateListingRankings(m, l, previous, isNew).rankings)
  {
    NewAdded(m.rankings.newListings, ItemOf(l, previous));
    DealAdded(m.rankings.bestDeals, ItemOf(l, previous));
  }

  lemma RemoveRanked(m: Market, n: Name)
    requires Ranked(m.rankings)
    ensures Ranked(RemoveListingRankings(m, n).rankings)
  {
    RemoveScored(
      m.rankings.newListings, (item: ListingItem) => item.listedAt, (item: ListingItem) => item.name, n);
    RemoveScored(
      m.rankings.bestDeals, (item: ListingItem) => item.discount, (item: ListingItem) => item.name, n);
  }

  lemma SaleRanked(m: Market, sold: Listing, buyer: Address)
    requires Ranked(m.rankings)
    ensures Ranked(UpdateSaleRankings(m, sold, buyer).rankings)
  {
    TradedAdded(m.rankings.mostTraded, SaleItem(m.tables, sold, buyer));
    EarnerAdded(m.rankings.topEarners, EarnerItem(m.tables, sold.seller));
  }

  // ---------- the handlers ----------

  lemma RelistedRanked(m: Market, r: TradeRecord)
    requires Ranked(m.rankings) && r.buyer.Some? && r.price.Some?
    ensures Ranked(HandleBuyAndRelistPending(m, r).rankings)
  {
    var name, before := r.name, m.tables.listings;
    var m1 := m.(tables := m.tables.(listings :=
      UpdateSellerPriceTx(before, name, r.buyer.value, r.price.value, r.txId.GetOr(""))));
    var m2 := if name in before then UpdateSaleRankings(m1, before[name], r.buyer.value) else m1;
    if name in before { SaleRanked(m1, before[name], r.buyer.value); }
    var m3 := RemoveListingRankings(m2, name);
    RemoveRanked(m2, name);
    if name in m3.tables.listings {
      UpdateRanked(m3, m3.tables.listings[name], r.previousPrice.GetOr(0), false);
    }
  }

  lemma ExitedRanked(m: Market, r: TradeRecord)
    requires Ranked(m.rankings) && r.buyer.Some?
    ensures Ranked(HandleBuyAndDelistPending(m, r).rankings)
  {
    var name, before := r.name, m.tables.listings;
    var m1 := if name in before then UpdateSaleRankings(m, before[name], r.buyer.value) else m;
    if name in before { SaleRanked(m, before[name], r.buyer.value); }
    RemoveRanked(m1.(tables := m1.tables.(listings := DeleteListing(before, name))), name);
  }

  lemma DelistedRanked(m: Market, r: TradeRecord)
    requires Ranked(m.rankings)
    ensures Ranked(HandleDelistPending(m, r).rankings)
  {
    RemoveRanked(m.(tables := m.tables.(listings := DeleteListing(m.tables.listings, r.name))), r.name);
  }

  lemma PendingRanked(m: Market, r: TradeRecord, now: int)
    requires Ranked(m.rankings)
    ensures Ranked(HandlePending(m, r, now).rankings)
  {
    match r.action
    case List =>
      if r.price.Some? && r.seller.Some? {
        var l := RecordListing(r, r.price.value, now);
        UpdateRanked(
          m.(tables := m.tables.(listings := CreateListing(m.tables.listings, l))), l, r.previousPrice.GetOr(0), true);
      }
    case Delist => DelistedRanked(m, r);
    case BuyAndRelist => if r.buyer.Some? && r.price.Some? { RelistedRanked(m, r); }
    case BuyAndDelist => if r.buyer.Some? { ExitedRanked(m, r); }
    case Relist =>
  }

  lemma SaleRejectedRanked(m: Market, r: TradeRecord)
    requires Ranked(m.rankings)
    ensures Ranked(HandleBuyAndRelistRejected(m, r).rankings)
  {
    var name, price := r.name, r.previousPrice.GetOr(0);
    var m1 := m.(tables := m.tables.(listings :=
      UpdateSellerPriceTx(m.tables.listings, name, r.seller.GetOr(""), price, r.txId.GetOr(""))));
    var m2 := RemoveListingRankings(m1, name);
    RemoveRanked(m1, name);
    if name in m2.tables.listings { UpdateRanked(m2, m2.tables.listings[name], price, true); }
  }

  lemma RejectedRanked(m: Market, r: TradeRecord, now: int)
    requires Ranked(m.rankings)
    ensures Ranked(HandleRejected(m, r, now).rankings)
  {
    match r.action
    case List => DelistedRanked(m, r);
    case BuyAndRelist => SaleRejectedRanked(m, r);
    case Relist =>
    case _ =>
      var price := r.previousPrice.GetOr(0);
      var l := RecordListing(r, price, now);
      UpdateRanked(m.(tables := m.tables.(listings := CreateListing(m.tables.listings, l))), l, price, true);
  }

  lemma StatusRanked(m: Market, txId: TxId, status: ReeStatus, now: int)
    requires Ranked(m.rankings)
    ensures Ranked(HandleStatusChange(m, txId, status, now).rankings)
  {
    if NewStatus(status).Some? {
      var m1 := m.(tables := m.tables.(history := SetStatus(m.tables.history, txId, NewStatus(status).value)));
      var row := Lookup(m1.tables.history, txId);
      if row.Some? { RejectedRanked(m1, row.value, now); }
    }
  }

  lemma TradeRanked(m: Market, action: Action, q: Request, e: Env)
    requires Ranked(m.rankings)
    ensures Ranked(Trade(m, action, q, e).0.rankings)
  {
    var checked := Check(m.tables, action, q, e);
    if checked.Success? {
      PendingRanked(
        m.(tables := m.tables.(history := AddRecord(m.tables.history, checked.value))), checked.value, e.now);
    }
  }

  lemma RelistRanked(m: Market, r: TradeRecord, base: nat)
    requires Ranked(m.rankings)
    ensures Ranked(RelistEffect(m, r, base).rankings)
  {
    var m1 := m.(tables := m.tables.(
      history := AddRecord(m.tables.history, r),
      listings := UpdatePrice(m.tables.listings, r.name, r.price.GetOr(0))));
    if r.name in m1.tables.listings { UpdateRanked(m1, m1.tables.listings[r.name], base, false); }
  }

  lemma EffectRanked(m: Market, s: Step)
    requires Ranked(m.rankings)
    ensures Ranked(Effect(m, s).rankings)
  {
    match s
    case TradeStep(action, q, e) => TradeRanked(m, action, q, e);
    case RelistStep(caller, name, price, e) =>
      var checked := CheckRelist(m.tables, caller, name, price, e);
      if checked.Success? {
        RelistRanked(m, checked.value, PreviousPrice(m.tables, name, e).GetOr(m.tables.listings[name].price));
      }
    case StatusStep(txId, status, now) => StatusRanked(m, txId, status, now);
    case _ =>
  }

  // ---------- in runs ----------

  lemma NextRanked(worlds: seq<World>, steps: seq<Step>, i: nat)
    requires IsRun(worlds, steps) && i < |steps| && Ranked(worlds[i].market.rankings)
    ensures Ranked(worlds[i + 1].market.rankings)
  {
    EffectRanked(worlds[i].market, steps[i]);
  }

  // In every reachable state each ranking ranks its members by what it is named
  // for.
  lemma {:induction false} RunRanked(worlds: seq<World>, steps: seq<Step>, i: nat)
    requires IsRun(worlds, steps) && i < |worlds|
    ensures Ranked(worlds[i].market.rankings)
  {
    if i > 0 {
      RunRanked(worlds, steps, i - 1);
      NextRanked(worlds, steps, i - 1);
    }
  }

  // ---------- reading the best deals ----------

  lemma ShownAt(r: Ranking<ListingItem>, count: nat, i: nat)
    requires ByDiscount(r) && i < Min(count, |r.zset|)
    ensures |ReadTop(r.zset, r.meta, count)| == Min(count, |r.zset|)
    ensures
      var item, e := ReadTop(r.zset, r.meta, count)[i], r.zset[|r.zset| - 1 - i];
      e.member in r.Visible() && item == r.Visible()[e.member] && item.name == e.member && item.discount == e.score
  {
    ScoresAre(r.zset);
    forall e | e in r.zset ensures e.member in r.meta {
      assert e.member in Scores(r.zset);
    }
    ReadTopIs(r.zset, r.meta, count, i);
    assert r.zset[|r.zset| - 1 - i] in r.zset;
  }

  // A read shows `count` deals, or all of them, with falling discounts, and
  // leaves out none with a higher discount than one it shows.
  lemma ReadDealsFall(r: Ranking<ListingItem>, count: nat, i: nat, j: nat)
    requires ByDiscount(r) && i <= j < |ReadTop(r.zset, r.meta, count)|
    ensures ReadTop(r.zset, r.meta, count)[i].discount >= ReadTop(r.zset, r.meta, count)[j].discount
  {
    ReadLength(r.zset, r.meta, count);
    ShownAt(r, count, i);
    ShownAt(r, count, j);
    var n := |r.zset| - 1;
    if i < j { assert Less(r.zset[n - j], r.zset[n - i]); }
  }

  ghost predicate LeftOut(items: seq<ListingItem>, m: string) {
    forall k :: 0 <= k < |items| ==> items[k].name != m
  }

  // What is left out stands below the first `count`.
  lemma LeftOutBelow(r: Ranking<ListingItem>, count: nat, at: nat)
    requires ByDiscount(r) && at < |r.zset| && LeftOut(ReadTop(r.zset, r.meta, count), r.zset[at].member)
    ensures |r.zset| - 1 - at >= count
  {
    var k := |r.zset| - 1 - at;
    if k < count { ShownAt(r, count, k); }
  }

  lemma DealAt(r: Ranking<ListingItem>, m: string) returns (at: nat)
    requires ByDiscount(r) && m in r.Visible()
    ensures at < |r.zset| && r.zset[at] == Entry(r.Visible()[m].discount, m)
  {
    ScoresAre(r.zset);
    assert Entry(Scores(r.zset)[m], m) in r.zset;
    at :| 0 <= at < |r.zset| && r.zset[at] == Entry(Scores(r.zset)[m], m);
  }

  lemma LeftOutDeal(r: Ranking<ListingItem>, count: nat, i: nat, m: string)
    requires ByDiscount(r) && i < |ReadTop(r.zset, r.meta, count)| && m in r.Visible()
    requires LeftOut(ReadTop(r.zset, r.meta, count), m)
    ensures ReadTop(r.zset, r.meta, count)[i].discount >= r.Visible()[m].discount
    ensures count < |r.zset|
  {
    ReadLength(r.zset, r.meta, count);
    var at := DealAt(r, m);
    LeftOutBelow(r, count, at);
    ShownAt(r, count, i);
    assert Less(r.zset[at], r.zset[|r.zset| - 1 - i]);
  }

  // In every run, what a reader of the best deals gets: items of listed names,
  // at most `count`, their discounts falling; a listed name that is not among
  // them has no higher discount.
  lemma BestDealsAreBest(worlds: seq<World>, steps: seq<Step>, i: nat, count: nat, a: nat, b: nat, n: Name)
    requires IsRun(worlds, steps) && i < |worlds|
    ensures
      var ls, r := worlds[i].market.tables.listings, worlds[i].market.rankings.bestDeals;
      var items := ReadTop(r.zset, r.meta, count);
      && (a < |items| ==> items[a].name in ls && items[a].price == ls[items[a].name].price)
      && (a <= b < |items| ==> items[a].discount >= items[b].discount)
      && (a < |items| && n in ls && LeftOut(items, n) ==>
           n in r.Visible() && items[a].discount >= r.Visible()[n].discount && |items| == count)
  {
    RunRanked(worlds, steps, i);
    RunKeeps(worlds, steps, i);
    var ls, r := worlds[i].market.tables.listings, worlds[i].market.rankings.bestDeals;
    var items := ReadTop(r.zset, r.meta, count);
    ReadLength(r.zset, r.meta, count);
    if a < |items| { ShownAt(r, count, a); }
    if a <= b < |items| { ReadDealsFall(r, count, a, b); }
    if a < |items| && n in ls && LeftOut(items, n) {
      LeftOutDeal(r, count, a, n);
    }
  }

  lemma {:induction false} ReadLength(z: seq<Entry>, meta: map<string, ListingItem>, count: nat)
    ensures |ReadTop(z, meta, count)| <= Min(count, |z|)
  {
    if z != [] && count > 0 { ReadLength(z[..|z| - 1], meta, count - 1); }
  }
}
