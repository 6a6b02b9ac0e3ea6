/**
 A trade the canister takes keeps every invariant.
 */
module TradePreservation {
  import opened Domain
  import opened SortedSets
  import opened Rankings
  import opened Tables
  import opened Pricing
  import opened EventHandling
  import opened Runs
  import opened Invariants

  // ---------- the effect on the tables ----------

  lemma NotTaken(t: Tables, n: Name, txId: TxId)
    requires ListingsInv(t)
    requires Lookup(t.history, txId).Some? ==> Lookup(t.history, txId).value.name == n
    ensures !TxTaken(t.listings, n, txId)
  {
    forall other | other in t.listings && other != n ensures t.listings[other].txId != txId {
      assert Backed(t, other);
    }
  }

  lemma SellerPointsOnly(t: Tables, r: TradeRecord)
    ensures AddSellerPoints(t, r) == t.(points := AddSellerPoints(t, r).points)
    ensures UsersInv(t) && (r.platformFee.Some? ==> r.platformFee.value >= 0) ==>
      forall p :: p in AddSellerPoints(t, r).points ==> AddSellerPoints(t, r).points[p] >= 0
  {
  }

  lemma PendingTables(m: Market, r: TradeRecord, now: int)
    requires Shape(r) && !r.action.Relist?
    requires !TxTaken(m.tables.listings, r.name, r.txId.value)
    requires r.action.List? ==> r.name !in m.tables.listings
    ensures
      HandlePending(m, r, now).tables ==
        m.tables.(
          listings := ListingsAfter(m.tables.listings, r, now),
          points := if r.action.IsBuy() then AddSellerPoints(m.tables, r).points else m.tables.points)
  {
    var t := m.tables.(listings := ListingsAfter(m.tables.listings, r, now));
    SellerPointsOnly(t, r);
    match r.action
    case List => assert HandleListPending(m, r, now).tables == t;
    case Delist => assert HandleDelistPending(m, r).tables == t;
    case BuyAndRelist => BuyAndRelistTables(m, r, t);
    case BuyAndDelist => assert HandleBuyAndDelistPending(m, r).tables == AddSellerPoints(t, r);
  }

  lemma BuyAndRelistTables(m: Market, r: TradeRecord, t: Tables)
    requires Shape(r) && r.action.BuyAndRelist? && !TxTaken(m.tables.listings, r.name, r.txId.value)
    requires t == m.tables.(listings := ListingsAfter(m.tables.listings, r, 0))
    ensures HandleBuyAndRelistPending(m, r).tables == AddSellerPoints(t, r)
  {
    var name, before := r.name, m.tables.listings;
    var m1 := m.(tables := t);
    assert t.listings == UpdateSellerPriceTx(before, name, r.buyer.value, r.price.value, r.txId.value);
    var m2 := if name in before then UpdateSaleRankings(m1, before[name], r.buyer.value) else m1;
    assert RemoveListingRankings(m2, name).tables == t;
  }

  // The tables after a taken trade, for any later points column.
  ghost function After(t: Tables, r: TradeRecord, now: int, points: map<Name, int>): Tables {
    t.(history := AddRecord(t.history, r), listings := ListingsAfter(t.listings, r, now), points := points)
  }

  lemma LookupAfter(h: seq<TradeRecord>, r: TradeRecord, txId: TxId)
    ensures Lookup(AddRecord(h, r), txId) == if r.txId == Some(txId) then Some(r) else Lookup(h, txId)
  {
    Snoc(h, r);
  }

  lemma CountAfter(h: seq<TradeRecord>, r: TradeRecord, n: Name)
    ensures RecordCount(AddRecord(h, r), n) == RecordCount(h, n) + if r.name == n then 1 else 0
  {
    Snoc(h, r);
  }

  lemma RecordsAfter(h: seq<TradeRecord>, chain: map<TxId, seq<TxOut>>, r: TradeRecord, outs: seq<TxOut>)
    requires RecordsInv(h, chain) && Shape(r)
    requires r.txId.Some? ==>
      && r.txId.value !in chain
      && KnownValue(chain[r.txId.value := outs], r)
    ensures RecordsInv(AddRecord(h, r), if r.txId.Some? then chain[r.txId.value := outs] else chain)
  {
    var h' := AddRecord(h, r);
    var chain' := if r.txId.Some? then chain[r.txId.value := outs] else chain;
    Snoc(h, r);
    forall i | 0 <= i < |h'| ensures Shape(h'[i]) && (h'[i].txId.Some? ==> KnownValue(chain', h'[i])) {
      if i < |h| { assert h'[i] == h[i]; }
    }
    forall i, j | 0 <= i < j < |h'| && h'[i].txId.Some? ensures h'[i].txId != h'[j].txId {
      assert h'[i] == h[i];
      if j < |h| { assert h'[j] == h[j]; }
    }
  }

  lemma ListingsAfterKeep(t: Tables, r: TradeRecord, now: int, points: map<Name, int>)
    requires ListingsInv(t) && Fits(t, r)
    ensures ListingsInv(After(t, r, now, points))
  {
    var t' := After(t, r, now, points);
    forall n | n in t'.listings ensures Backed(t', n) {
      LookupAfter(t.history, r, t'.listings[n].txId);
      if n != r.name {
        assert Backed(t, n);
        LookupFacts(t.history, r.txId.value);
      } else if r.action.BuyAndRelist? {
        assert Backed(t, n);
      }
    }
  }

  lemma PricedMore(p: nat, c: nat, c': nat)
    requires Priced(p, c) && c <= c'
    ensures Priced(p, c')
  {
    GrowthMonotone(p, c, c');
  }

  lemma PricedStep(base: nat, p: nat, c: nat)
    requires Priced(base, c) && ValidatePrice(base, p).Success?
    ensures Priced(p, c + 1)
  {
    GrowthStep(base, p, c);
  }

  // The prices a fitting record carries are bounded by the new record count.
  lemma RecordPrices(t: Tables, r: TradeRecord)
    requires PriceInv(t) && Fits(t, r)
    ensures RecordPriced(r, RecordCount(t.history, r.name) + 1)
  {
    var c := RecordCount(t.history, r.name);
    var base := r.previousPrice.value;
    PricedMore(base, c, c + 1);
    if !r.action.IsExit() { PricedStep(base, r.price.value, c); }
  }

  lemma HistoryPrices(t: Tables, r: TradeRecord, h': seq<TradeRecord>)
    requires PriceInv(t) && h' == AddRecord(t.history, r)
    requires RecordPriced(r, RecordCount(t.history, r.name) + 1)
    ensures forall i :: 0 <= i < |h'| ==> RecordPriced(h'[i], RecordCount(h', h'[i].name))
  {
    Snoc(t.history, r);
    forall i | 0 <= i < |h'| ensures RecordPriced(h'[i], RecordCount(h', h'[i].name)) {
      CountAfter(t.history, r, h'[i].name);
      if i < |t.history| {
        var c, c' := RecordCount(t.history, h'[i].name), RecordCount(h', h'[i].name);
        assert h'[i] == t.history[i];
        PricedMore(h'[i].price.value, c, c');
        PricedMore(h'[i].previousPrice.value, c, c');
      }
    }
  }

  lemma ListingPriced(t: Tables, r: TradeRecord, now: int, n: Name)
    requires PriceInv(t) && Fits(t, r) && n in ListingsAfter(t.listings, r, now)
    requires RecordPriced(r, RecordCount(t.history, r.name) + 1)
    ensures Priced(ListingsAfter(t.listings, r, now)[n].price, RecordCount(AddRecord(t.history, r), n))
  {
    CountAfter(t.history, r, n);
    if n != r.name {
      PricedMore(t.listings[n].price, RecordCount(t.history, n), RecordCount(AddRecord(t.history, r), n));
    }
  }

  lemma PricesAfter(t: Tables, r: TradeRecord, now: int, points: map<Name, int>)
    requires PriceInv(t) && Fits(t, r)
    ensures PriceInv(After(t, r, now, points))
  {
    var t' := After(t, r, now, points);
    RecordPrices(t, r);
    HistoryPrices(t, r, t'.history);
    forall n | n in t'.listings ensures Priced(t'.listings[n].price, RecordCount(t'.history, n)) {
      ListingPriced(t, r, now, n);
    }
  }

  lemma UsersAfter(t: Tables, r: TradeRecord, now: int, points: map<Name, int>)
    requires UsersInv(t) && Fits(t, r)
    requires forall p :: p in points ==> points[p] >= 0
    ensures UsersInv(After(t, r, now, points))
  {
    Snoc(t.history, r);
  }

  // ---------- the stack ----------

  lemma PushMatches(stack: seq<Frame>, f: Frame, now: Option<Holding>)
    requires StackMatches(f.before, stack)
    requires !f.record.action.Relist? && f.before == BeforeOf(f.record)
    requires SameButPrice(now, AfterOf(f.record))
    ensures StackMatches(now, stack + [f])
  {
    var s := stack + [f];
    assert s[..|s| - 1] == stack && s[|s| - 1] == f;
  }

  lemma StackAfter(w: World, r: TradeRecord, w': World, now: int, points: map<Name, int>)
    requires StackInv(w) && Fits(w.market.tables, r)
    requires w'.market.tables == After(w.market.tables, r, now, points)
    requires
      var f := Frame(r, HoldingOf(w.market.tables.listings, r.name), w.time);
      w'.stacks == w.stacks[r.name := StackOf(w, r.name) + [f]]
    ensures StackInv(w')
  {
    var t, t' := w.market.tables, w'.market.tables;
    var f := Frame(r, HoldingOf(t.listings, r.name), w.time);
    forall n ensures StackInvAt(w', n) {
      assert StackInvAt(w, n);
      if n == r.name {
        PushMatches(StackOf(w, n), f, HoldingOf(t'.listings, n));
      }
      forall g | g in StackOf(w', n) ensures FrameRecorded(t'.history, n, g) {
        if g in StackOf(w, n) {
          assert FrameRecorded(t.history, n, g);
          LookupFacts(t.history, g.record.txId.value);
          LookupAfter(t.history, r, g.record.txId.value);
        } else {
          assert g == f;
          LookupAfter(t.history, r, r.txId.value);
        }
      }
    }
  }

  // ---------- derived indexes ----------

  lemma PutShows(listings: map<Name, Listing>, r: Ranking<ListingItem>, l: Listing, item: ListingItem)
    requires DealsAgree(listings, r) && Shows(item, l)
    ensures DealsAgree(listings[l.name := l], BestDealsAdd(r, item))
  {
  }

  lemma PutBounded(r: Ranking<ListingItem>, item: ListingItem)
    requires DiscountsBounded(r) && item.discount <= 990
    ensures DiscountsBounded(BestDealsAdd(r, item))
  {
    AddShows(r, item.discount, item.name, item);
  }

  lemma PutAgrees(listings: map<Name, Listing>, r: Ranking<ListingItem>, l: Listing, previous: nat)
    requires DealsAgree(listings, r) && DiscountsBounded(r)
    requires Discount(l.price, previous) <= 990
    ensures DealsAgree(listings[l.name := l], BestDealsAdd(r, ItemOf(l, previous)))
    ensures DiscountsBounded(BestDealsAdd(r, ItemOf(l, previous)))
  {
    PutShows(listings, r, l, ItemOf(l, previous));
    PutBounded(r, ItemOf(l, previous));
  }

  lemma DropAgrees(listings: map<Name, Listing>, r: Ranking<ListingItem>, n: Name)
    requires DealsAgree(listings, r) && DiscountsBounded(r)
    ensures DealsAgree(listings - {n}, r.Remove(n)) && DiscountsBounded(r.Remove(n))
  {
    RemoveHides(r, n);
  }

  lemma NewPut(listings: map<Name, Listing>, r: Ranking<ListingItem>, l: Listing, item: ListingItem)
    requires r.Members() <= listings.Keys && item.name == l.name
    ensures NewListingsInv(listings[l.name := l], NewListingsAdd(r, item))
  {
  }

  lemma NewDrop(listings: map<Name, Listing>, r: Ranking<ListingItem>, n: Name)
    requires NewListingsInv(listings, r)
    ensures NewListingsInv(listings - {n}, r.Remove(n))
  {
  }

  // The two listing rankings after a new entry, a removal, or a replacement.
  ghost predicate RankingsPut(k: Rankings, k': Rankings, item: ListingItem) {
    k'.bestDeals == BestDealsAdd(k.bestDeals, item) && k'.newListings == NewListingsAdd(k.newListings, item)
  }

  ghost predicate RankingsDropped(k: Rankings, k': Rankings, n: Name) {
    k'.bestDeals == k.bestDeals.Remove(n) && k'.newListings == k.newListings.Remove(n)
  }

  ghost predicate RankingsReplaced(k: Rankings, k': Rankings, item: ListingItem, isNew: bool) {
    && k'.bestDeals == BestDealsAdd(k.bestDeals.Remove(item.name), item)
    && k'.newListings ==
         if isNew then NewListingsAdd(k.newListings.Remove(item.name), item) else k.newListings.Remove(item.name)
  }

  lemma PendingRankings(m: Market, r: TradeRecord, now: int)
    requires Shape(r) && !r.action.Relist?
    requires !TxTaken(m.tables.listings, r.name, r.txId.value)
    requires r.action.BuyAndRelist? ==> r.name in m.tables.listings && m.tables.listings[r.name].name == r.name
    ensures
      var k, k', ls' := m.rankings, HandlePending(m, r, now).rankings, ListingsAfter(m.tables.listings, r, now);
      match r.action
      case List => RankingsPut(k, k', ItemOf(ls'[r.name], r.previousPrice.value))
      case BuyAndRelist => RankingsReplaced(k, k', ItemOf(ls'[r.name], r.previousPrice.value), false)
      case _ => RankingsDropped(k, k', r.name)
  {
  }

  lemma IndexPut(ls: map<Name, Listing>, k: Rankings, k': Rankings, l: Listing, previous: nat)
    requires DealsAgree(ls, k.bestDeals) && DiscountsBounded(k.bestDeals) && NewListingsInv(ls, k.newListings)
    requires RankingsPut(k, k', ItemOf(l, previous)) && Discount(l.price, previous) <= 990
    ensures DealsAgree(ls[l.name := l], k'.bestDeals) && DiscountsBounded(k'.bestDeals)
    ensures NewListingsInv(ls[l.name := l], k'.newListings)
  {
    PutAgrees(ls, k.bestDeals, l, previous);
    NewPut(ls, k.newListings, l, ItemOf(l, previous));
  }

  lemma IndexDropped(ls: map<Name, Listing>, k: Rankings, k': Rankings, n: Name)
    requires DealsAgree(ls, k.bestDeals) && DiscountsBounded(k.bestDeals) && NewListingsInv(ls, k.newListings)
    requires RankingsDropped(k, k', n)
    ensures DealsAgree(ls - {n}, k'.bestDeals) && DiscountsBounded(k'.bestDeals)
    ensures NewListingsInv(ls - {n}, k'.newListings)
  {
    DropAgrees(ls, k.bestDeals, n);
    NewDrop(ls, k.newListings, n);
  }

  lemma DealsReplaced(ls: map<Name, Listing>, deals: Ranking<ListingItem>, l: Listing, previous: nat)
    requires DealsAgree(ls, deals) && DiscountsBounded(deals) && Discount(l.price, previous) <= 990
    ensures
      var deals' := BestDealsAdd(deals.Remove(l.name), ItemOf(l, previous));
      DealsAgree(ls[l.name := l], deals') && DiscountsBounded(deals')
  {
    assert (ls - {l.name})[l.name := l] == ls[l.name := l];
    DropAgrees(ls, deals, l.name);
    PutAgrees(ls - {l.name}, deals.Remove(l.name), l, previous);
  }

  lemma NewReplaced(ls: map<Name, Listing>, r: Ranking<ListingItem>, l: Listing, item: ListingItem, isNew: bool)
    requires NewListingsInv(ls, r) && item.name == l.name
    ensures NewListingsInv(ls[l.name := l], if isNew then NewListingsAdd(r.Remove(l.name), item) else r.Remove(l.name))
  {
    NewDrop(ls, r, l.name);
    if isNew { NewPut(ls, r.Remove(l.name), l, item); }
  }

  lemma IndexReplaced(
    ls: map<Name, Listing>, k: Rankings, k': Rankings, l: Listing, previous: nat, isNew: bool)
    requires DealsAgree(ls, k.bestDeals) && DiscountsBounded(k.bestDeals) && NewListingsInv(ls, k.newListings)
    requires RankingsReplaced(k, k', ItemOf(l, previous), isNew) && Discount(l.price, previous) <= 990
    ensures DealsAgree(ls[l.name := l], k'.bestDeals) && DiscountsBounded(k'.bestDeals)
    ensures NewListingsInv(ls[l.name := l], k'.newListings)
  {
    DealsReplaced(ls, k.bestDeals, l, previous);
    NewReplaced(ls, k.newListings, l, ItemOf(l, previous), isNew);
  }

  lemma IndexAfter(m: Market, r: TradeRecord, now: int)
    requires IndexInv(m) && Shape(r) && !r.action.Relist?
    requires !TxTaken(m.tables.listings, r.name, r.txId.value)
    requires r.action.BuyAndRelist? ==> r.name in m.tables.listings && m.tables.listings[r.name].name == r.name
    requires !r.action.IsExit() ==> Discount(r.price.value, r.previousPrice.value) <= 990
    ensures
      var ls', k' := ListingsAfter(m.tables.listings, r, now), HandlePending(m, r, now).rankings;
      && DealsAgree(ls', k'.bestDeals) && DiscountsBounded(k'.bestDeals)
      && NewListingsInv(ls', k'.newListings)
  {
    PendingRankings(m, r, now);
    IndexFrom(m.tables.listings, m.rankings, HandlePending(m, r, now).rankings, r, now);
  }

  lemma IndexFrom(ls: map<Name, Listing>, k: Rankings, k': Rankings, r: TradeRecord, now: int)
    requires DealsAgree(ls, k.bestDeals) && DiscountsBounded(k.bestDeals) && NewListingsInv(ls, k.newListings)
    requires Shape(r) && !r.action.Relist?
    requires r.action.BuyAndRelist? ==> r.name in ls && ls[r.name].name == r.name
    requires !r.action.IsExit() ==> Discount(r.price.value, r.previousPrice.value) <= 990
    requires
      var ls' := ListingsAfter(ls, r, now);
      match r.action
      case List => RankingsPut(k, k', ItemOf(ls'[r.name], r.previousPrice.value))
      case BuyAndRelist => RankingsReplaced(k, k', ItemOf(ls'[r.name], r.previousPrice.value), false)
      case _ => RankingsDropped(k, k', r.name)
    ensures
      var ls' := ListingsAfter(ls, r, now);
      && DealsAgree(ls', k'.bestDeals) && DiscountsBounded(k'.bestDeals)
      && NewListingsInv(ls', k'.newListings)
  {
    var ls' := ListingsAfter(ls, r, now);
    match r.action
    case List => IndexPut(ls, k, k', ls'[r.name], r.previousPrice.value);
    case BuyAndRelist => IndexReplaced(ls, k, k', ls'[r.name], r.previousPrice.value, false);
    case _ => IndexDropped(ls, k, k', r.name);
  }

  // ---------- aggregates ----------

  lemma AggregateStep(h: seq<TradeRecord>, r: TradeRecord, n: Name, s: Address)
    ensures TradedCount(AddRecord(h, r), n) == TradedCount(h, n) + if r.name == n && r.action.IsBuy() then 1 else 0
    ensures SalesOf(AddRecord(h, r), s) == SalesOf(h, s) + if SoldBy(r, s) then 1 else 0
    ensures !SoldBy(r, s) ==> Earned(AddRecord(h, r), s) == Earned(h, s)
  {
    Snoc(h, r);
  }

  // Scores after the pending effect: a buy rewrites one name and one seller.
  lemma PendingScores(m: Market, r: TradeRecord, now: int)
    requires Shape(r) && !r.action.Relist?
    requires r.action.IsBuy() ==>
      r.name in m.tables.listings && m.tables.listings[r.name].name == r.name &&
      Some(m.tables.listings[r.name].seller) == r.seller
    ensures
      var k, k' := m.rankings, HandlePending(m, r, now).rankings;
      var h := m.tables.history;
      && Scores(k'.mostTraded.zset) == (if r.action.IsBuy()
           then Scores(k.mostTraded.zset)[r.name := AsU32(TradedCount(h, r.name))] else Scores(k.mostTraded.zset))
      && Scores(k'.topEarners.zset) == (if r.action.IsBuy()
           then Scores(k.topEarners.zset)[r.seller.value := Earned(h, r.seller.value)] else Scores(k.topEarners.zset))
  {
    if r.action.IsBuy() { BuyScores(m, r); }
  }

  lemma SaleScores(m: Market, sold: Listing, buyer: Address)
    ensures
      var k, k' := m.rankings, UpdateSaleRankings(m, sold, buyer).rankings;
      var h := m.tables.history;
      && Scores(k'.mostTraded.zset) == Scores(k.mostTraded.zset)[sold.name := AsU32(TradedCount(h, sold.name))]
      && Scores(k'.topEarners.zset) == Scores(k.topEarners.zset)[sold.seller := Earned(h, sold.seller)]
  {
  }

  // A pending buy runs the sale ranking update once, on the listing it sells.
  lemma BuyScores(m: Market, r: TradeRecord)
    requires Shape(r) && r.action.IsBuy()
    requires
      r.name in m.tables.listings && m.tables.listings[r.name].name == r.name &&
      Some(m.tables.listings[r.name].seller) == r.seller
    ensures
      var k, k' := m.rankings, HandlePending(m, r, 0).rankings;
      var h := m.tables.history;
      && Scores(k'.mostTraded.zset) == Scores(k.mostTraded.zset)[r.name := AsU32(TradedCount(h, r.name))]
      && Scores(k'.topEarners.zset) == Scores(k.topEarners.zset)[r.seller.value := Earned(h, r.seller.value)]
    ensures forall now :: HandlePending(m, r, now) == HandlePending(m, r, 0)
  {
    var sold := m.tables.listings[r.name];
    SaleScores(m, sold, r.buyer.value);
    var sale, k' := UpdateSaleRankings(m, sold, r.buyer.value).rankings, HandlePending(m, r, 0).rankings;
    assert k'.mostTraded == sale.mostTraded && k'.topEarners == sale.topEarners;
  }

  lemma AggregatesAfter(m: Market, m1: Market, m': Market, r: TradeRecord, now: int)
    requires AggregatesInv(m) && Fits(m.tables, r) && ListingsInv(m.tables)
    requires m1 == m.(tables := m.tables.(history := AddRecord(m.tables.history, r)))
    requires m' == HandlePending(m1, r, now) && m'.tables.history == m1.tables.history
    ensures AggregatesInv(m')
  {
    if r.action.IsBuy() { assert Backed(m.tables, r.name); }
    PendingScores(m1, r, now);
    var h, h' := m.tables.history, m'.tables.history;
    forall n ensures TradedAgrees(h', Scores(m'.rankings.mostTraded.zset), n) {
      assert TradedAgrees(h, Scores(m.rankings.mostTraded.zset), n);
      AggregateStep(h, r, n, "");
    }
    forall s ensures EarnedAgrees(h', Scores(m'.rankings.topEarners.zset), s) {
      assert EarnedAgrees(h, Scores(m.rankings.topEarners.zset), s);
      AggregateStep(h, r, "", s);
    }
  }
}
