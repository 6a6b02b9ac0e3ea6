/**
 The event service: the optimistic effect of a submitted trade, its rollback
 when the trade is rejected, and the ranking updates both cause. Functions give
 the meaning on values; `EventService` performs the same steps on the stores.
 */
module EventHandling {
  import opened Domain
  import opened Rankings
  import opened Tables
  import Pricing

  datatype Market = Market(tables: Tables, rankings: Rankings, events: seq<BroadcastEvent>)

  // `as u32` on a row count.
  const U32_LIMIT: nat := 0x1_0000_0000

  function AsU32(n: nat): nat {
    n % U32_LIMIT
  }

  lemma AsU32Is(n: nat)
    ensures AsU32(n) < 0x1_0000_0000 && (n - AsU32(n)) % 0x1_0000_0000 == 0
    ensures n < 0x1_0000_0000 ==> AsU32(n) == n
  {
    assert n - AsU32(n) == (n / 0x1_0000_0000) * 0x1_0000_0000;
  }

  // ---------- ranking helpers ----------

  function ItemOf(l: Listing, previousPrice: nat): ListingItem {
    ListingItem(l.name, l.price, l.listedAt, Pricing.Discount(l.price, previousPrice), l.seller)
  }

  function UpdateListingRankings(m: Market, l: Listing, previousPrice: nat, isNew: bool): Market {
    var item := ItemOf(l, previousPrice);
    var r := m.rankings;
    var r' := if isNew then r.(newListings := NewListingsAdd(r.newListings, item)) else r;
    Market(
      m.tables,
      r'.(bestDeals := BestDealsAdd(r'.bestDeals, item)),
      m.events + (if isNew then [NewListing(item)] else []) + [BestDeal(item)])
  }

  function RemoveListingRankings(m: Market, name: Name): Market {
    var r := m.rankings;
    Market(
      m.tables,
      r.(newListings := r.newListings.Remove(name), bestDeals := r.bestDeals.Remove(name)),
      m.events + [RemoveNewListing(name), RemoveBestDeal(name)])
  }

  function SaleItem(t: Tables, sold: Listing, buyer: Address): MostTradedItem {
    MostTradedItem(sold.name, sold.price, sold.seller, buyer, AsU32(TradedCount(t.history, sold.name)))
  }

  function EarnerItem(t: Tables, seller: Address): TopEarnerItem {
    TopEarnerItem(seller, Earned(t.history, seller), AsU32(SalesOf(t.history, seller)))
  }

  function UpdateSaleRankings(m: Market, sold: Listing, buyer: Address): Market {
    var traded, earner := SaleItem(m.tables, sold, buyer), EarnerItem(m.tables, sold.seller);
    var r := m.rankings;
    Market(
      m.tables,
      r.(mostTraded := MostTradedAdd(r.mostTraded, traded), topEarners := TopEarnersAdd(r.topEarners, earner)),
      m.events + [RecentSale(sold.name), MostTraded(traded), TopSale(sold.name), TopEarner(earner)])
  }

  function AddSellerPoints(t: Tables, r: TradeRecord): Tables {
    if r.platformFee.Some? && r.seller.GetOr("") in t.users && t.users[r.seller.GetOr("")].Some? then
      t.(points := AddPoints(t.points, t.users[r.seller.GetOr("")].value, r.platformFee.value))
    else t
  }

  function RecordListing(r: TradeRecord, price: nat, now: int): Listing {
    Listing(r.name, r.seller.GetOr(""), price, r.txId.GetOr(""), r.utxoSats, now)
  }

  // ---------- pending effects ----------

  function HandlePending(m: Market, r: TradeRecord, now: int): Market {
    match r.action
    case List => HandleListPending(m, r, now)
    case Delist => HandleDelistPending(m, r)
    case BuyAndRelist => HandleBuyAndRelistPending(m, r)
    case BuyAndDelist => HandleBuyAndDelistPending(m, r)
    case Relist => m
  }

  function HandleListPending(m: Market, r: TradeRecord, now: int): Market {
    if r.price.None? || r.seller.None? then m
    else
      var l := RecordListing(r, r.price.value, now);
      var m1 := m.(tables := m.tables.(listings := CreateListing(m.tables.listings, l)));
      UpdateListingRankings(m1, l, r.previousPrice.GetOr(0), true)
  }

  function HandleDelistPending(m: Market, r: TradeRecord): Market {
    var m1 := m.(tables := m.tables.(listings := DeleteListing(m.tables.listings, r.name)));
    RemoveListingRankings(m1, r.name)
  }

  function HandleBuyAndRelistPending(m: Market, r: TradeRecord): Market {
    if r.buyer.None? || r.price.None? then m
    else
      var name, before := r.name, m.tables.listings;
      var m1 := m.(tables := m.tables.(listings :=
        UpdateSellerPriceTx(before, name, r.buyer.value, r.price.value, r.txId.GetOr(""))));
      var m2 := if name in before then UpdateSaleRankings(m1, before[name], r.buyer.value) else m1;
      var m3 := RemoveListingRankings(m2, name);
      var m4 := if name in m3.tables.listings
        then UpdateListingRankings(m3, m3.tables.listings[name], r.previousPrice.GetOr(0), false) else m3;
      m4.(tables := AddSellerPoints(m4.tables, r))
  }

  function HandleBuyAndDelistPending(m: Market, r: TradeRecord): Market {
    if r.buyer.None? then m
    else
      var name, before := r.name, m.tables.listings;
      var m1 := if name in before then UpdateSaleRankings(m, before[name], r.buyer.value) else m;
      var m2 := m1.(tables := m1.tables.(listings := DeleteListing(before, name)));
      var m3 := RemoveListingRankings(m2, name);
      m3.(tables := AddSellerPoints(m3.tables, r))
  }

  // ---------- rollbacks ----------

  function HandleRejected(m: Market, r: TradeRecord, now: int): Market {
    match r.action
    case List => HandleDelistPending(m, r)
    case Delist => HandleExitRejected(m, r, now)
    case BuyAndDelist => HandleExitRejected(m, r, now)
    case BuyAndRelist => HandleBuyAndRelistRejected(m, r)
    case Relist => m
  }

  // delist and buy_and_delist rejected: re-insert the listing from the record.
  function HandleExitRejected(m: Market, r: TradeRecord, now: int): Market {
    var price := r.previousPrice.GetOr(0);
    var l := RecordListing(r, price, now);
    var m1 := m.(tables := m.tables.(listings := CreateListing(m.tables.listings, l)));
    UpdateListingRankings(m1, l, price, true)
  }

  function HandleBuyAndRelistRejected(m: Market, r: TradeRecord): Market {
    var name, price := r.name, r.previousPrice.GetOr(0);
    var m1 := m.(tables := m.tables.(listings :=
      UpdateSellerPriceTx(m.tables.listings, name, r.seller.GetOr(""), price, r.txId.GetOr(""))));
    var m2 := RemoveListingRankings(m1, name);
    var m3 := if name in m2.tables.listings
      then UpdateListingRankings(m2, m2.tables.listings[name], price, true) else m2;
    m3.(events := m3.events + [RemoveNewListing(name)])
  }

  lemma RankingsOnly(m: Market, name: Name, price: nat)
    ensures RemoveListingRankings(m, name).tables == m.tables
    ensures name in m.tables.listings ==>
      UpdateListingRankings(m, m.tables.listings[name], price, true).tables == m.tables
  {
  }

  lemma SaleRollbackTables(m: Market, r: TradeRecord)
    ensures HandleBuyAndRelistRejected(m, r).tables == m.tables.(listings := UpdateSellerPriceTx(
      m.tables.listings, r.name, r.seller.GetOr(""), r.previousPrice.GetOr(0), r.txId.GetOr("")))
  {
    var m1 := m.(tables := m.tables.(listings := UpdateSellerPriceTx(
      m.tables.listings, r.name, r.seller.GetOr(""), r.previousPrice.GetOr(0), r.txId.GetOr(""))));
    RankingsOnly(RemoveListingRankings(m1, r.name), r.name, r.previousPrice.GetOr(0));
  }

  // A rollback writes listings only.
  lemma RollbackKeepsHistory(m: Market, r: TradeRecord, now: int)
    ensures HandleRejected(m, r, now).tables.history == m.tables.history
    ensures HandleRejected(m, r, now).tables.eventOffset == m.tables.eventOffset
  {
    match r.action
    case BuyAndRelist => SaleRollbackTables(m, r);
    case _ =>
  }

  // ---------- status changes ----------

  datatype ReeStatus = ReePending | ReeFinalized | ReeConfirmed(confirmations: nat) | ReeRejected(reason: string)

  function NewStatus(s: ReeStatus): Option<Status> {
    match s
    case ReePending => None
    case ReeFinalized => Some(Finalized)
    case ReeConfirmed(_) => Some(Confirmed)
    case ReeRejected(_) => Some(Rejected)
  }

  function HandleStatusChange(m: Market, txId: TxId, s: ReeStatus, now: int): Market {
    if NewStatus(s).None? then m
    else
      var status := NewStatus(s).value;
      var m1 := m.(tables := m.tables.(history := SetStatus(m.tables.history, txId, status)));
      var row := Lookup(m1.tables.history, txId);
      if s.ReeRejected? && row.Some? then HandleRejected(m1, row.value, now) else m1
  }
}
