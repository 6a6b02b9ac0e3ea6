/**
 What every reachable world satisfies, stated predicate by predicate.
 */
module Invariants {
  import opened Domain
  import opened SortedSets
  import opened Rankings
  import opened Tables
  import opened Pricing
  import opened EventHandling
  import opened Runs

  // ---------- records and transactions ----------

  ghost predicate Shape(r: TradeRecord) {
    && r.seller.Some? && r.previousPrice.Some? && r.price.Some?
    && (r.txId.None? <==> r.action.Relist?)
    && (r.action.IsBuy() ==> r.buyer.Some? && r.platformFee.Some?)
    && (!r.action.IsBuy() ==> r.platformFee.None?)
  }

  ghost predicate RecordsInv(history: seq<TradeRecord>, chain: map<TxId, seq<TxOut>>) {
    && (forall i :: 0 <= i < |history| ==> Shape(history[i]))
    && (forall i, j :: 0 <= i < j < |history| && history[i].txId.Some? ==> history[i].txId != history[j].txId)
    && (forall i :: 0 <= i < |history| && history[i].txId.Some? ==> KnownValue(chain, history[i]))
  }

  // Output 0 of the record's transaction is worth what the record says.
  ghost predicate KnownValue(chain: map<TxId, seq<TxOut>>, r: TradeRecord)
    requires r.txId.Some?
  {
    && r.txId.value in chain
    && chain[r.txId.value] != []
    && chain[r.txId.value][0].value == r.utxoSats
  }

  // Each listing names a transaction of its own name, and carries its output value.
  ghost predicate ListingsInv(t: Tables) {
    forall n :: n in t.listings ==> Backed(t, n)
  }

  ghost predicate Backed(t: Tables, n: Name)
    requires n in t.listings
  {
    var l := t.listings[n];
    var r := Lookup(t.history, l.txId);
    && l.name == n
    && r.Some? && r.value.name == n && r.value.utxoSats == l.utxoSats
  }

  // ---------- prices ----------

  ghost predicate Priced(price: nat, trades: nat) {
    price >= GLOBAL_MIN_PRICE && WithinGrowth(price, trades)
  }

  ghost predicate PriceInv(t: Tables) {
    && (forall n :: n in t.listings ==> Priced(t.listings[n].price, RecordCount(t.history, n)))
    && (forall i :: 0 <= i < |t.history| ==> RecordPriced(t.history[i], RecordCount(t.history, t.history[i].name)))
  }

  ghost predicate RecordPriced(r: TradeRecord, trades: nat) {
    && r.price.Some? && Priced(r.price.value, trades)
    && r.previousPrice.Some? && Priced(r.previousPrice.value, trades)
  }

  // ---------- users and points ----------

  ghost predicate UsersInv(t: Tables) {
    && (forall n :: n in t.listings ==> t.listings[n].seller in t.users)
    && (forall i :: 0 <= i < |t.history| ==>
         t.history[i].seller.GetOr("") in t.users &&
         (t.history[i].buyer.Some? ==> t.history[i].buyer.value in t.users))
    && (forall p :: p in t.points ==> t.points[p] >= 0)
  }

  // ---------- the ghost stack of rollbacks ----------

  // What a submitted record leaves behind, as far as a rollback can tell.
  ghost function AfterOf(r: TradeRecord): Option<Holding> {
    match r.action
    case List => Some(Holding(r.seller.GetOr(""), r.price.GetOr(0), r.utxoSats))
    case BuyAndRelist => Some(Holding(r.buyer.GetOr(""), r.price.GetOr(0), r.utxoSats))
    case _ => None
  }

  // The holding a rollback rebuilds from the record alone.
  ghost function BeforeOf(r: TradeRecord): Option<Holding> {
    if r.action.List? then None
    else Some(Holding(r.seller.GetOr(""), r.previousPrice.GetOr(0), r.utxoSats))
  }

  // Relists change nothing but the price.
  ghost predicate SameButPrice(a: Option<Holding>, b: Option<Holding>) {
    match (a, b)
    case (Some(x), Some(y)) => x.seller == y.seller && x.utxoSats == y.utxoSats
    case (None, None) => true
    case _ => false
  }

  ghost predicate StackMatches(now: Option<Holding>, stack: seq<Frame>)
    decreases |stack|
  {
    if stack == [] then now.None?
    else
      var rest, top := stack[..|stack| - 1], stack[|stack| - 1];
      && !top.record.action.Relist?
      && SameButPrice(now, AfterOf(top.record))
      && top.before == BeforeOf(top.record)
      && StackMatches(top.before, rest)
  }

  ghost predicate FrameRecorded(h: seq<TradeRecord>, n: Name, f: Frame) {
    && f.record.name == n && f.record.txId.Some?
    && SameTradeOpt(Lookup(h, f.record.txId.value), Some(f.record))
  }

  ghost predicate StackInv(w: World) {
    forall n :: StackInvAt(w, n)
  }

  ghost predicate StackInvAt(w: World, n: Name) {
    && StackMatches(HoldingOf(w.market.tables.listings, n), StackOf(w, n))
    && forall f :: f in StackOf(w, n) ==> FrameRecorded(w.market.tables.history, n, f)
  }

  // ---------- derived indexes ----------

  ghost predicate Shows(item: ListingItem, l: Listing) {
    item.name == l.name && item.price == l.price && item.seller == l.seller
  }

  ghost predicate DealsAgree(listings: map<Name, Listing>, r: Ranking<ListingItem>) {
    && r.Members() == listings.Keys
    && forall n :: n in listings ==> n in r.meta && Shows(r.meta[n], listings[n])
  }

  ghost predicate DiscountsBounded(r: Ranking<ListingItem>) {
    forall n :: n in r.Visible() ==> r.Visible()[n].discount <= 990
  }

  ghost predicate NewListingsInv(listings: map<Name, Listing>, r: Ranking<ListingItem>) {
    r.Members() <= listings.Keys && |r.zset| <= NEW_LISTINGS_LIMIT
  }

  ghost predicate IndexInv(m: Market) {
    && DealsAgree(m.tables.listings, m.rankings.bestDeals)
    && DiscountsBounded(m.rankings.bestDeals)
    && NewListingsInv(m.tables.listings, m.rankings.newListings)
  }

  // ---------- aggregates ----------

  ghost predicate TradedAgrees(h: seq<TradeRecord>, scores: map<string, int>, n: Name) {
    && (n in scores <==> TradedCount(h, n) > 0)
    && (n in scores ==> scores[n] == AsU32(TradedCount(h, n)))
  }

  ghost predicate EarnedAgrees(h: seq<TradeRecord>, scores: map<string, int>, s: Address) {
    && (s in scores <==> SalesOf(h, s) > 0)
    && (s in scores ==> scores[s] == Earned(h, s))
  }

  ghost predicate AggregatesInv(m: Market) {
    && (forall n :: TradedAgrees(m.tables.history, Scores(m.rankings.mostTraded.zset), n))
    && (forall s :: EarnedAgrees(m.tables.history, Scores(m.rankings.topEarners.zset), s))
  }

  // ---------- all of it ----------

  ghost predicate Inv(w: World) {
    && RecordsInv(w.market.tables.history, w.chain)
    && ListingsInv(w.market.tables)
    && PriceInv(w.market.tables)
    && UsersInv(w.market.tables)
    && StackInv(w)
    && IndexInv(w.market)
    && AggregatesInv(w.market)
  }

  // ---------- a record that an accepted request writes ----------

  ghost predicate Fits(t: Tables, r: TradeRecord) {
    && Shape(r) && !r.action.Relist?
    && Fresh(t.history, r.txId.value)
    && r.seller.value in t.users
    && (r.buyer.Some? ==> r.buyer.value in t.users)
    && (if r.action.List? then FitsList(t, r) else FitsListed(t, r))
  }

  ghost predicate FitsList(t: Tables, r: TradeRecord)
    requires Shape(r)
  {
    && r.name !in t.listings
    && ValidatePrice(r.previousPrice.value, r.price.value).Success?
    && Priced(r.previousPrice.value, RecordCount(t.history, r.name))
  }

  ghost predicate FitsListed(t: Tables, r: TradeRecord)
    requires Shape(r)
  {
    && r.name in t.listings
    && BeforeOf(r) == HoldingOf(t.listings, r.name)
    && (r.action.IsExit() ==> r.price == r.previousPrice)
    && (r.action.BuyAndRelist? ==> ValidatePrice(r.previousPrice.value, r.price.value).Success?)
  }

  // The listings after the pending effect of a record that fits.
  ghost function ListingsAfter(listings: map<Name, Listing>, r: TradeRecord, now: int): map<Name, Listing> {
    match r.action
    case List => listings[r.name := RecordListing(r, r.price.GetOr(0), now)]
    case BuyAndRelist =>
      if r.name !in listings then listings
      else listings[r.name := listings[r.name].(
        seller := r.buyer.GetOr(""), price := r.price.GetOr(0), txId := r.txId.GetOr(""))]
    case _ => listings - {r.name}
  }

  // The listings after the rollback of the newest record of a name.
  ghost function ListingsRestored(listings: map<Name, Listing>, r: TradeRecord, now: int): map<Name, Listing> {
    match r.action
    case List => listings - {r.name}
    case BuyAndRelist =>
      if r.name !in listings then listings
      else listings[r.name := listings[r.name].(
        seller := r.seller.GetOr(""), price := r.previousPrice.GetOr(0), txId := r.txId.GetOr(""))]
    case _ => listings[r.name := RecordListing(r, r.previousPrice.GetOr(0), now)]
  }
}
