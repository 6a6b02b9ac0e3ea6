/**
 Handlers of different names interleaved call by call: each handler is the
 sequence of its store calls, and other names' calls may fall between any two.
 The top_earners entry of a seller, which is summed and then written, is the one
 that can suffer.
 */
module Interleaving {
  import opened Domain
  import opened SortedSets
  import opened Rankings
  import opened Tables
  import opened EventHandling
  import opened TradingRules

  // ---------- one store call of a handler ----------

  // `PutRowDeal` re-reads the row and advertises it, if there is one.
  datatype Call =
    | InsertRow(l: Listing)
    | DeleteRow
    | UpdateRow(seller: Address, price: nat, txId: TxId)
    | UpdatePriceRow(price: nat)
    | DropDeal
    | PutDeal(item: ListingItem)
    | PutRowDeal(previous: nat)

  datatype Slots = Slots(listings: map<Name, Listing>, deals: Ranking<ListingItem>)

  function Perform(s: Slots, n: Name, c: Call): Slots {
    match c
    case InsertRow(l) => s.(listings := CreateListing(s.listings, l))
    case DeleteRow => s.(listings := DeleteListing(s.listings, n))
    case UpdateRow(seller, price, txId) => s.(listings := UpdateSellerPriceTx(s.listings, n, seller, price, txId))
    case UpdatePriceRow(price) => s.(listings := UpdatePrice(s.listings, n, price))
    case DropDeal => s.(deals := s.deals.Remove(n))
    case PutDeal(item) => s.(deals := BestDealsAdd(s.deals, item))
    case PutRowDeal(previous) =>
      if n in s.listings then s.(deals := BestDealsAdd(s.deals, ItemOf(s.listings[n], previous))) else s
  }

  function PerformAll(s: Slots, n: Name, calls: seq<Call>): Slots {
    if calls == [] then s else Perform(PerformAll(s, n, calls[..|calls| - 1]), n, calls[|calls| - 1])
  }

  // ---------- the handlers as calls ----------

  function PendingCalls(r: TradeRecord, now: int): seq<Call> {
    match r.action
    case List =>
      if r.price.None? || r.seller.None? then []
      else
        var l := RecordListing(r, r.price.value, now);
        [InsertRow(l), PutDeal(ItemOf(l, r.previousPrice.GetOr(0)))]
    case BuyAndRelist =>
      if r.buyer.None? || r.price.None? then []
      else
        [UpdateRow(r.buyer.value, r.price.value, r.txId.GetOr("")), DropDeal, PutRowDeal(r.previousPrice.GetOr(0))]
    case Delist => [DeleteRow, DropDeal]
    case BuyAndDelist => if r.buyer.None? then [] else [DeleteRow, DropDeal]
    case Relist => []
  }

  function RejectedCalls(r: TradeRecord, now: int): seq<Call> {
    var price := r.previousPrice.GetOr(0);
    match r.action
    case List => [DeleteRow, DropDeal]
    case BuyAndRelist => [UpdateRow(r.seller.GetOr(""), price, r.txId.GetOr("")), DropDeal, PutRowDeal(price)]
    case Relist => []
    case _ =>
      var l := RecordListing(r, price, now);
      [InsertRow(l), PutDeal(ItemOf(l, price))]
  }

  // The base is looked up before the first call.
  function RelistCalls(r: TradeRecord, base: nat): seq<Call> {
    [UpdatePriceRow(r.price.GetOr(0)), PutRowDeal(base)]
  }

  function SlotsOf(m: Market): Slots {
    Slots(m.tables.listings, m.rankings.bestDeals)
  }

  lemma LastCall(s: Slots, n: Name, calls: seq<Call>, c: Call)
    ensures PerformAll(s, n, calls + [c]) == Perform(PerformAll(s, n, calls), n, c)
  {
    assert (calls + [c])[..|calls|] == calls;
  }

  lemma TwoCalls(s: Slots, n: Name, a: Call, b: Call)
    ensures PerformAll(s, n, [a, b]) == Perform(Perform(s, n, a), n, b)
  {
    LastCall(s, n, [], a);
    LastCall(s, n, [a], b);
    assert [] + [a] == [a] && [a] + [b] == [a, b];
  }

  lemma ThreeCalls(s: Slots, n: Name, a: Call, b: Call, c: Call)
    ensures PerformAll(s, n, [a, b, c]) == Perform(Perform(Perform(s, n, a), n, b), n, c)
  {
    TwoCalls(s, n, a, b);
    LastCall(s, n, [a, b], c);
    assert [a, b] + [c] == [a, b, c];
  }

  // A listing written and advertised, one taken out, one rewritten.

  lemma PutIsCalls(m: Market, l: Listing, previous: nat)
    ensures SlotsOf(UpdateListingRankings(
      m.(tables := m.tables.(listings := CreateListing(m.tables.listings, l))), l, previous, true)) ==
      PerformAll(SlotsOf(m), l.name, [InsertRow(l), PutDeal(ItemOf(l, previous))])
  {
    TwoCalls(SlotsOf(m), l.name, InsertRow(l), PutDeal(ItemOf(l, previous)));
  }

  lemma DropIsCalls(m: Market, r: TradeRecord)
    ensures SlotsOf(HandleDelistPending(m, r)) == PerformAll(SlotsOf(m), r.name, [DeleteRow, DropDeal])
  {
    TwoCalls(SlotsOf(m), r.name, DeleteRow, DropDeal);
  }

  lemma ExitSaleIsCalls(m: Market, r: TradeRecord)
    requires r.buyer.Some?
    ensures SlotsOf(HandleBuyAndDelistPending(m, r)) == PerformAll(SlotsOf(m), r.name, [DeleteRow, DropDeal])
  {
    TwoCalls(SlotsOf(m), r.name, DeleteRow, DropDeal);
  }

  lemma SaleIsCalls(m: Market, r: TradeRecord)
    requires r.buyer.Some? && r.price.Some?
    ensures SlotsOf(HandleBuyAndRelistPending(m, r)) == PerformAll(SlotsOf(m), r.name,
      [UpdateRow(r.buyer.value, r.price.value, r.txId.GetOr("")), DropDeal, PutRowDeal(r.previousPrice.GetOr(0))])
  {
    ThreeCalls(SlotsOf(m), r.name,
      UpdateRow(r.buyer.value, r.price.value, r.txId.GetOr("")), DropDeal, PutRowDeal(r.previousPrice.GetOr(0)));
  }

  lemma SaleRollbackIsCalls(m: Market, r: TradeRecord)
    ensures
      var price := r.previousPrice.GetOr(0);
      SlotsOf(HandleBuyAndRelistRejected(m, r)) == PerformAll(SlotsOf(m), r.name,
        [UpdateRow(r.seller.GetOr(""), price, r.txId.GetOr("")), DropDeal, PutRowDeal(price)])
  {
    var price := r.previousPrice.GetOr(0);
    ThreeCalls(SlotsOf(m), r.name,
      UpdateRow(r.seller.GetOr(""), price, r.txId.GetOr("")), DropDeal, PutRowDeal(price));
  }

  // Uninterrupted, the calls do to listings and best_deals what the handler does.
  lemma PendingIsCalls(m: Market, r: TradeRecord, now: int)
    ensures SlotsOf(HandlePending(m, r, now)) == PerformAll(SlotsOf(m), r.name, PendingCalls(r, now))
  {
    match r.action
    case List =>
      if r.price.Some? && r.seller.Some? {
        PutIsCalls(m, RecordListing(r, r.price.value, now), r.previousPrice.GetOr(0));
      }
    case Delist => DropIsCalls(m, r);
    case BuyAndRelist => if r.buyer.Some? && r.price.Some? { SaleIsCalls(m, r); }
    case BuyAndDelist => if r.buyer.Some? { ExitSaleIsCalls(m, r); }
    case Relist =>
  }

  lemma RejectedIsCalls(m: Market, r: TradeRecord, now: int)
    ensures SlotsOf(HandleRejected(m, r, now)) == PerformAll(SlotsOf(m), r.name, RejectedCalls(r, now))
  {
    match r.action
    case List => DropIsCalls(m, r);
    case BuyAndRelist => SaleRollbackIsCalls(m, r);
    case Relist =>
    case _ =>
      var price := r.previousPrice.GetOr(0);
      PutIsCalls(m, RecordListing(r, price, now), price);
  }

  lemma RelistIsCalls(m: Market, r: TradeRecord, base: nat)
    ensures SlotsOf(RelistEffect(m, r, base)) == PerformAll(SlotsOf(m), r.name, RelistCalls(r, base))
  {
    TwoCalls(SlotsOf(m), r.name, UpdatePriceRow(r.price.GetOr(0)), PutRowDeal(base));
  }

  // ---------- what one name sees ----------

  datatype View = View(row: Option<Listing>, deal: Option<ListingItem>)

  ghost function ViewOf(s: Slots, n: Name): View {
    View(
      if n in s.listings then Some(s.listings[n]) else None,
      if n in s.deals.Visible() then Some(s.deals.Visible()[n]) else None)
  }

  ghost function See(v: View, c: Call): View {
    match c
    case InsertRow(l) => if v.row.None? then v.(row := Some(l)) else v
    case DeleteRow => v.(row := None)
    case UpdateRow(seller, price, txId) =>
      if v.row.Some? then v.(row := Some(v.row.value.(seller := seller, price := price, txId := txId))) else v
    case UpdatePriceRow(price) => if v.row.Some? then v.(row := Some(v.row.value.(price := price))) else v
    case DropDeal => v.(deal := None)
    case PutDeal(item) => v.(deal := Some(item))
    case PutRowDeal(previous) => if v.row.Some? then v.(deal := Some(ItemOf(v.row.value, previous))) else v
  }

  ghost function SeeAll(v: View, calls: seq<Call>): View {
    if calls == [] then v else See(SeeAll(v, calls[..|calls| - 1]), calls[|calls| - 1])
  }

  // A call of n's handler speaks of n, and carries a transaction id of n.
  ghost predicate OwnCall(owner: TxId -> Name, n: Name, c: Call) {
    && (c.InsertRow? ==> c.l.name == n && owner(c.l.txId) == n)
    && (c.UpdateRow? ==> owner(c.txId) == n)
    && (c.PutDeal? ==> c.item.name == n)
  }

  // Every row is its name's, and so is its transaction id.
  ghost predicate OwnRows(owner: TxId -> Name, s: Slots) {
    forall n :: n in s.listings ==> s.listings[n].name == n && owner(s.listings[n].txId) == n
  }

  lemma RowsStayOwn(owner: TxId -> Name, s: Slots, n: Name, c: Call)
    requires OwnRows(owner, s) && OwnCall(owner, n, c)
    ensures OwnRows(owner, Perform(s, n, c))
  {
  }

  lemma CallSeesOwn(owner: TxId -> Name, s: Slots, n: Name, c: Call)
    requires OwnRows(owner, s) && OwnCall(owner, n, c)
    ensures ViewOf(Perform(s, n, c), n) == See(ViewOf(s, n), c)
  {
    match c
    case DropDeal => RemoveHides(s.deals, n);
    case PutDeal(item) => AddShows(s.deals, item.discount, n, item);
    case PutRowDeal(previous) =>
      if n in s.listings {
        var item := ItemOf(s.listings[n], previous);
        AddShows(s.deals, item.discount, n, item);
      }
    case _ =>
  }

  lemma CallSparesOthers(owner: TxId -> Name, s: Slots, n: Name, c: Call, other: Name)
    requires OwnRows(owner, s) && OwnCall(owner, n, c) && other != n
    ensures ViewOf(Perform(s, n, c), other) == ViewOf(s, other)
  {
    match c
    case DropDeal => RemoveHides(s.deals, n);
    case PutDeal(item) => AddShows(s.deals, item.discount, n, item);
    case PutRowDeal(previous) =>
      if n in s.listings {
        var item := ItemOf(s.listings[n], previous);
        AddShows(s.deals, item.discount, n, item);
      }
    case _ =>
  }

  // ---------- schedules ----------

  datatype Turn = Turn(name: Name, call: Call)

  function PerformTurns(s: Slots, turns: seq<Turn>): Slots {
    if turns == [] then s
    else Perform(PerformTurns(s, turns[..|turns| - 1]), turns[|turns| - 1].name, turns[|turns| - 1].call)
  }

  function CallsOf(turns: seq<Turn>, n: Name): seq<Call> {
    if turns == [] then []
    else
      CallsOf(turns[..|turns| - 1], n) +
        if turns[|turns| - 1].name == n then [turns[|turns| - 1].call] else []
  }

  ghost predicate OwnTurns(owner: TxId -> Name, turns: seq<Turn>) {
    forall i :: 0 <= i < |turns| ==> OwnCall(owner, turns[i].name, turns[i].call)
  }

  // However the calls of different names interleave, a name ends with the
  // listing and the best deal that its own calls give it, in their order.
  lemma {:induction false} EachNameAlone(owner: TxId -> Name, s: Slots, turns: seq<Turn>, n: Name)
    requires OwnRows(owner, s) && OwnTurns(owner, turns)
    ensures OwnRows(owner, PerformTurns(s, turns))
    ensures ViewOf(PerformTurns(s, turns), n) == SeeAll(ViewOf(s, n), CallsOf(turns, n))
  {
    if turns != [] {
      var before, last := turns[..|turns| - 1], turns[|turns| - 1];
      EachNameAlone(owner, s, before, n);
      var s1 := PerformTurns(s, before);
      RowsStayOwn(owner, s1, last.name, last.call);
      if last.name == n {
        CallSeesOwn(owner, s1, n, last.call);
        var calls := CallsOf(before, n);
        assert (calls + [last.call])[..|calls|] == calls;
      } else {
        CallSparesOthers(owner, s1, last.name, last.call, n);
        assert CallsOf(turns, n) == CallsOf(before, n);
      }
    }
  }

  // Two schedules with the same calls name by name, such as an interleaving
  // and one handler after the other, show every name the same.
  lemma InterleavingIsSerial(owner: TxId -> Name, s: Slots, turns: seq<Turn>, serial: seq<Turn>, n: Name)
    requires OwnRows(owner, s) && OwnTurns(owner, turns) && OwnTurns(owner, serial)
    requires CallsOf(turns, n) == CallsOf(serial, n)
    ensures ViewOf(PerformTurns(s, turns), n) == ViewOf(PerformTurns(s, serial), n)
  {
    EachNameAlone(owner, s, turns, n);
    EachNameAlone(owner, s, serial, n);
  }

  // ---------- the race on top_earners ----------

  // The sales of one seller, by any number of handlers: records are added, or
  // dropped again when the canister refuses, sums read, scores written.
  datatype Sale = AddSale(r: TradeRecord) | DropSale(txId: TxId) | ReadSum(handler: nat) | WriteScore(handler: nat)

  datatype Earner = Earner(history: seq<TradeRecord>, sums: map<nat, int>, score: Option<int>)

  function EarnerStep(e: Earner, seller: Address, s: Sale): Earner {
    match s
    case AddSale(r) => e.(history := AddRecord(e.history, r))
    case DropSale(txId) => e.(history := DelRecord(e.history, txId))
    case ReadSum(handler) => e.(sums := e.sums[handler := Earned(e.history, seller)])
    case WriteScore(handler) => if handler in e.sums then e.(score := Some(e.sums[handler])) else e
  }

  function EarnerRun(e: Earner, seller: Address, steps: seq<Sale>): Earner {
    if steps == [] then e else EarnerStep(EarnerRun(e, seller, steps[..|steps| - 1]), seller, steps[|steps| - 1])
  }

  // What the stores say of one seller; `sums` is what handlers have read.
  ghost function EarnerOf(m: Market, seller: Address, sums: map<nat, int>): Earner {
    var scores := Scores(m.rankings.topEarners.zset);
    Earner(m.tables.history, sums, if seller in scores then Some(scores[seller]) else None)
  }

  lemma OneSale(e: Earner, seller: Address, steps: seq<Sale>, s: Sale)
    ensures EarnerRun(e, seller, steps + [s]) == EarnerStep(EarnerRun(e, seller, steps), seller, s)
  {
    assert (steps + [s])[..|steps|] == steps;
  }

  lemma ThreeSales(e: Earner, seller: Address, a: Sale, b: Sale, c: Sale)
    ensures EarnerRun(e, seller, [a, b]) == EarnerStep(EarnerStep(e, seller, a), seller, b)
    ensures EarnerRun(e, seller, [a, b, c]) == EarnerStep(EarnerStep(EarnerStep(e, seller, a), seller, b), seller, c)
  {
    OneSale(e, seller, [], a);
    OneSale(e, seller, [a], b);
    OneSale(e, seller, [a, b], c);
    assert [] + [a] == [a] && [a] + [b] == [a, b] && [a, b] + [c] == [a, b, c];
  }

  // A handler reads the sum and writes it as the score of the seller, and of
  // no one else.
  lemma RankingIsSales(m: Market, sold: Listing, buyer: Address, sums: map<nat, int>, handler: nat)
    ensures
      var m', seller := UpdateSaleRankings(m, sold, buyer), sold.seller;
      && EarnerOf(m', seller, sums[handler := Earned(m.tables.history, seller)]) ==
           EarnerRun(EarnerOf(m, seller, sums), seller, [ReadSum(handler), WriteScore(handler)])
      && forall other :: other != seller ==> EarnerOf(m', other, sums) == EarnerOf(m, other, sums)
  {
    ThreeSales(
      EarnerOf(m, sold.seller, sums), sold.seller, ReadSum(handler), WriteScore(handler), WriteScore(handler));
  }

  // The rest of a purchase leaves the history and the earners alone.
  ghost predicate EarnersRanked(m: Market, m': Market, sold: Listing, buyer: Address) {
    && m'.tables.history == m.tables.history
    && m'.rankings.topEarners == UpdateSaleRankings(m, sold, buyer).rankings.topEarners
  }

  lemma RelistedEarners(m: Market, r: TradeRecord)
    requires r.buyer.Some? && r.price.Some? && r.name in m.tables.listings
    ensures EarnersRanked(m, HandleBuyAndRelistPending(m, r), m.tables.listings[r.name], r.buyer.value)
  {
  }

  lemma ExitedEarners(m: Market, r: TradeRecord)
    requires r.buyer.Some? && r.name in m.tables.listings
    ensures EarnersRanked(m, HandleBuyAndDelistPending(m, r), m.tables.listings[r.name], r.buyer.value)
  {
  }

  lemma PendingEarners(m: Market, r: TradeRecord, now: int)
    requires r.action.IsBuy() && r.buyer.Some? && r.price.Some? && r.name in m.tables.listings
    ensures EarnersRanked(m, HandlePending(m, r, now), m.tables.listings[r.name], r.buyer.value)
  {
    if r.action.BuyAndRelist? { RelistedEarners(m, r); } else { ExitedEarners(m, r); }
  }

  // A submitted purchase adds its record, reads the sum and writes the score;
  // a refused one adds its record and drops it.
  lemma PurchaseIsSales(m: Market, r: TradeRecord, e: Env, sums: map<nat, int>, handler: nat)
    requires r.action.IsBuy() && r.buyer.Some? && r.price.Some? && r.name in m.tables.listings
    ensures
      var seller, h := m.tables.listings[r.name].seller, AddRecord(m.tables.history, r);
      if e.invokeOk then
        EarnerOf(Submit(m, r, e), seller, sums[handler := Earned(h, seller)]) ==
          EarnerRun(EarnerOf(m, seller, sums), seller, [AddSale(r), ReadSum(handler), WriteScore(handler)])
      else
        EarnerOf(Submit(m, r, e), seller, sums) ==
          EarnerRun(EarnerOf(m, seller, sums), seller, [AddSale(r), DropSale(r.txId.GetOr(""))])
  {
    var m1 := m.(tables := m.tables.(history := AddRecord(m.tables.history, r)));
    var sold := m.tables.listings[r.name];
    var start := EarnerOf(m, sold.seller, sums);
    ThreeSales(start, sold.seller, AddSale(r), ReadSum(handler), WriteScore(handler));
    ThreeSales(start, sold.seller, AddSale(r), DropSale(r.txId.GetOr("")), WriteScore(handler));
    if e.invokeOk {
      PendingEarners(m1, r, e.now);
      RankingIsSales(m1, sold, r.buyer.value, sums, handler);
      ThreeSales(
        EarnerOf(m1, sold.seller, sums), sold.seller, ReadSum(handler), WriteScore(handler), WriteScore(handler));
    }
  }

  // ---------- what a schedule brings the seller ----------

  function OfTx(h: seq<TradeRecord>, txId: TxId): seq<TradeRecord> {
    if h == [] then []
    else
      var rest, last := h[..|h| - 1], h[|h| - 1];
      OfTx(rest, txId) + if last.txId == Some(txId) then [last] else []
  }

  lemma EarnedSnoc(h: seq<TradeRecord>, r: TradeRecord, seller: Address)
    ensures Earned(h + [r], seller) == Earned(h, seller) + Earned([r], seller)
  {
    assert (h + [r])[..|h|] == h;
    assert [r][..0] == [];
  }

  lemma {:induction false} EarnedSplit(h: seq<TradeRecord>, txId: TxId, seller: Address)
    ensures Earned(h, seller) == Earned(DelRecord(h, txId), seller) + Earned(OfTx(h, txId), seller)
  {
    if h != [] {
      var rest, last := h[..|h| - 1], h[|h| - 1];
      Unsnoc(h);
      EarnedSplit(rest, txId, seller);
      EarnedSnoc(rest, last, seller);
      if last.txId == Some(txId) {
        assert DelRecord(h, txId) == DelRecord(rest, txId) + [] == DelRecord(rest, txId);
        assert OfTx(h, txId) == OfTx(rest, txId) + [last];
        EarnedSnoc(OfTx(rest, txId), last, seller);
      } else {
        assert DelRecord(h, txId) == DelRecord(rest, txId) + [last];
        assert OfTx(h, txId) == OfTx(rest, txId) + [] == OfTx(rest, txId);
        EarnedSnoc(DelRecord(rest, txId), last, seller);
      }
    }
  }

  // The profit of the records added, less that of the records dropped.
  function Gain(e: Earner, seller: Address, steps: seq<Sale>): int {
    if steps == [] then 0
    else
      var rest := steps[..|steps| - 1];
      Gain(e, seller, rest) +
        match steps[|steps| - 1]
        case AddSale(r) => Earned([r], seller)
        case DropSale(txId) => -Earned(OfTx(EarnerRun(e, seller, rest).history, txId), seller)
        case _ => 0
  }

  lemma {:induction false} GainIs(e: Earner, seller: Address, steps: seq<Sale>)
    ensures Earned(EarnerRun(e, seller, steps).history, seller) == Earned(e.history, seller) + Gain(e, seller, steps)
  {
    if steps != [] {
      var rest := steps[..|steps| - 1];
      var h := EarnerRun(e, seller, rest).history;
      GainIs(e, seller, rest);
      match steps[|steps| - 1]
      case AddSale(r) => EarnedSnoc(h, r, seller);
      case DropSale(txId) => EarnedSplit(h, txId, seller);
      case _ =>
    }
  }

  // Without a read by the handler its sum stays.
  lemma {:induction false} SumStays(e: Earner, seller: Address, steps: seq<Sale>, handler: nat)
    requires handler in e.sums && forall i :: 0 <= i < |steps| ==> steps[i] != ReadSum(handler)
    ensures
      var e' := EarnerRun(e, seller, steps);
      handler in e'.sums && e'.sums[handler] == e.sums[handler]
  {
    if steps != [] { SumStays(e, seller, steps[..|steps| - 1], handler); }
  }

  // The handler that writes last leaves the right score if and only if what was
  // recorded and dropped after it had read the sum brings the seller nothing.
  lemma EarnerRaceIff(e: Earner, seller: Address, between: seq<Sale>, handler: nat)
    requires forall i :: 0 <= i < |between| ==> between[i] != ReadSum(handler)
    ensures
      var read := EarnerStep(e, seller, ReadSum(handler));
      var written := EarnerStep(EarnerRun(read, seller, between), seller, WriteScore(handler));
      written.score == Some(Earned(written.history, seller)) <==> Gain(read, seller, between) == 0
  {
    var read := EarnerStep(e, seller, ReadSum(handler));
    SumStays(read, seller, between, handler);
    GainIs(read, seller, between);
  }
}
