/**
 The delta streams of best deals, most traded names and top earners: what a
 subscriber who folds the broadcast deltas over an earlier snapshot holds.
 */
module DealStream {
  import opened Domain
  import opened Rankings
  import opened Tables
  import opened EventHandling
  import opened TradingRules
  import opened Runs

  // What a subscriber of all three channels holds.
  datatype Board = Board(
    deals: map<string, ListingItem>, traded: map<string, MostTradedItem>, earners: map<string, TopEarnerItem>)

  ghost function BoardOf(m: Market): Board {
    Board(
      m.rankings.bestDeals.Visible(), m.rankings.mostTraded.Visible(), m.rankings.topEarners.Visible())
  }

  function ApplyEvent(b: Board, e: BroadcastEvent): Board {
    match e
    case BestDeal(item) => b.(deals := b.deals[item.name := item])
    case RemoveBestDeal(name) => b.(deals := b.deals - {name})
    case MostTraded(item) => b.(traded := b.traded[item.name := item])
    case TopEarner(item) => b.(earners := b.earners[item.address := item])
    case _ => b
  }

  function FoldEvents(b: Board, events: seq<BroadcastEvent>): Board {
    if events == [] then b
    else ApplyEvent(FoldEvents(b, events[..|events| - 1]), events[|events| - 1])
  }

  lemma {:induction false} FoldEventsConcat(board: Board, a: seq<BroadcastEvent>, b: seq<BroadcastEvent>)
    ensures FoldEvents(board, a + b) == FoldEvents(FoldEvents(board, a), b)
    decreases |b|
  {
    if b == [] {
      assert a + b == a;
    } else {
      var rest := b[..|b| - 1];
      assert (a + b)[..|a + b| - 1] == a + rest;
      FoldEventsConcat(board, a, rest);
    }
  }

  // Events of the other channels.
  ghost predicate Quiet(events: seq<BroadcastEvent>) {
    forall e :: e in events ==> !e.BestDeal? && !e.RemoveBestDeal? && !e.MostTraded? && !e.TopEarner?
  }

  lemma {:induction false} FoldQuiet(board: Board, events: seq<BroadcastEvent>)
    requires Quiet(events)
    ensures FoldEvents(board, events) == board
  {
    if events != [] { FoldQuiet(board, events[..|events| - 1]); }
  }

  lemma FoldLast(board: Board, events: seq<BroadcastEvent>, e: BroadcastEvent)
    requires Quiet(events)
    ensures FoldEvents(board, events + [e]) == ApplyEvent(board, e)
  {
    FoldQuiet(board, events);
    assert (events + [e])[..|events|] == events;
  }

  // m' extends the broadcasts of m, and its deals are those of m with the new
  // broadcasts folded in.
  ghost predicate Streams(m: Market, m': Market) {
    && m.events <= m'.events
    && BoardOf(m') == FoldEvents(BoardOf(m), m'.events[|m.events|..])
  }

  lemma ThenStreams(a: Market, b: Market, c: Market)
    requires Streams(a, b) && Streams(b, c)
    ensures Streams(a, c)
  {
    FoldEventsConcat(BoardOf(a), b.events[|a.events|..], c.events[|b.events|..]);
    assert c.events[|a.events|..] == b.events[|a.events|..] + c.events[|b.events|..];
  }

  lemma SentStreams(m: Market, m': Market, sent: seq<BroadcastEvent>)
    requires m'.events == m.events + sent
    requires BoardOf(m') == FoldEvents(BoardOf(m), sent)
    ensures Streams(m, m')
  {
    assert m'.events[|m.events|..] == sent;
  }

  lemma UpdateStreams(m: Market, l: Listing, previous: nat, isNew: bool)
    ensures Streams(m, UpdateListingRankings(m, l, previous, isNew))
  {
    var item := ItemOf(l, previous);
    var quiet := if isNew then [NewListing(item)] else [];
    var m' := UpdateListingRankings(m, l, previous, isNew);
    AddShows(m.rankings.bestDeals, item.discount, item.name, item);
    FoldLast(BoardOf(m), quiet, BestDeal(item));
    assert m'.events == m.events + (quiet + [BestDeal(item)]);
    SentStreams(m, m', quiet + [BestDeal(item)]);
  }

  lemma RemoveStreams(m: Market, n: Name)
    ensures Streams(m, RemoveListingRankings(m, n))
  {
    RemoveHides(m.rankings.bestDeals, n);
    FoldLast(BoardOf(m), [RemoveNewListing(n)], RemoveBestDeal(n));
    assert [RemoveNewListing(n)] + [RemoveBestDeal(n)] == [RemoveNewListing(n), RemoveBestDeal(n)];
    SentStreams(m, RemoveListingRankings(m, n), [RemoveNewListing(n), RemoveBestDeal(n)]);
  }

  ghost predicate SameBoards(m: Market, m': Market) {
    && m'.rankings.bestDeals == m.rankings.bestDeals
    && m'.rankings.mostTraded == m.rankings.mostTraded && m'.rankings.topEarners == m.rankings.topEarners
  }

  // Only events of other channels are sent.
  lemma QuietStreams(m: Market, m': Market, sent: seq<BroadcastEvent>)
    requires m'.events == m.events + sent && Quiet(sent) && SameBoards(m, m')
    ensures Streams(m, m')
  {
    FoldQuiet(BoardOf(m), sent);
    SentStreams(m, m', sent);
  }

  lemma SaleStreams(m: Market, sold: Listing, buyer: Address)
    ensures Streams(m, UpdateSaleRankings(m, sold, buyer))
  {
    var traded, earner := SaleItem(m.tables, sold, buyer), EarnerItem(m.tables, sold.seller);
    var first, second := [RecentSale(sold.name), MostTraded(traded)], [TopSale(sold.name), TopEarner(earner)];
    var m1 := m.(
      rankings := m.rankings.(mostTraded := MostTradedAdd(m.rankings.mostTraded, traded)), events := m.events + first);
    var m2 := UpdateSaleRankings(m, sold, buyer);
    AddShows(m.rankings.mostTraded, traded.tradeCount, traded.name, traded);
    FoldLast(BoardOf(m), [RecentSale(sold.name)], MostTraded(traded));
    assert [RecentSale(sold.name)] + [MostTraded(traded)] == first;
    SentStreams(m, m1, first);
    AddShows(m1.rankings.topEarners, earner.profit, earner.address, earner);
    FoldLast(BoardOf(m1), [TopSale(sold.name)], TopEarner(earner));
    assert [TopSale(sold.name)] + [TopEarner(earner)] == second;
    assert m2.events == m1.events + second;
    SentStreams(m1, m2, second);
    ThenStreams(m, m1, m2);
  }

  lemma StillStreams(m: Market, m': Market)
    requires m'.events == m.events && SameBoards(m, m')
    ensures Streams(m, m')
  {
    assert m'.events == m.events + [];
    QuietStreams(m, m', []);
  }

  lemma PendingStreams(m: Market, r: TradeRecord, now: int)
    ensures Streams(m, HandlePending(m, r, now))
  {
    match r.action
    case List => ListStreams(m, r, now);
    case Delist => ExitStreams(m, r);
    case BuyAndRelist => BuyAndRelistStreams(m, r);
    case BuyAndDelist => BuyAndDelistStreams(m, r);
    case Relist => StillStreams(m, m);
  }

  lemma ListStreams(m: Market, r: TradeRecord, now: int)
    ensures Streams(m, HandleListPending(m, r, now))
  {
    if r.price.None? || r.seller.None? {
      StillStreams(m, m);
    } else {
      var l := RecordListing(r, r.price.value, now);
      var m1 := m.(tables := m.tables.(listings := CreateListing(m.tables.listings, l)));
      StillStreams(m, m1);
      UpdateStreams(m1, l, r.previousPrice.GetOr(0), true);
      ThenStreams(m, m1, HandleListPending(m, r, now));
    }
  }

  lemma ExitStreams(m: Market, r: TradeRecord)
    ensures Streams(m, HandleDelistPending(m, r))
  {
    var m1 := m.(tables := m.tables.(listings := DeleteListing(m.tables.listings, r.name)));
    StillStreams(m, m1);
    RemoveStreams(m1, r.name);
    ThenStreams(m, m1, HandleDelistPending(m, r));
  }

  lemma BuyAndRelistStreams(m: Market, r: TradeRecord)
    ensures Streams(m, HandleBuyAndRelistPending(m, r))
  {
    if r.buyer.None? || r.price.None? {
      StillStreams(m, m);
    } else {
      var name, before := r.name, m.tables.listings;
      var m1 := m.(tables := m.tables.(listings :=
        UpdateSellerPriceTx(before, name, r.buyer.value, r.price.value, r.txId.GetOr(""))));
      StillStreams(m, m1);
      var m2 := if name in before then UpdateSaleRankings(m1, before[name], r.buyer.value) else m1;
      if name in before { SaleStreams(m1, before[name], r.buyer.value); } else { StillStreams(m1, m2); }
      ThenStreams(m, m1, m2);
      var m3 := RemoveListingRankings(m2, name);
      RemoveStreams(m2, name);
      ThenStreams(m, m2, m3);
      RelistingStreams(m, m3, name, r.previousPrice.GetOr(0), false);
      var m4 := Relisting(m3, name, r.previousPrice.GetOr(0), false);
      var m5 := m4.(tables := AddSellerPoints(m4.tables, r));
      StillStreams(m4, m5);
      ThenStreams(m, m4, m5);
      assert m5 == HandleBuyAndRelistPending(m, r);
    }
  }

  // Re-read the listing and rank it again if it is there.
  ghost function Relisting(m: Market, name: Name, previous: nat, isNew: bool): Market {
    if name in m.tables.listings then UpdateListingRankings(m, m.tables.listings[name], previous, isNew) else m
  }

  lemma RelistingStreams(a: Market, m: Market, name: Name, previous: nat, isNew: bool)
    requires Streams(a, m)
    ensures Streams(a, Relisting(m, name, previous, isNew))
  {
    if name in m.tables.listings {
      UpdateStreams(m, m.tables.listings[name], previous, isNew);
      ThenStreams(a, m, Relisting(m, name, previous, isNew));
    }
  }

  lemma BuyAndDelistStreams(m: Market, r: TradeRecord)
    ensures Streams(m, HandleBuyAndDelistPending(m, r))
  {
    if r.buyer.None? {
      StillStreams(m, m);
    } else {
      var name, before := r.name, m.tables.listings;
      var m1 := if name in before then UpdateSaleRankings(m, before[name], r.buyer.value) else m;
      if name in before { SaleStreams(m, before[name], r.buyer.value); } else { StillStreams(m, m1); }
      var m2 := m1.(tables := m1.tables.(listings := DeleteListing(before, name)));
      StillStreams(m1, m2);
      ThenStreams(m, m1, m2);
      var m3 := RemoveListingRankings(m2, name);
      RemoveStreams(m2, name);
      ThenStreams(m, m2, m3);
      var m4 := m3.(tables := AddSellerPoints(m3.tables, r));
      StillStreams(m3, m4);
      ThenStreams(m, m3, m4);
      assert m4 == HandleBuyAndDelistPending(m, r);
    }
  }

  lemma RejectedStreams(m: Market, r: TradeRecord, now: int)
    ensures Streams(m, HandleRejected(m, r, now))
  {
    if r.action.List? {
      ExitStreams(m, r);
    } else if r.action.BuyAndRelist? {
      var price := r.previousPrice.GetOr(0);
      var m1 := m.(tables := m.tables.(listings :=
        UpdateSellerPriceTx(m.tables.listings, r.name, r.seller.GetOr(""), price, r.txId.GetOr(""))));
      StillStreams(m, m1);
      var m2 := RemoveListingRankings(m1, r.name);
      RemoveStreams(m1, r.name);
      ThenStreams(m, m1, m2);
      RelistingStreams(m, m2, r.name, price, true);
      var m3 := Relisting(m2, r.name, price, true);
      var m4 := m3.(events := m3.events + [RemoveNewListing(r.name)]);
      QuietStreams(m3, m4, [RemoveNewListing(r.name)]);
      ThenStreams(m, m3, m4);
      assert m4 == HandleBuyAndRelistRejected(m, r);
    } else if r.action.Relist? {
      StillStreams(m, m);
    } else {
      var price := r.previousPrice.GetOr(0);
      var l := RecordListing(r, price, now);
      var m1 := m.(tables := m.tables.(listings := CreateListing(m.tables.listings, l)));
      StillStreams(m, m1);
      UpdateStreams(m1, l, price, true);
      ThenStreams(m, m1, HandleExitRejected(m, r, now));
    }
  }

  lemma TradeStreams(m: Market, s: Step)
    requires s.TradeStep?
    ensures Streams(m, Effect(m, s))
  {
    var checked := Check(m.tables, s.action, s.q, s.e);
    if checked.Failure? {
      StillStreams(m, Effect(m, s));
    } else {
      var r := checked.value;
      var m1 := m.(tables := m.tables.(history := AddRecord(m.tables.history, r)));
      StillStreams(m, m1);
      if s.e.invokeOk { PendingStreams(m1, r, s.e.now); } else { StillStreams(m1, Submit(m, r, s.e)); }
      ThenStreams(m, m1, Submit(m, r, s.e));
    }
  }

  lemma OtherStreams(m: Market, s: Step)
    requires !s.TradeStep?
    ensures Streams(m, Effect(m, s))
  {
    match s
    case RelistStep(caller, name, price, e) =>
      var checked := CheckRelist(m.tables, caller, name, price, e);
      if checked.Failure? {
        StillStreams(m, Effect(m, s));
      } else {
        var r, base := checked.value, PreviousPrice(m.tables, name, e).GetOr(m.tables.listings[name].price);
        var m1 := m.(tables := m.tables.(
          history := AddRecord(m.tables.history, r),
          listings := UpdatePrice(m.tables.listings, r.name, r.price.GetOr(0))));
        StillStreams(m, m1);
        RelistingStreams(m, m1, r.name, base, false);
      }
    case StatusStep(txId, status, now) =>
      if NewStatus(status).None? {
        StillStreams(m, Effect(m, s));
      } else {
        var m1 := m.(tables := m.tables.(history := SetStatus(m.tables.history, txId, NewStatus(status).value)));
        StillStreams(m, m1);
        var row := Lookup(m1.tables.history, txId);
        if status.ReeRejected? && row.Some? {
          RejectedStreams(m1, row.value, now);
          ThenStreams(m, m1, Effect(m, s));
        }
      }
    case _ => StillStreams(m, Effect(m, s));
  }

  lemma EffectStreams(m: Market, s: Step)
    ensures Streams(m, Effect(m, s))
  {
    if s.TradeStep? { TradeStreams(m, s); } else { OtherStreams(m, s); }
  }

  lemma {:induction false} StreamChain(markets: seq<Market>, i: nat, j: nat)
    requires i <= j < |markets|
    requires forall k :: 0 <= k < |markets| - 1 ==> Streams(markets[k], markets[k + 1])
    ensures Streams(markets[i], markets[j])
    decreases j
  {
    if i == j {
      StillStreams(markets[i], markets[j]);
    } else {
      StreamChain(markets, i, j - 1);
      assert Streams(markets[j - 1], markets[j - 1 + 1]);
      ThenStreams(markets[i], markets[j - 1], markets[j]);
    }
  }

  // Folding the deltas broadcast since any earlier moment of a run over the best
  // deals, most traded names and top earners of that moment gives those of now.
  lemma DeltasReproduceDeals(worlds: seq<World>, steps: seq<Step>, i: nat, j: nat)
    requires IsRun(worlds, steps) && i <= j < |worlds|
    ensures
      var a, b := worlds[i].market, worlds[j].market;
      && a.events <= b.events
      && BoardOf(b) == FoldEvents(BoardOf(a), b.events[|a.events|..])
  {
    var markets := seq(|worlds|, k requires 0 <= k < |worlds| => worlds[k].market);
    forall k | 0 <= k < |markets| - 1 ensures Streams(markets[k], markets[k + 1]) {
      EffectStreams(worlds[k].market, steps[k]);
    }
    StreamChain(markets, i, j);
  }
}
