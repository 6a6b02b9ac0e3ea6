/**
 The new-listings delta stream: as long as no purchase is rejected, a subscriber
 shows every new listing that Redis shows, as Redis shows it.
 */
module NewListingStream {
  import opened Domain
  import opened Rankings
  import opened Tables
  import opened EventHandling
  import opened TradingRules
  import opened Runs
  import opened RollbackLimits

  ghost predicate Covers(shown: map<string, ListingItem>, r: Ranking<ListingItem>) {
    forall n :: n in r.Visible() ==> n in shown && shown[n] == r.Visible()[n]
  }

  // m' extends the broadcasts of m, and a subscriber who covered the new
  // listings of m covers those of m' with the new broadcasts folded in.
  ghost predicate Carries(m: Market, m': Market) {
    && m.events <= m'.events
    && forall shown :: Covers(shown, m.rankings.newListings) ==>
         Covers(FoldNew(shown, m'.events[|m.events|..]), m'.rankings.newListings)
  }

  lemma {:induction false} FoldNewConcat(
    shown: map<string, ListingItem>, a: seq<BroadcastEvent>, b: seq<BroadcastEvent>)
    ensures FoldNew(shown, a + b) == FoldNew(FoldNew(shown, a), b)
    decreases |b|
  {
    if b == [] {
      assert a + b == a;
    } else {
      assert (a + b)[..|a + b| - 1] == a + b[..|b| - 1];
      FoldNewConcat(shown, a, b[..|b| - 1]);
    }
  }

  lemma ThenCarries(a: Market, b: Market, c: Market)
    requires Carries(a, b) && Carries(b, c)
    ensures Carries(a, c)
  {
    assert c.events[|a.events|..] == b.events[|a.events|..] + c.events[|b.events|..];
    forall shown | Covers(shown, a.rankings.newListings)
      ensures Covers(FoldNew(shown, c.events[|a.events|..]), c.rankings.newListings)
    {
      FoldNewConcat(shown, b.events[|a.events|..], c.events[|b.events|..]);
    }
  }

  ghost predicate QuietNew(events: seq<BroadcastEvent>) {
    forall e :: e in events ==> !e.NewListing? && !e.RemoveNewListing?
  }

  lemma {:induction false} FoldQuietNew(shown: map<string, ListingItem>, events: seq<BroadcastEvent>)
    requires QuietNew(events)
    ensures FoldNew(shown, events) == shown
  {
    if events != [] { FoldQuietNew(shown, events[..|events| - 1]); }
  }

  // Only events of other channels are sent.
  lemma QuietCarries(m: Market, m': Market, sent: seq<BroadcastEvent>)
    requires m'.events == m.events + sent && QuietNew(sent) && m'.rankings.newListings == m.rankings.newListings
    ensures Carries(m, m')
  {
    assert m'.events[|m.events|..] == sent;
    forall shown ensures FoldNew(shown, sent) == shown { FoldQuietNew(shown, sent); }
  }

  lemma StillCarries(m: Market, m': Market)
    requires m'.events == m.events && m'.rankings.newListings == m.rankings.newListings
    ensures Carries(m, m')
  {
    assert m'.events == m.events + [];
    QuietCarries(m, m', []);
  }

  lemma OneEvent(shown: map<string, ListingItem>, e: BroadcastEvent)
    ensures FoldNew(shown, [e]) == ApplyNew(shown, e)
  {
    var s := [e];
    assert s[..|s| - 1] == [];
    assert FoldNew(shown, s[..|s| - 1]) == shown;
  }

  lemma FirstThenQuiet(shown: map<string, ListingItem>, e: BroadcastEvent, other: BroadcastEvent)
    requires !other.NewListing? && !other.RemoveNewListing?
    ensures FoldNew(shown, [e, other]) == ApplyNew(shown, e)
  {
    assert [e] + [other] == [e, other];
    FoldNewConcat(shown, [e], [other]);
    OneEvent(shown, e);
    OneEvent(ApplyNew(shown, e), other);
  }

  // ---------- the ranking helpers ----------

  lemma NewCovered(shown: map<string, ListingItem>, r: Ranking<ListingItem>, item: ListingItem)
    requires Covers(shown, r)
    ensures Covers(shown[item.name := item], NewListingsAdd(r, item))
  {
    AddShows(r, item.listedAt, item.name, item);
  }

  lemma RemovedCovered(shown: map<string, ListingItem>, r: Ranking<ListingItem>, n: Name)
    requires Covers(shown, r)
    ensures Covers(shown - {n}, r.Remove(n))
  {
    RemoveHides(r, n);
  }

  lemma UpdateCarries(m: Market, l: Listing, previous: nat, isNew: bool)
    ensures Carries(m, UpdateListingRankings(m, l, previous, isNew))
  {
    var item, m' := ItemOf(l, previous), UpdateListingRankings(m, l, previous, isNew);
    if isNew {
      assert [NewListing(item)] + [BestDeal(item)] == [NewListing(item), BestDeal(item)];
      assert m'.events[|m.events|..] == [NewListing(item), BestDeal(item)];
      forall shown | Covers(shown, m.rankings.newListings)
        ensures Covers(FoldNew(shown, m'.events[|m.events|..]), m'.rankings.newListings)
      {
        FirstThenQuiet(shown, NewListing(item), BestDeal(item));
        NewCovered(shown, m.rankings.newListings, item);
      }
    } else {
      assert [] + [BestDeal(item)] == [BestDeal(item)];
      QuietCarries(m, m', [BestDeal(item)]);
    }
  }

  lemma RemoveCarries(m: Market, n: Name)
    ensures Carries(m, RemoveListingRankings(m, n))
  {
    var m' := RemoveListingRankings(m, n);
    assert m'.events[|m.events|..] == [RemoveNewListing(n), RemoveBestDeal(n)];
    forall shown | Covers(shown, m.rankings.newListings)
      ensures Covers(FoldNew(shown, m'.events[|m.events|..]), m'.rankings.newListings)
    {
      FirstThenQuiet(shown, RemoveNewListing(n), RemoveBestDeal(n));
      RemovedCovered(shown, m.rankings.newListings, n);
    }
  }

  lemma SaleCarries(m: Market, sold: Listing, buyer: Address)
    ensures Carries(m, UpdateSaleRankings(m, sold, buyer))
  {
    var traded, earner := SaleItem(m.tables, sold, buyer), EarnerItem(m.tables, sold.seller);
    QuietCarries(m, UpdateSaleRankings(m, sold, buyer),
      [RecentSale(sold.name), MostTraded(traded), TopSale(sold.name), TopEarner(earner)]);
  }

  // ---------- the handlers ----------

  lemma PutCarries(m: Market, l: Listing, previous: nat)
    ensures Carries(m, UpdateListingRankings(
      m.(tables := m.tables.(listings := CreateListing(m.tables.listings, l))), l, previous, true))
  {
    var m1 := m.(tables := m.tables.(listings := CreateListing(m.tables.listings, l)));
    StillCarries(m, m1);
    UpdateCarries(m1, l, previous, true);
    ThenCarries(m, m1, UpdateListingRankings(m1, l, previous, true));
  }

  lemma DropCarries(m: Market, r: TradeRecord)
    ensures Carries(m, HandleDelistPending(m, r))
  {
    var m1 := m.(tables := m.tables.(listings := DeleteListing(m.tables.listings, r.name)));
    StillCarries(m, m1);
    RemoveCarries(m1, r.name);
    ThenCarries(m, m1, HandleDelistPending(m, r));
  }

  lemma ExitSaleCarries(m: Market, r: TradeRecord)
    requires r.buyer.Some?
    ensures Carries(m, HandleBuyAndDelistPending(m, r))
  {
    var name, before := r.name, m.tables.listings;
    var m1 := if name in before then UpdateSaleRankings(m, before[name], r.buyer.value) else m;
    if name in before { SaleCarries(m, before[name], r.buyer.value); } else { StillCarries(m, m1); }
    var m2 := m1.(tables := m1.tables.(listings := DeleteListing(before, name)));
    StillCarries(m1, m2);
    ThenCarries(m, m1, m2);
    var m3 := RemoveListingRankings(m2, name);
    RemoveCarries(m2, name);
    ThenCarries(m, m2, m3);
    StillCarries(m3, HandleBuyAndDelistPending(m, r));
    ThenCarries(m, m3, HandleBuyAndDelistPending(m, r));
  }

  lemma SaleBoughtCarries(m: Market, r: TradeRecord)
    requires r.buyer.Some? && r.price.Some?
    ensures Carries(m, HandleBuyAndRelistPending(m, r))
  {
    var name, before := r.name, m.tables.listings;
    var m1 := m.(tables := m.tables.(listings :=
      UpdateSellerPriceTx(before, name, r.buyer.value, r.price.value, r.txId.GetOr(""))));
    StillCarries(m, m1);
    var m2 := if name in before then UpdateSaleRankings(m1, before[name], r.buyer.value) else m1;
    if name in before { SaleCarries(m1, before[name], r.buyer.value); } else { StillCarries(m1, m2); }
    ThenCarries(m, m1, m2);
    var m3 := RemoveListingRankings(m2, name);
    RemoveCarries(m2, name);
    ThenCarries(m, m2, m3);
    var m4 := if name in m3.tables.listings
      then UpdateListingRankings(m3, m3.tables.listings[name], r.previousPrice.GetOr(0), false) else m3;
    if name in m3.tables.listings {
      UpdateCarries(m3, m3.tables.listings[name], r.previousPrice.GetOr(0), false);
    } else {
      StillCarries(m3, m4);
    }
    ThenCarries(m, m3, m4);
    StillCarries(m4, HandleBuyAndRelistPending(m, r));
    ThenCarries(m, m4, HandleBuyAndRelistPending(m, r));
  }

  lemma PendingCarries(m: Market, r: TradeRecord, now: int)
    ensures Carries(m, HandlePending(m, r, now))
  {
    match r.action
    case List =>
      if r.price.Some? && r.seller.Some? {
        PutCarries(m, RecordListing(r, r.price.value, now), r.previousPrice.GetOr(0));
      } else {
        StillCarries(m, m);
      }
    case Delist => DropCarries(m, r);
    case BuyAndRelist => if r.buyer.Some? && r.price.Some? { SaleBoughtCarries(m, r); } else { StillCarries(m, m); }
    case BuyAndDelist => if r.buyer.Some? { ExitSaleCarries(m, r); } else { StillCarries(m, m); }
    case Relist => StillCarries(m, m);
  }

  lemma RejectedCarries(m: Market, r: TradeRecord, now: int)
    requires !r.action.BuyAndRelist?
    ensures Carries(m, HandleRejected(m, r, now))
  {
    if r.action.List? {
      DropCarries(m, r);
    } else if r.action.Relist? {
      StillCarries(m, m);
    } else {
      PutCarries(m, RecordListing(r, r.previousPrice.GetOr(0), now), r.previousPrice.GetOr(0));
    }
  }

  // ---------- steps and runs ----------

  lemma TradeCarries(m: Market, action: Action, q: Request, e: Env)
    ensures Carries(m, Trade(m, action, q, e).0)
  {
    var checked := Check(m.tables, action, q, e);
    if checked.Failure? {
      StillCarries(m, m);
    } else {
      var m1 := m.(tables := m.tables.(history := AddRecord(m.tables.history, checked.value)));
      StillCarries(m, m1);
      if e.invokeOk {
        PendingCarries(m1, checked.value, e.now);
      } else {
        StillCarries(m1, Submit(m, checked.value, e));
      }
      ThenCarries(m, m1, Submit(m, checked.value, e));
    }
  }

  lemma RelistCarries(m: Market, r: TradeRecord, base: nat)
    ensures Carries(m, RelistEffect(m, r, base))
  {
    var m1 := m.(tables := m.tables.(
      history := AddRecord(m.tables.history, r),
      listings := UpdatePrice(m.tables.listings, r.name, r.price.GetOr(0))));
    StillCarries(m, m1);
    if r.name in m1.tables.listings {
      UpdateCarries(m1, m1.tables.listings[r.name], base, false);
      ThenCarries(m, m1, RelistEffect(m, r, base));
    }
  }

  // The record that a status event rejects, if any, is of no buy_and_relist.
  ghost predicate RejectsNoSale(m: Market, s: Step) {
    RejectedBy(m, s).Some? ==> RejectedBy(m, s).value.action != BuyAndRelist
  }

  lemma StatusCarries(m: Market, txId: TxId, status: ReeStatus, now: int)
    requires status.ReeRejected? && Lookup(m.tables.history, txId).Some? ==>
      !Lookup(m.tables.history, txId).value.action.BuyAndRelist?
    ensures Carries(m, HandleStatusChange(m, txId, status, now))
  {
    if NewStatus(status).None? {
      StillCarries(m, m);
    } else {
      var m1 := m.(tables := m.tables.(history := SetStatus(m.tables.history, txId, NewStatus(status).value)));
      StillCarries(m, m1);
      StatusKeepsRows(m.tables.history, txId, NewStatus(status).value, txId, "");
      var row := Lookup(m1.tables.history, txId);
      if status.ReeRejected? && row.Some? {
        RejectedCarries(m1, row.value, now);
        ThenCarries(m, m1, HandleStatusChange(m, txId, status, now));
      }
    }
  }

  lemma EffectCarries(m: Market, s: Step)
    requires RejectsNoSale(m, s)
    ensures Carries(m, Effect(m, s))
  {
    match s
    case TradeStep(action, q, e) => TradeCarries(m, action, q, e);
    case RelistStep(caller, name, price, e) =>
      var checked := CheckRelist(m.tables, caller, name, price, e);
      if checked.Success? {
        RelistCarries(m, checked.value, PreviousPrice(m.tables, name, e).GetOr(m.tables.listings[name].price));
      } else {
        StillCarries(m, m);
      }
    case StatusStep(txId, status, now) => StatusCarries(m, txId, status, now);
    case _ => StillCarries(m, Effect(m, s));
  }

  lemma {:induction false} CarryChain(markets: seq<Market>, i: nat, j: nat)
    requires i <= j < |markets|
    requires forall k :: i <= k < j ==> Carries(markets[k], markets[k + 1])
    ensures Carries(markets[i], markets[j])
    decreases j
  {
    if i == j {
      StillCarries(markets[i], markets[j]);
    } else {
      CarryChain(markets, i, j - 1);
      assert Carries(markets[j - 1], markets[j - 1 + 1]);
      ThenCarries(markets[i], markets[j - 1], markets[j]);
    }
  }

  // Between any two moments of a run without a rejected buy_and_relist: a
  // subscriber who showed every new listing of the earlier one, and folds the
  // deltas since, shows every new listing of the later one, with its item.
  lemma NewListingsCovered(
    worlds: seq<World>, steps: seq<Step>, i: nat, j: nat, shown: map<string, ListingItem>)
    requires IsRun(worlds, steps) && i <= j < |worlds|
    requires forall k :: i <= k < j ==> RejectsNoSale(worlds[k].market, steps[k])
    requires Covers(shown, worlds[i].market.rankings.newListings)
    ensures
      var a, b := worlds[i].market, worlds[j].market;
      && a.events <= b.events
      && Covers(FoldNew(shown, b.events[|a.events|..]), b.rankings.newListings)
  {
    var markets := seq(|worlds|, k requires 0 <= k < |worlds| => worlds[k].market);
    forall k | i <= k < j ensures Carries(markets[k], markets[k + 1]) {
      EffectCarries(worlds[k].market, steps[k]);
    }
    CarryChain(markets, i, j);
  }
}
