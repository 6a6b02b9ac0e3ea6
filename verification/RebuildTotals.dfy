/**
 The totals that the rebuild at startup counts and sums, against those the
 running market keeps: the rebuild skips rejected sales and sums whole prices,
 the running market counts every sale and sums price minus previous price.
 */
module RebuildTotals {
  import opened Domain
  import opened SortedSets
  import opened Tables
  import opened Pricing
  import opened EventHandling
  import opened Runs
  import opened Invariants
  import opened Reachability
  import opened Sums

  // The records that the totals of the rebuild are taken from.
  predicate Counted(r: TradeRecord) {
    r.action.IsBuy() && (r.status.Pending? || r.status.Finalized? || r.status.Confirmed?)
  }

  // ---------- per name ----------

  // COUNT(*) of a name.
  function CountedTrades(h: seq<TradeRecord>, name: Name): nat {
    if h == [] then 0
    else
      var rest, last := h[..|h| - 1], h[|h| - 1];
      CountedTrades(rest, name) + if last.name == name && Counted(last) then 1 else 0
  }

  // The buys of the name that the rebuild skips.
  function SkippedTrades(h: seq<TradeRecord>, name: Name): nat {
    if h == [] then 0
    else
      var rest, last := h[..|h| - 1], h[|h| - 1];
      SkippedTrades(rest, name) + if last.name == name && last.action.IsBuy() && !Counted(last) then 1 else 0
  }

  lemma {:induction false} TradesSplit(h: seq<TradeRecord>, name: Name)
    ensures TradedCount(h, name) == CountedTrades(h, name) + SkippedTrades(h, name)
    ensures SkippedTrades(h, name) == 0 <==>
      forall i :: 0 <= i < |h| && h[i].name == name && h[i].action.IsBuy() ==> Counted(h[i])
  {
    if h != [] {
      var rest := h[..|h| - 1];
      TradesSplit(rest, name);
      forall i | 0 <= i < |rest| ensures h[i] == rest[i] {
      }
    }
  }

  // ---------- per seller ----------

  // SUM(price_sats) and COUNT(*) of a seller.
  function Proceeds(h: seq<TradeRecord>, seller: Address): nat {
    if h == [] then 0
    else
      var rest, last := h[..|h| - 1], h[|h| - 1];
      Proceeds(rest, seller) + if SoldBy(last, seller) && Counted(last) then last.price.GetOr(0) else 0
  }

  function CountedSales(h: seq<TradeRecord>, seller: Address): nat {
    if h == [] then 0
    else
      var rest, last := h[..|h| - 1], h[|h| - 1];
      CountedSales(rest, seller) + if SoldBy(last, seller) && Counted(last) then 1 else 0
  }

  // What the seller had paid, or asked, for what the rebuild counts.
  function Outlay(h: seq<TradeRecord>, seller: Address): nat {
    if h == [] then 0
    else
      var rest, last := h[..|h| - 1], h[|h| - 1];
      Outlay(rest, seller) + if SoldBy(last, seller) && Counted(last) then last.previousPrice.GetOr(0) else 0
  }

  // The profit of the sales that the rebuild skips.
  function SkippedProfit(h: seq<TradeRecord>, seller: Address): int {
    if h == [] then 0
    else
      var rest, last := h[..|h| - 1], h[|h| - 1];
      SkippedProfit(rest, seller) +
        if SoldBy(last, seller) && !Counted(last) then last.price.GetOr(0) - last.previousPrice.GetOr(0) else 0
  }

  lemma {:induction false} ProceedsSplit(h: seq<TradeRecord>, seller: Address)
    ensures Proceeds(h, seller) + SkippedProfit(h, seller) == Earned(h, seller) + Outlay(h, seller)
    ensures CountedSales(h, seller) <= SalesOf(h, seller)
  {
    if h != [] { ProceedsSplit(h[..|h| - 1], seller); }
  }

  lemma {:induction false} NothingSkipped(h: seq<TradeRecord>, seller: Address)
    requires forall i :: 0 <= i < |h| && SoldBy(h[i], seller) ==> Counted(h[i])
    ensures SkippedProfit(h, seller) == 0 && CountedSales(h, seller) == SalesOf(h, seller)
  {
    if h != [] { NothingSkipped(h[..|h| - 1], seller); }
  }

  lemma {:induction false} OutlayGrows(h: seq<TradeRecord>, seller: Address)
    requires forall i :: 0 <= i < |h| ==> h[i].previousPrice.GetOr(0) >= GLOBAL_MIN_PRICE
    ensures Outlay(h, seller) >= GLOBAL_MIN_PRICE * CountedSales(h, seller)
  {
    if h != [] { OutlayGrows(h[..|h| - 1], seller); }
  }

  // ---------- record by record ----------

  // A purchase that has not been rejected: one that is pending, finalized or
  // confirmed.
  ghost predicate GoodSale(r: TradeRecord) {
    && (r.action == BuyAndRelist || r.action == BuyAndDelist)
    && (r.status == Pending || r.status == Finalized || r.status == Confirmed)
  }

  ghost function GoodTrades(h: seq<TradeRecord>, n: Name): seq<int> {
    seq(|h|, i requires 0 <= i < |h| => if h[i].name == n && GoodSale(h[i]) then 1 else 0)
  }

  ghost function GoodSales(h: seq<TradeRecord>, s: Address): seq<int> {
    seq(|h|, i requires 0 <= i < |h| => if h[i].seller == Some(s) && GoodSale(h[i]) then 1 else 0)
  }

  ghost function GoodPrices(h: seq<TradeRecord>, s: Address): seq<int> {
    seq(|h|, i requires 0 <= i < |h| => if h[i].seller == Some(s) && GoodSale(h[i]) then h[i].price.GetOr(0) else 0)
  }

  // The query of each name counts the good sales; that of each seller counts
  // them and adds their prices.
  lemma {:induction false} CountedTradesAre(h: seq<TradeRecord>, n: Name)
    ensures CountedTrades(h, n) == Total(GoodTrades(h, n))
  {
    if h != [] {
      CountedTradesAre(h[..|h| - 1], n);
      assert GoodTrades(h, n)[..|h| - 1] == GoodTrades(h[..|h| - 1], n);
    }
  }

  lemma {:induction false} CountedSalesAre(h: seq<TradeRecord>, s: Address)
    ensures CountedSales(h, s) == Total(GoodSales(h, s))
  {
    if h != [] {
      CountedSalesAre(h[..|h| - 1], s);
      assert GoodSales(h, s)[..|h| - 1] == GoodSales(h[..|h| - 1], s);
    }
  }

  lemma {:induction false} ProceedsAre(h: seq<TradeRecord>, s: Address)
    ensures Proceeds(h, s) == Total(GoodPrices(h, s))
  {
    if h != [] {
      ProceedsAre(h[..|h| - 1], s);
      assert GoodPrices(h, s)[..|h| - 1] == GoodPrices(h[..|h| - 1], s);
    }
  }

  // ---------- in runs ----------

  // No record of a run has the status Submitted, so the sales that the rebuild
  // skips are the rejected ones.
  ghost predicate NoneSubmitted(h: seq<TradeRecord>) {
    forall i :: 0 <= i < |h| ==> !h[i].status.Submitted?
  }

  lemma StatusNotSubmitted(h: seq<TradeRecord>, txId: TxId, status: Status)
    requires NoneSubmitted(h) && !status.Submitted?
    ensures NoneSubmitted(SetStatus(h, txId, status))
  {
    StatusKeepsRows(h, txId, status, "", "");
    forall i | 0 <= i < |h| ensures !SetStatus(h, txId, status)[i].status.Submitted? {
      SetStatusAt(h, txId, status, i);
    }
  }

  lemma AddedNotSubmitted(h: seq<TradeRecord>, r: TradeRecord)
    requires NoneSubmitted(h) && !r.status.Submitted?
    ensures NoneSubmitted(AddRecord(h, r))
  {
  }

  lemma StepNotSubmitted(w: World, s: Step)
    requires Inv(w) && Admissible(w, s) && NoneSubmitted(w.market.tables.history)
    ensures NoneSubmitted(Next(w, s).market.tables.history)
  {
    var h := w.market.tables.history;
    HistoryAfter(w, s);
    if TakenTrade(w.market, s).Some? {
      AddedNotSubmitted(h, TakenTrade(w.market, s).value);
    } else if s.StatusStep? && NewStatus(s.status).Some? {
      StatusNotSubmitted(h, s.txId, NewStatus(s.status).value);
    } else if Next(w, s).market.tables.history != h {
      var r: TradeRecord :| r.status.Finalized? && Next(w, s).market.tables.history == AddRecord(h, r);
      AddedNotSubmitted(h, r);
    }
  }

  lemma NextNotSubmitted(worlds: seq<World>, steps: seq<Step>, i: nat)
    requires IsRun(worlds, steps) && i < |steps| && NoneSubmitted(worlds[i].market.tables.history)
    ensures NoneSubmitted(worlds[i + 1].market.tables.history)
  {
    RunKeeps(worlds, steps, i);
    StepNotSubmitted(worlds[i], steps[i]);
  }

  lemma {:induction false} RunNotSubmitted(worlds: seq<World>, steps: seq<Step>, i: nat)
    requires IsRun(worlds, steps) && i < |worlds|
    ensures NoneSubmitted(worlds[i].market.tables.history)
  {
    if i > 0 {
      RunNotSubmitted(worlds, steps, i - 1);
      NextNotSubmitted(worlds, steps, i - 1);
    }
  }

  lemma CountedIff(h: seq<TradeRecord>, r: TradeRecord)
    requires NoneSubmitted(h) && r in h && r.action.IsBuy()
    ensures Counted(r) <==> !r.status.Rejected?
  {
  }

  lemma SkipsRejected(h: seq<TradeRecord>, name: Name)
    requires NoneSubmitted(h)
    ensures SkippedTrades(h, name) == 0 <==>
      forall k :: 0 <= k < |h| && h[k].name == name && h[k].action.IsBuy() ==> !h[k].status.Rejected?
  {
    TradesSplit(h, name);
    forall k | 0 <= k < |h| && h[k].action.IsBuy() ensures Counted(h[k]) <==> !h[k].status.Rejected? {
      CountedIff(h, h[k]);
    }
  }

  lemma RunningTrades(worlds: seq<World>, steps: seq<Step>, i: nat, name: Name)
    requires IsRun(worlds, steps) && i < |worlds|
    ensures TradedAgrees(worlds[i].market.tables.history, Scores(worlds[i].market.rankings.mostTraded.zset), name)
  {
    RunKeeps(worlds, steps, i);
  }

  // The rebuilt count of a traded name is the running score if and only if no
  // buy of it has been rejected (up to 2^32 buys).
  lemma TradedAgreeIff(worlds: seq<World>, steps: seq<Step>, i: nat, name: Name)
    requires IsRun(worlds, steps) && i < |worlds|
    requires 0 < TradedCount(worlds[i].market.tables.history, name) < U32_LIMIT
    ensures
      var h, scores := worlds[i].market.tables.history, Scores(worlds[i].market.rankings.mostTraded.zset);
      && name in scores
      && (scores[name] == AsU32(CountedTrades(h, name)) <==>
           forall k :: 0 <= k < |h| && h[k].name == name && h[k].action.IsBuy() ==> !h[k].status.Rejected?)
  {
    var h := worlds[i].market.tables.history;
    RunNotSubmitted(worlds, steps, i);
    RunningTrades(worlds, steps, i, name);
    TradesSplit(h, name);
    SkipsRejected(h, name);
  }

  // The rebuilt total of a seller is the running score if and only if the
  // profit of the rejected sales equals the previous prices of the others.
  lemma EarnersAgreeIff(worlds: seq<World>, steps: seq<Step>, i: nat, seller: Address)
    requires IsRun(worlds, steps) && i < |worlds|
    requires SalesOf(worlds[i].market.tables.history, seller) > 0
    ensures
      var h, scores := worlds[i].market.tables.history, Scores(worlds[i].market.rankings.topEarners.zset);
      && seller in scores
      && Proceeds(h, seller) - scores[seller] == Outlay(h, seller) - SkippedProfit(h, seller)
      && (scores[seller] == Proceeds(h, seller) <==> SkippedProfit(h, seller) == Outlay(h, seller))
  {
    var h := worlds[i].market.tables.history;
    RunKeeps(worlds, steps, i);
    assert EarnedAgrees(h, Scores(worlds[i].market.rankings.topEarners.zset), seller);
    ProceedsSplit(h, seller);
  }

  // Without a rejected sale the rebuild shows the seller at least 55,000 a sale
  // more than the running market did.
  lemma RebuildShowsMore(worlds: seq<World>, steps: seq<Step>, i: nat, seller: Address)
    requires IsRun(worlds, steps) && i < |worlds|
    requires SalesOf(worlds[i].market.tables.history, seller) > 0
    requires
      var h := worlds[i].market.tables.history;
      forall k :: 0 <= k < |h| && SoldBy(h[k], seller) ==> !h[k].status.Rejected?
    ensures
      var h, scores := worlds[i].market.tables.history, Scores(worlds[i].market.rankings.topEarners.zset);
      && seller in scores
      && Proceeds(h, seller) >= scores[seller] + GLOBAL_MIN_PRICE * SalesOf(h, seller)
  {
    var h := worlds[i].market.tables.history;
    RunKeeps(worlds, steps, i);
    RunNotSubmitted(worlds, steps, i);
    EarnersAgreeIff(worlds, steps, i, seller);
    forall k | 0 <= k < |h| && SoldBy(h[k], seller) ensures Counted(h[k]) { CountedIff(h, h[k]); }
    NothingSkipped(h, seller);
    forall k | 0 <= k < |h| ensures h[k].previousPrice.GetOr(0) >= GLOBAL_MIN_PRICE {
      assert RecordPriced(h[k], RecordCount(h, h[k].name));
    }
    OutlayGrows(h, seller);
  }
}
