/**
 The properties of whole runs of the marketplace.
 */
module MarketTheorems {
  import opened Domain
  import opened Rankings
  import opened Tables
  import opened Pricing
  import opened EventHandling
  import opened Runs
  import opened Invariants
  import opened Acceptance
  import opened StatusPreservation
  import opened Reachability

  // ---------- longer runs ----------

  // A run goes on with any admissible step.
  lemma Extend(worlds: seq<World>, steps: seq<Step>, s: Step)
    requires IsRun(worlds, steps) && Admissible(worlds[|steps|], s)
    ensures IsRun(worlds + [Next(worlds[|steps|], s)], steps + [s])
  {
    var ws, ss := worlds + [Next(worlds[|steps|], s)], steps + [s];
    forall i | 0 <= i < |ss| ensures Admissible(ws[i], ss[i]) && ws[i + 1] == Next(ws[i], ss[i]) {
      if i < |steps| { assert ws[i] == worlds[i] && ws[i + 1] == worlds[i + 1] && ss[i] == steps[i]; }
    }
  }

  // ---------- the tables after a taken trade ----------

  lemma TakenTablesOf(w: World, s: Step)
    requires Inv(w) && Admissible(w, s) && TakenTrade(w.market, s).Some?
    ensures
      var r, t, t' := TakenTrade(w.market, s).value, w.market.tables, Next(w, s).market.tables;
      && t'.history == AddRecord(t.history, r)
      && t'.listings == ListingsAfter(t.listings, r, s.e.now)
      && r.name == s.q.name && r.txId == Some(s.q.psbt.txId) && r.action == s.action && r.status == Pending
      && Next(w, s).chain == w.chain[s.q.psbt.txId := s.q.psbt.outputs]
      && (!r.action.List? ==> r.name in t.listings)
  {
    var m := w.market;
    var r := TakenTrade(m, s).value;
    TakenTradeFits(w, s);
    TakenEffect(w, s);
    TakenTables(m, m.(tables := m.tables.(history := AddRecord(m.tables.history, r))), r, s.e.now);
  }

  // ---------- nested rollback ----------

  // A frame remembers the step that pushed it and the holding just before it.
  ghost predicate FrameTraced(worlds: seq<World>, steps: seq<Step>, k: nat, f: Frame) {
    && f.at < k && f.at < |steps| && f.at < |worlds|
    && TakenTrade(worlds[f.at].market, steps[f.at]) == Some(f.record)
    && f.before == HoldingOf(worlds[f.at].market.tables.listings, f.record.name)
  }

  lemma {:induction false} TimeIsIndex(worlds: seq<World>, steps: seq<Step>, k: nat)
    requires IsRun(worlds, steps) && k < |worlds|
    ensures worlds[k].time == k
  {
    if k > 0 { TimeIsIndex(worlds, steps, k - 1); }
  }

  lemma TracedLater(worlds: seq<World>, steps: seq<Step>, k: nat, f: Frame)
    requires FrameTraced(worlds, steps, k, f)
    ensures FrameTraced(worlds, steps, k + 1, f)
  {
  }

  lemma {:induction false} FramesTraced(worlds: seq<World>, steps: seq<Step>, k: nat, n: Name)
    requires IsRun(worlds, steps) && k < |worlds|
    ensures forall f :: f in StackOf(worlds[k], n) ==> FrameTraced(worlds, steps, k, f)
  {
    if k > 0 {
      FramesTraced(worlds, steps, k - 1, n);
      forall f | f in StackOf(worlds[k], n) ensures FrameTraced(worlds, steps, k, f) {
        OneFrameTraced(worlds, steps, k - 1, n, f);
      }
    } else {
      assert StackOf(worlds[0], n) == [];
    }
  }

  lemma OneFrameTraced(worlds: seq<World>, steps: seq<Step>, k: nat, n: Name, f: Frame)
    requires IsRun(worlds, steps) && k < |steps| && f in StackOf(worlds[k + 1], n)
    requires f in StackOf(worlds[k], n) ==> FrameTraced(worlds, steps, k, f)
    ensures FrameTraced(worlds, steps, k + 1, f)
  {
    if f in StackOf(worlds[k], n) {
      TracedLater(worlds, steps, k, f);
    } else {
      NewFrameTraced(worlds, steps, k, n, f);
    }
  }

  lemma NewFrameTraced(worlds: seq<World>, steps: seq<Step>, k: nat, n: Name, f: Frame)
    requires IsRun(worlds, steps) && k < |steps|
    requires f in StackOf(worlds[k + 1], n) && f !in StackOf(worlds[k], n)
    ensures FrameTraced(worlds, steps, k + 1, f)
  {
    TimeIsIndex(worlds, steps, k);
    NewFrame(worlds[k], steps[k], n, f);
  }

  lemma NewFrame(w: World, s: Step, n: Name, f: Frame)
    requires f in StackOf(Next(w, s), n) && f !in StackOf(w, n)
    ensures TakenTrade(w.market, s) == Some(f.record) && f.at == w.time
    ensures f.before == HoldingOf(w.market.tables.listings, f.record.name)
  {
  }

  lemma {:induction false} ChainGrows(worlds: seq<World>, steps: seq<Step>, i: nat, j: nat)
    requires IsRun(worlds, steps) && i <= j < |worlds|
    ensures worlds[i].chain.Keys <= worlds[j].chain.Keys
    decreases j
  {
    if i < j { ChainGrows(worlds, steps, i, j - 1); }
  }

  lemma TakenStays(worlds: seq<World>, steps: seq<Step>, i: nat, j: nat)
    requires IsRun(worlds, steps) && i < j < |worlds|
    requires TakenTrade(worlds[i].market, steps[i]).Some?
    ensures steps[i].q.psbt.txId in worlds[j].chain
  {
    ChainGrows(worlds, steps, i + 1, j);
    assert steps[i].q.psbt.txId in worlds[i + 1].chain;
  }

  // A transaction id is taken by at most one step of a run.
  lemma TakenOnce(worlds: seq<World>, steps: seq<Step>, i: nat, j: nat)
    requires IsRun(worlds, steps) && i < |steps| && j < |steps|
    requires TakenTrade(worlds[i].market, steps[i]).Some? && TakenTrade(worlds[j].market, steps[j]).Some?
    requires steps[i].q.psbt.txId == steps[j].q.psbt.txId
    ensures i == j
  {
    if i < j {
      TakenStays(worlds, steps, i, j);
    } else if j < i {
      TakenStays(worlds, steps, j, i);
    }
  }

  // The id, the name and the step index of a frame all belong to one trade.
  lemma FrameOfTrade(worlds: seq<World>, steps: seq<Step>, i: nat, k: nat, n: Name, f: Frame)
    requires IsRun(worlds, steps) && i < |steps| && k < |worlds|
    requires TakenTrade(worlds[i].market, steps[i]).Some?
    requires f in StackOf(worlds[k], n) && f.record.txId == Some(steps[i].q.psbt.txId)
    ensures n == steps[i].q.name
    ensures f.before == HoldingOf(worlds[i].market.tables.listings, n)
  {
    RunKeeps(worlds, steps, k);
    assert StackInvAt(worlds[k], n);
    assert FrameRecorded(worlds[k].market.tables.history, n, f);
    FramesTraced(worlds, steps, k, n);
    assert FrameTraced(worlds, steps, k, f);
    TradeNames(worlds[f.at].market, steps[f.at]);
    TakenOnce(worlds, steps, i, f.at);
  }

  lemma TradeNames(m: Market, s: Step)
    requires TakenTrade(m, s).Some?
    ensures TakenTrade(m, s).value.name == s.q.name
    ensures TakenTrade(m, s).value.txId == Some(s.q.psbt.txId)
  {
  }

  // Rejecting a trade gives its name back the listing it had just before that
  // trade was taken, however many trades and relists came in between; no other
  // name changes.
  lemma NestedRollback(worlds: seq<World>, steps: seq<Step>, i: nat, j: nat)
    requires IsRun(worlds, steps) && i < j < |steps|
    requires TakenTrade(worlds[i].market, steps[i]).Some?
    requires steps[j].StatusStep? && steps[j].txId == steps[i].q.psbt.txId
    requires RejectedBy(worlds[j].market, steps[j]).Some?
    ensures
      var n := steps[i].q.name;
      var before, after := worlds[i].market.tables.listings, worlds[j + 1].market.tables.listings;
      && HoldingOf(after, n) == HoldingOf(before, n)
      && forall other :: other != n ==>
           HoldingOf(after, other) == HoldingOf(worlds[j].market.tables.listings, other)
  {
    var w, s := worlds[j], steps[j];
    var n := RejectedBy(w.market, s).value.name;
    var f := StackOf(w, n)[|StackOf(w, n)| - 1];
    FrameOfTrade(worlds, steps, i, j, n, f);
    RunKeeps(worlds, steps, j);
    RollbackRestores(w, s, n, f);
  }

  lemma RollbackRestores(w: World, s: Step, n: Name, f: Frame)
    requires Inv(w) && Admissible(w, s)
    requires RejectedBy(w.market, s).Some? && n == RejectedBy(w.market, s).value.name
    requires StackOf(w, n) != [] && f == StackOf(w, n)[|StackOf(w, n)| - 1]
    ensures
      var after := Next(w, s).market.tables.listings;
      && HoldingOf(after, n) == f.before
      && forall other :: other != n ==> HoldingOf(after, other) == HoldingOf(w.market.tables.listings, other)
  {
    var m', r := Next(w, s).market, RejectedRow(w, s);
    StatusWrittenTop(w, s);
    RollbackNext(w, s, r);
    RestoredTop(w, m', s.txId, r, s.now, f);
  }

  lemma RestoredTop(w: World, m': Market, txId: TxId, r: TradeRecord, now: int, f: Frame)
    requires
      var w1 := StatusWritten(w, txId, Rejected);
      && Inv(w1) && r.txId == Some(txId) && Lookup(w1.market.tables.history, txId) == Some(r) && IsTop(w1, r)
      && m' == HandleRejected(w1.market, r, now)
    requires StackOf(w, r.name) != [] && f == StackOf(w, r.name)[|StackOf(w, r.name)| - 1]
    ensures
      var after := m'.tables.listings;
      && HoldingOf(after, r.name) == f.before
      && forall other :: other != r.name ==> HoldingOf(after, other) == HoldingOf(w.market.tables.listings, other)
  {
    RestoredHere(w, StatusWritten(w, txId, Rejected), m', r, now, f);
  }

  lemma RestoredHere(w: World, w1: World, m': Market, r: TradeRecord, now: int, f: Frame)
    requires RecordsInv(w1.market.tables.history, w1.chain) && ListingsInv(w1.market.tables) && StackInv(w1)
    requires m' == HandleRejected(w1.market, r, now)
    requires r.txId.Some? && Lookup(w1.market.tables.history, r.txId.value) == Some(r) && IsTop(w1, r)
    requires w1.market.tables.listings == w.market.tables.listings && w1.stacks == w.stacks
    requires StackOf(w, r.name) != [] && f == StackOf(w, r.name)[|StackOf(w, r.name)| - 1]
    ensures
      var after := m'.tables.listings;
      && HoldingOf(after, r.name) == f.before
      && forall other :: other != r.name ==> HoldingOf(after, other) == HoldingOf(w.market.tables.listings, other)
  {
    RejectRestores(w1, r, now);
  }

  // After the status update the rejected record is still the newest of its name.
  lemma StatusWrittenTop(w: World, s: Step)
    requires Inv(w) && Admissible(w, s) && RejectedBy(w.market, s).Some?
    ensures
      var w1, r := StatusWritten(w, s.txId, Rejected), RejectedRow(w, s);
      && Inv(w1) && r.name == RejectedBy(w.market, s).value.name && r.txId == Some(s.txId)
      && Lookup(w1.market.tables.history, s.txId) == Some(r) && IsTop(w1, r)
  {
    StatusOnly(w, StatusWritten(w, s.txId, Rejected), s.txId, Rejected);
    RowFound(w.market.tables.history, s.txId);
    LookupFacts(w.market.tables.history, s.txId);
  }

  // ---------- the row a rollback leaves ----------

  // The whole row: the exits write a new one, a purchase rewrites its own.
  lemma RestoredRow(w: World, s: Step)
    requires Inv(w) && Admissible(w, s) && RejectedBy(w.market, s).Some?
    ensures
      var r, ls := RejectedRow(w, s), w.market.tables.listings;
      && r.txId == Some(s.txId) && SameTrade(RejectedBy(w.market, s).value, r) && !r.action.Relist?
      && (r.action.BuyAndRelist? ==> r.name in ls)
      && Next(w, s).market.tables == w.market.tables.(
           history := SetStatus(w.market.tables.history, s.txId, Rejected),
           listings := ListingsRestored(ls, r, s.now))
  {
    var w1, r := StatusWritten(w, s.txId, Rejected), RejectedRow(w, s);
    RowFound(w.market.tables.history, s.txId);
    StatusWrittenTop(w, s);
    RollbackNext(w, s, r);
    RolledBackTables(w1, r, s.now);
  }

  lemma RolledBackTables(w: World, r: TradeRecord, now: int)
    requires RecordsInv(w.market.tables.history, w.chain) && ListingsInv(w.market.tables) && StackInv(w)
    requires r.txId.Some? && Lookup(w.market.tables.history, r.txId.value) == Some(r) && IsTop(w, r)
    ensures !r.action.Relist? && (r.action.BuyAndRelist? ==> r.name in w.market.tables.listings)
    ensures HandleRejected(w.market, r, now).tables ==
      w.market.tables.(listings := ListingsRestored(w.market.tables.listings, r, now))
  {
    TopIsRollbackable(w, r);
    RejectTables(w.market, r, now);
  }

  // The record a rejection finds is the one the trade wrote.
  lemma RejectedTrade(worlds: seq<World>, steps: seq<Step>, i: nat, j: nat)
    requires IsRun(worlds, steps) && i < j < |steps|
    requires TakenTrade(worlds[i].market, steps[i]).Some?
    requires steps[j].StatusStep? && steps[j].txId == steps[i].q.psbt.txId
    requires RejectedBy(worlds[j].market, steps[j]).Some?
    ensures SameTrade(TakenTrade(worlds[i].market, steps[i]).value, RejectedBy(worlds[j].market, steps[j]).value)
  {
    var w, r := worlds[j], RejectedBy(worlds[j].market, steps[j]).value;
    var f := StackOf(w, r.name)[|StackOf(w, r.name)| - 1];
    RunKeeps(worlds, steps, j);
    assert StackInvAt(w, r.name);
    assert FrameRecorded(w.market.tables.history, r.name, f);
    FramesTraced(worlds, steps, j, r.name);
    assert FrameTraced(worlds, steps, j, f);
    TradeNames(worlds[f.at].market, steps[f.at]);
    TakenOnce(worlds, steps, i, f.at);
  }

  // What the rollback does not restore. After the rejection of a delist or a
  // purchase the name is listed under the rejected trade's own transaction,
  // never under the one it had before; an exit is listed as of the rejection, a
  // rejected purchase keeps the listing time of the row it rewrites.
  lemma RolledBackRow(worlds: seq<World>, steps: seq<Step>, i: nat, j: nat)
    requires IsRun(worlds, steps) && i < j < |steps|
    requires TakenTrade(worlds[i].market, steps[i]).Some? && !steps[i].action.List?
    requires steps[j].StatusStep? && steps[j].txId == steps[i].q.psbt.txId
    requires RejectedBy(worlds[j].market, steps[j]).Some?
    ensures
      var n, at := steps[i].q.name, worlds[j].market.tables.listings;
      var before, after := worlds[i].market.tables.listings, worlds[j + 1].market.tables.listings;
      && n in before && n in after
      && after[n].txId == steps[i].q.psbt.txId && before[n].txId != steps[i].q.psbt.txId
      && (steps[i].action.IsExit() ==> after[n].listedAt == steps[j].now)
      && (steps[i].action.BuyAndRelist? ==> n in at && after[n].listedAt == at[n].listedAt)
  {
    var w, n := worlds[i], steps[i].q.name;
    RunKeeps(worlds, steps, i);
    RunKeeps(worlds, steps, j);
    TakenTradeFits(w, steps[i]);
    BackedValue(w.market.tables, w.chain, n);
    RejectedTrade(worlds, steps, i, j);
    RestoredRow(worlds[j], steps[j]);
  }

  lemma RolledBackDeal(w: World, r: TradeRecord, now: int)
    requires Inv(w) && r.txId.Some? && Lookup(w.market.tables.history, r.txId.value) == Some(r) && IsTop(w, r)
    requires !r.action.List?
    ensures
      var deals := HandleRejected(w.market, r, now).rankings.bestDeals.Visible();
      r.name in deals && deals[r.name].discount == 206
  {
    TopIsRollbackable(w, r);
    RollbackPriced(w.market.tables, r);
    RejectRankings(w.market, r, now);
    RollbackDiscount(r.previousPrice.value);
    RestoredShows(w, r, HandleRejected(w.market, r, now).rankings, now);
  }

  lemma RestoredShows(w: World, r: TradeRecord, k': Rankings, now: int)
    requires ListingsInv(w.market.tables) && Rollbackable(w.market.tables, r) && !r.action.List?
    requires RankingsRestored(ListingsRestored(w.market.tables.listings, r, now), w.market.rankings, k', r)
    requires Discount(r.previousPrice.value, r.previousPrice.value) == 206
    ensures r.name in k'.bestDeals.Visible() && k'.bestDeals.Visible()[r.name].discount == 206
  {
    var item := ItemOf(ListingsRestored(w.market.tables.listings, r, now)[r.name], r.previousPrice.value);
    if r.name in w.market.tables.listings { assert Backed(w.market.tables, r.name); }
    if r.action.BuyAndRelist? {
      AddShows(w.market.rankings.bestDeals.Remove(r.name), item.discount, item.name, item);
    } else {
      AddShows(w.market.rankings.bestDeals, item.discount, item.name, item);
    }
  }

  // Whatever the name was advertised at before a delist or a purchase, after its
  // rejection it is 0.206.
  lemma RolledBackDiscount(worlds: seq<World>, steps: seq<Step>, i: nat, j: nat)
    requires IsRun(worlds, steps) && i < j < |steps|
    requires TakenTrade(worlds[i].market, steps[i]).Some? && !steps[i].action.List?
    requires steps[j].StatusStep? && steps[j].txId == steps[i].q.psbt.txId
    requires RejectedBy(worlds[j].market, steps[j]).Some?
    ensures
      var deals := worlds[j + 1].market.rankings.bestDeals.Visible();
      steps[i].q.name in deals && deals[steps[i].q.name].discount == 206
  {
    var w, s := worlds[j], steps[j];
    RunKeeps(worlds, steps, i);
    RunKeeps(worlds, steps, j);
    TakenTradeFits(worlds[i], steps[i]);
    RejectedTrade(worlds, steps, i, j);
    RowFound(w.market.tables.history, s.txId);
    StatusWrittenTop(w, s);
    RollbackNext(w, s, RejectedRow(w, s));
    RolledBackDeal(StatusWritten(w, s.txId, Rejected), RejectedRow(w, s), s.now);
  }

  // ---------- derived indexes ----------

  // best_deals always shows exactly the listed names with their current price
  // and seller; new_listings never shows an unlisted name or more than twenty.
  lemma IndexAgreement(worlds: seq<World>, steps: seq<Step>, i: nat)
    requires IsRun(worlds, steps) && i < |worlds|
    ensures
      var ls, k := worlds[i].market.tables.listings, worlds[i].market.rankings;
      && k.bestDeals.Visible().Keys == ls.Keys
      && (forall n :: n in ls ==>
           var item := k.bestDeals.Visible()[n];
           item.price == ls[n].price && item.seller == ls[n].seller && item.discount <= 990)
      && k.newListings.Members() <= ls.Keys && |k.newListings.zset| <= 20
  {
    RunKeeps(worlds, steps, i);
  }
}
