/**
 Status events and relists keep every invariant; a rejection of the newest
 trade of a name restores the holding the trade replaced.
 */
module StatusPreservation {
  import opened Domain
  import opened SortedSets
  import opened Rankings
  import opened Tables
  import opened Pricing
  import opened EventHandling
  import opened Runs
  import opened Invariants
  import opened TradePreservation

  // ---------- the status column ----------

  lemma RecordsKept(h: seq<TradeRecord>, chain: map<TxId, seq<TxOut>>, txId: TxId, status: Status)
    requires RecordsInv(h, chain)
    ensures RecordsInv(SetStatus(h, txId, status), chain)
  {
    var h' := SetStatus(h, txId, status);
    StatusKeeps(h, txId, status, "", "", "");
    forall i | 0 <= i < |h'| ensures Shape(h'[i]) && (h'[i].txId.Some? ==> KnownValue(chain, h'[i])) {
      assert SameTrade(h[i], h'[i]);
    }
    forall i, j | 0 <= i < j < |h'| && h'[i].txId.Some? ensures h'[i].txId != h'[j].txId {
      assert SameTrade(h[i], h'[i]) && SameTrade(h[j], h'[j]);
    }
  }

  lemma TablesKept(t: Tables, txId: TxId, status: Status)
    requires ListingsInv(t) && PriceInv(t) && UsersInv(t)
    ensures
      var t' := t.(history := SetStatus(t.history, txId, status));
      ListingsInv(t') && PriceInv(t') && UsersInv(t')
  {
    var t' := t.(history := SetStatus(t.history, txId, status));
    StatusKeeps(t.history, txId, status, "", "", "");
    forall n | n in t'.listings
      ensures Backed(t', n) && Priced(t'.listings[n].price, RecordCount(t'.history, n))
    {
      assert Backed(t, n);
      StatusKeeps(t.history, txId, status, t.listings[n].txId, n, "");
    }
    forall i | 0 <= i < |t'.history|
      ensures RecordPriced(t'.history[i], RecordCount(t'.history, t'.history[i].name))
    {
      assert SameTrade(t.history[i], t'.history[i]);
      StatusKeeps(t.history, txId, status, "", t.history[i].name, "");
    }
    forall i | 0 <= i < |t'.history|
      ensures t'.history[i].seller.GetOr("") in t'.users
      ensures t'.history[i].buyer.Some? ==> t'.history[i].buyer.value in t'.users
    {
      assert SameTrade(t.history[i], t'.history[i]);
    }
  }

  lemma AggregatesKept(m: Market, m': Market, txId: TxId, status: Status)
    requires AggregatesInv(m)
    requires m'.tables.history == SetStatus(m.tables.history, txId, status)
    requires m'.rankings.mostTraded == m.rankings.mostTraded && m'.rankings.topEarners == m.rankings.topEarners
    ensures AggregatesInv(m')
  {
    forall n ensures TradedAgrees(m'.tables.history, Scores(m'.rankings.mostTraded.zset), n) {
      assert TradedAgrees(m.tables.history, Scores(m.rankings.mostTraded.zset), n);
      StatusKeeps(m.tables.history, txId, status, "", n, "");
    }
    forall s ensures EarnedAgrees(m'.tables.history, Scores(m'.rankings.topEarners.zset), s) {
      assert EarnedAgrees(m.tables.history, Scores(m.rankings.topEarners.zset), s);
      StatusKeeps(m.tables.history, txId, status, "", "", s);
    }
  }

  lemma FramesKept(w: World, n: Name, f: Frame, txId: TxId, status: Status)
    requires FrameRecorded(w.market.tables.history, n, f)
    ensures FrameRecorded(SetStatus(w.market.tables.history, txId, status), n, f)
  {
    StatusKeeps(w.market.tables.history, txId, status, f.record.txId.value, n, "");
  }

  // A status event that rejects nothing.
  lemma StatusOnly(w: World, w': World, txId: TxId, status: Status)
    requires Inv(w)
    requires w' == w.(
      market := w.market.(tables := w.market.tables.(history := SetStatus(w.market.tables.history, txId, status))),
      time := w.time + 1)
    ensures Inv(w')
  {
    RecordsKept(w.market.tables.history, w.chain, txId, status);
    TablesKept(w.market.tables, txId, status);
    AggregatesKept(w.market, w'.market, txId, status);
    forall n ensures StackInvAt(w', n) {
      assert StackInvAt(w, n);
      forall f | f in StackOf(w', n) ensures FrameRecorded(w'.market.tables.history, n, f) {
        FramesKept(w, n, f, txId, status);
      }
    }
  }

  // ---------- rollback ----------

  // r is a record of the history and the name's listing is what r left behind.
  ghost predicate Rollbackable(t: Tables, r: TradeRecord) {
    && Shape(r) && !r.action.Relist?
    && Lookup(t.history, r.txId.value) == Some(r)
    && SameButPrice(HoldingOf(t.listings, r.name), AfterOf(r))
  }

  lemma RejectTables(m: Market, r: TradeRecord, now: int)
    requires ListingsInv(m.tables) && Rollbackable(m.tables, r)
    ensures HandleRejected(m, r, now).tables ==
      m.tables.(listings := ListingsRestored(m.tables.listings, r, now))
  {
    NotTaken(m.tables, r.name, r.txId.value);
    var t := m.tables.(listings := ListingsRestored(m.tables.listings, r, now));
    if r.action.List? {
      assert HandleDelistPending(m, r).tables == t;
    } else if r.action.BuyAndRelist? {
      assert HandleBuyAndRelistRejected(m, r).tables == t;
    } else {
      assert HandleExitRejected(m, r, now).tables == t;
    }
  }

  // The rollback rebuilds exactly the holding the record replaced.
  lemma RestoresHolding(t: Tables, r: TradeRecord, now: int)
    requires Rollbackable(t, r)
    ensures HoldingOf(ListingsRestored(t.listings, r, now), r.name) == BeforeOf(r)
    ensures forall n :: n != r.name ==>
      HoldingOf(ListingsRestored(t.listings, r, now), n) == HoldingOf(t.listings, n)
  {
  }

  lemma RestoredBacked(t: Tables, r: TradeRecord, now: int, n: Name)
    requires ListingsInv(t) && Rollbackable(t, r) && n in ListingsRestored(t.listings, r, now)
    ensures Backed(t.(listings := ListingsRestored(t.listings, r, now)), n)
  {
    LookupFacts(t.history, r.txId.value);
    if n in t.listings { assert Backed(t, n); }
  }

  lemma RollbackPriced(t: Tables, r: TradeRecord)
    requires PriceInv(t) && UsersInv(t) && Rollbackable(t, r)
    ensures RecordPriced(r, RecordCount(t.history, r.name))
    ensures r.seller.GetOr("") in t.users
  {
    LookupFacts(t.history, r.txId.value);
    var i :| 0 <= i < |t.history| && t.history[i] == r;
    assert RecordPriced(t.history[i], RecordCount(t.history, r.name));
  }

  lemma RestoredTables(t: Tables, r: TradeRecord, now: int)
    requires ListingsInv(t) && PriceInv(t) && UsersInv(t) && Rollbackable(t, r)
    ensures
      var t' := t.(listings := ListingsRestored(t.listings, r, now));
      ListingsInv(t') && PriceInv(t') && UsersInv(t')
  {
    var t' := t.(listings := ListingsRestored(t.listings, r, now));
    RollbackPriced(t, r);
    forall n | n in t'.listings ensures Backed(t', n) { RestoredBacked(t, r, now, n); }
  }

  ghost predicate RankingsRestored(ls': map<Name, Listing>, k: Rankings, k': Rankings, r: TradeRecord)
    requires Shape(r)
  {
    if r.action.List? then RankingsDropped(k, k', r.name)
    else
      && r.name in ls'
      && var item := ItemOf(ls'[r.name], r.previousPrice.value);
      if r.action.BuyAndRelist? then RankingsReplaced(k, k', item, true) else RankingsPut(k, k', item)
  }

  lemma RejectRankings(m: Market, r: TradeRecord, now: int)
    requires ListingsInv(m.tables) && Rollbackable(m.tables, r)
    ensures
      var k, k' := m.rankings, HandleRejected(m, r, now).rankings;
      var ls' := ListingsRestored(m.tables.listings, r, now);
      && k'.mostTraded == k.mostTraded && k'.topEarners == k.topEarners
      && RankingsRestored(ls', k, k', r)
  {
    NotTaken(m.tables, r.name, r.txId.value);
    if r.name in m.tables.listings { assert Backed(m.tables, r.name); }
  }

  lemma IndexRestored(ls: map<Name, Listing>, k: Rankings, k': Rankings, r: TradeRecord, now: int)
    requires DealsAgree(ls, k.bestDeals) && DiscountsBounded(k.bestDeals) && NewListingsInv(ls, k.newListings)
    requires Shape(r) && !r.action.Relist? && r.previousPrice.value > 0
    requires r.action.BuyAndRelist? ==> r.name in ls && ls[r.name].name == r.name
    requires RankingsRestored(ListingsRestored(ls, r, now), k, k', r)
    ensures
      var ls' := ListingsRestored(ls, r, now);
      && DealsAgree(ls', k'.bestDeals) && DiscountsBounded(k'.bestDeals)
      && NewListingsInv(ls', k'.newListings)
  {
    var ls', p := ListingsRestored(ls, r, now), r.previousPrice.value;
    RollbackDiscount(p);
    if r.action.List? {
      IndexDropped(ls, k, k', r.name);
    } else if r.action.BuyAndRelist? {
      IndexReplaced(ls, k, k', ls'[r.name], p, true);
    } else {
      IndexPut(ls, k, k', ls'[r.name], p);
    }
  }

  lemma RejectIndex(m: Market, r: TradeRecord, now: int)
    requires ListingsInv(m.tables) && PriceInv(m.tables) && IndexInv(m) && Rollbackable(m.tables, r)
    ensures IndexInv(HandleRejected(m, r, now))
    ensures HandleRejected(m, r, now).rankings.mostTraded == m.rankings.mostTraded
    ensures HandleRejected(m, r, now).rankings.topEarners == m.rankings.topEarners
  {
    LookupFacts(m.tables.history, r.txId.value);
    var i :| 0 <= i < |m.tables.history| && m.tables.history[i] == r;
    assert RecordPriced(m.tables.history[i], RecordCount(m.tables.history, r.name));
    if r.name in m.tables.listings { assert Backed(m.tables, r.name); }
    RejectTables(m, r, now);
    RejectRankings(m, r, now);
    IndexRestored(m.tables.listings, m.rankings, HandleRejected(m, r, now).rankings, r, now);
  }

  // What the stack says about the newest trade of a name.
  lemma TopIsRollbackable(w: World, r: TradeRecord)
    requires RecordsInv(w.market.tables.history, w.chain) && StackInv(w)
    requires r.txId.Some? && Lookup(w.market.tables.history, r.txId.value) == Some(r)
    requires IsTop(w, r)
    ensures Rollbackable(w.market.tables, r)
    ensures
      var st := StackOf(w, r.name);
      st[|st| - 1].before == BeforeOf(r) && StackMatches(BeforeOf(r), st[..|st| - 1])
  {
    var st := StackOf(w, r.name);
    var f := st[|st| - 1];
    assert StackInvAt(w, r.name);
    assert FrameRecorded(w.market.tables.history, r.name, f);
    LookupFacts(w.market.tables.history, r.txId.value);
    assert SameTrade(r, f.record);
  }

  lemma StackPopped(w: World, w': World, r: TradeRecord, now: int)
    requires StackInv(w) && RecordsInv(w.market.tables.history, w.chain)
    requires r.txId.Some? && Lookup(w.market.tables.history, r.txId.value) == Some(r)
    requires IsTop(w, r)
    requires w'.market.tables ==
      w.market.tables.(listings := ListingsRestored(w.market.tables.listings, r, now))
    requires w'.stacks == w.stacks[r.name := StackOf(w, r.name)[..|StackOf(w, r.name)| - 1]]
    ensures StackInv(w')
  {
    TopIsRollbackable(w, r);
    RestoresHolding(w.market.tables, r, now);
    forall n ensures StackInvAt(w', n) {
      assert StackInvAt(w, n);
    }
  }

  lemma AggregatesSame(m: Market, m': Market)
    requires AggregatesInv(m) && m'.tables.history == m.tables.history
    requires m'.rankings.mostTraded == m.rankings.mostTraded && m'.rankings.topEarners == m.rankings.topEarners
    ensures AggregatesInv(m')
  {
    forall n ensures TradedAgrees(m'.tables.history, Scores(m'.rankings.mostTraded.zset), n) {
      assert TradedAgrees(m.tables.history, Scores(m.rankings.mostTraded.zset), n);
    }
    forall s ensures EarnedAgrees(m'.tables.history, Scores(m'.rankings.topEarners.zset), s) {
      assert EarnedAgrees(m.tables.history, Scores(m.rankings.topEarners.zset), s);
    }
  }

  ghost predicate IsTop(w: World, r: TradeRecord) {
    var st := StackOf(w, r.name);
    st != [] && st[|st| - 1].record.txId == r.txId
  }

  lemma RejectStep(w: World, w': World, r: TradeRecord, now: int)
    requires Inv(w)
    requires r.txId.Some? && Lookup(w.market.tables.history, r.txId.value) == Some(r)
    requires IsTop(w, r)
    requires w'.market == HandleRejected(w.market, r, now) && w'.chain == w.chain
    requires w'.stacks == w.stacks[r.name := StackOf(w, r.name)[..|StackOf(w, r.name)| - 1]]
    ensures Inv(w')
  {
    TopIsRollbackable(w, r);
    RejectTables(w.market, r, now);
    RestoredTables(w.market.tables, r, now);
    RejectIndex(w.market, r, now);
    StackPopped(w, w', r, now);
    AggregatesSame(w.market, w'.market);
  }

  // Rejecting the newest trade of a name leaves the holding remembered when
  // that trade was submitted.
  lemma RejectRestores(w: World, r: TradeRecord, now: int)
    requires RecordsInv(w.market.tables.history, w.chain) && ListingsInv(w.market.tables) && StackInv(w)
    requires r.txId.Some? && Lookup(w.market.tables.history, r.txId.value) == Some(r)
    requires IsTop(w, r)
    ensures
      var ls' := HandleRejected(w.market, r, now).tables.listings;
      && HoldingOf(ls', r.name) == StackOf(w, r.name)[|StackOf(w, r.name)| - 1].before
      && forall n :: n != r.name ==> HoldingOf(ls', n) == HoldingOf(w.market.tables.listings, n)
  {
    TopIsRollbackable(w, r);
    RejectTables(w.market, r, now);
    RestoresHolding(w.market.tables, r, now);
  }
}
