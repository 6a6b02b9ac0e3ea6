/**
 What a single rollback does to any market, and exactly when rejections that
 arrive out of order, or again, still leave the right listing.
 */
module RollbackLimits {
  import opened Domain
  import opened SortedSets
  import opened Rankings
  import opened Tables
  import opened EventHandling
  import opened Runs
  import opened Invariants
  import opened TradePreservation

  // The rollback of r as seen by the holding of its name.
  ghost function Rejecting(held: Option<Holding>, r: TradeRecord): Option<Holding> {
    match r.action
    case List => None
    case BuyAndRelist =>
      if held.Some? then Some(held.value.(seller := r.seller.GetOr(""), price := r.previousPrice.GetOr(0)))
      else None
    case Relist => held
    case _ => if held.Some? then held else BeforeOf(r)
  }

  // No other name's listing carries the record's transaction id.
  ghost predicate OwnId(m: Market, r: TradeRecord) {
    !TxTaken(m.tables.listings, r.name, r.txId.GetOr(""))
  }

  // In a reachable market no rollback is refused for its transaction id.
  lemma RecordsOwnTheirIds(m: Market, r: TradeRecord)
    requires ListingsInv(m.tables) && r.txId.Some? && Lookup(m.tables.history, r.txId.value) == Some(r)
    ensures OwnId(m, r)
  {
    forall n | n in m.tables.listings && n != r.name ensures m.tables.listings[n].txId != r.txId.value {
      assert Backed(m.tables, n);
    }
  }

  // The statement the rollback runs on the listings table.
  ghost function RejectedListings(ls: map<Name, Listing>, r: TradeRecord, now: int): map<Name, Listing> {
    match r.action
    case List => DeleteListing(ls, r.name)
    case BuyAndRelist =>
      UpdateSellerPriceTx(ls, r.name, r.seller.GetOr(""), r.previousPrice.GetOr(0), r.txId.GetOr(""))
    case Relist => ls
    case _ => CreateListing(ls, RecordListing(r, r.previousPrice.GetOr(0), now))
  }

  lemma RejectWrites(m: Market, r: TradeRecord, now: int)
    ensures HandleRejected(m, r, now).tables.listings == RejectedListings(m.tables.listings, r, now)
  {
    match r.action
    case List =>
    case BuyAndRelist => SaleRollbackTables(m, r);
    case _ =>
  }

  lemma WrittenHolding(ls: map<Name, Listing>, r: TradeRecord, now: int)
    requires !TxTaken(ls, r.name, r.txId.GetOr(""))
    ensures HoldingOf(RejectedListings(ls, r, now), r.name) == Rejecting(HoldingOf(ls, r.name), r)
    ensures RejectedListings(ls, r, now) - {r.name} == ls - {r.name}
  {
  }

  // What the handler does to the tables, whatever the market and the record.
  lemma RejectHolding(m: Market, r: TradeRecord, now: int)
    requires OwnId(m, r)
    ensures
      var after := HandleRejected(m, r, now).tables.listings;
      && HoldingOf(after, r.name) == Rejecting(HoldingOf(m.tables.listings, r.name), r)
      && after - {r.name} == m.tables.listings - {r.name}
  {
    RejectWrites(m, r, now);
    WrittenHolding(m.tables.listings, r, now);
  }

  lemma StillOwn(m: Market, m': Market, name: Name, r: TradeRecord)
    requires m'.tables.listings - {name} == m.tables.listings - {name}
    requires OwnId(m, r) && r.name == name
    ensures OwnId(m', r)
  {
    forall n | n in m'.tables.listings && n != name ensures m'.tables.listings[n].txId != r.txId.GetOr("") {
      assert n in m'.tables.listings - {name};
      assert n in m.tables.listings && m.tables.listings[n] == m'.tables.listings[n];
    }
  }

  // The same through the status handler, which finds the record by its id.
  lemma StatusRejects(m: Market, txId: TxId, reason: string, now: int)
    requires Lookup(m.tables.history, txId).Some? && OwnId(m, Lookup(m.tables.history, txId).value)
    ensures
      var r := Lookup(m.tables.history, txId).value;
      var m' := HandleStatusChange(m, txId, ReeRejected(reason), now);
      && m'.tables.history == SetStatus(m.tables.history, txId, Rejected)
      && HoldingOf(m'.tables.listings, r.name) == Rejecting(HoldingOf(m.tables.listings, r.name), r)
      && m'.tables.listings - {r.name} == m.tables.listings - {r.name}
  {
    var h := SetStatus(m.tables.history, txId, Rejected);
    StatusKeepsRows(m.tables.history, txId, Rejected, txId, "");
    RowRejects(m, m.(tables := m.tables.(history := h)), Lookup(m.tables.history, txId).value, Lookup(h, txId).value, now);
  }

  // The record as found and the row as updated differ in status only.
  lemma RowRejects(m: Market, m1: Market, r: TradeRecord, row: TradeRecord, now: int)
    requires m1.tables.listings == m.tables.listings && SameTrade(r, row) && OwnId(m, r)
    ensures
      var m' := HandleRejected(m1, row, now);
      && m'.tables.history == m1.tables.history
      && HoldingOf(m'.tables.listings, r.name) == Rejecting(HoldingOf(m.tables.listings, r.name), r)
      && m'.tables.listings - {r.name} == m.tables.listings - {r.name}
  {
    RejectHolding(m1, row, now);
    RollbackKeepsHistory(m1, row, now);
  }

  // ---------- one rejection ----------

  // A rejection leaves what the record replaced if and only if: for a list,
  // always; for a buy_and_relist, the name is still listed for the same
  // inscription output; for an exit, the name is not listed again, unless by
  // the very same holding.
  lemma RollbackRestoresIff(m: Market, r: TradeRecord, now: int)
    requires OwnId(m, r) && !r.action.Relist?
    ensures
      var held := HoldingOf(m.tables.listings, r.name);
      HoldingOf(HandleRejected(m, r, now).tables.listings, r.name) == BeforeOf(r) <==>
        match r.action
        case List => true
        case BuyAndRelist => held.Some? && held.value.utxoSats == r.utxoSats
        case _ => held.None? || held == BeforeOf(r)
  {
    RejectHolding(m, r, now);
  }

  // ---------- two rejections in the wrong order ----------

  // older and newer are consecutive trades of one name, and the name is as newer left it.
  ghost predicate Consecutive(m: Market, older: TradeRecord, newer: TradeRecord) {
    && older.name == newer.name && !older.action.Relist? && !newer.action.Relist?
    && OwnId(m, older) && OwnId(m, newer)
    && SameButPrice(BeforeOf(newer), AfterOf(older))
    && SameButPrice(HoldingOf(m.tables.listings, newer.name), AfterOf(newer))
  }

  // The two newest trades of a name in a run are consecutive.
  lemma InRunsConsecutive(w: World, n: Name)
    requires Inv(w) && |StackOf(w, n)| >= 2
    ensures
      var st := StackOf(w, n);
      var older, newer := st[|st| - 2].record, st[|st| - 1].record;
      Consecutive(w.market, older, newer)
  {
    var st := StackOf(w, n);
    FrameOwnsId(w, n, st[|st| - 1]);
    FrameOwnsId(w, n, st[|st| - 2]);
    assert StackInvAt(w, n);
    TopTwo(HoldingOf(w.market.tables.listings, n), st);
  }

  lemma TopTwo(held: Option<Holding>, st: seq<Frame>)
    requires StackMatches(held, st) && |st| >= 2
    ensures SameButPrice(held, AfterOf(st[|st| - 1].record)) && !st[|st| - 1].record.action.Relist?
    ensures SameButPrice(BeforeOf(st[|st| - 1].record), AfterOf(st[|st| - 2].record))
    ensures !st[|st| - 2].record.action.Relist?
  {
    var rest := st[..|st| - 1];
    assert StackMatches(st[|st| - 1].before, rest);
    assert rest[|rest| - 1] == st[|st| - 2];
  }

  lemma FrameOwnsId(w: World, n: Name, f: Frame)
    requires Inv(w) && f in StackOf(w, n)
    ensures f.record.name == n && OwnId(w.market, f.record)
  {
    assert StackInvAt(w, n);
    assert FrameRecorded(w.market.tables.history, n, f);
    RecordsOwnTheirIds(w.market, Lookup(w.market.tables.history, f.record.txId.value).value);
  }

  ghost function RejectBoth(m: Market, first: TradeRecord, second: TradeRecord, now: int): map<Name, Listing> {
    HandleRejected(HandleRejected(m, first, now), second, now).tables.listings
  }

  lemma RejectBothHolding(m: Market, first: TradeRecord, second: TradeRecord, now: int)
    requires OwnId(m, first) && OwnId(m, second) && first.name == second.name
    ensures HoldingOf(RejectBoth(m, first, second, now), first.name) ==
      Rejecting(Rejecting(HoldingOf(m.tables.listings, first.name), first), second)
    ensures RejectBoth(m, first, second, now) - {first.name} == m.tables.listings - {first.name}
  {
    RejectHolding(m, first, now);
    StillOwn(m, HandleRejected(m, first, now), first.name, second);
    RejectHolding(HandleRejected(m, first, now), second, now);
  }

  // Newest first always restores the older trade's starting point. Oldest first
  // does so if and only if the pair is a list and a purchase of that listing, or
  // both trades started from the same holding.
  lemma OutOfOrderIff(m: Market, older: TradeRecord, newer: TradeRecord, now: int)
    requires Consecutive(m, older, newer)
    ensures HoldingOf(RejectBoth(m, newer, older, now), older.name) == BeforeOf(older)
    ensures HoldingOf(RejectBoth(m, older, newer, now), older.name) == BeforeOf(older) <==>
      (older.action.List? && newer.action.BuyAndRelist?) || BeforeOf(older) == BeforeOf(newer)
  {
    RejectBothHolding(m, newer, older, now);
    RejectBothHolding(m, older, newer, now);
  }

  lemma RejectBothWrites(m: Market, first: TradeRecord, second: TradeRecord, now: int)
    ensures RejectBoth(m, first, second, now) ==
      RejectedListings(RejectedListings(m.tables.listings, first, now), second, now)
  {
    RejectWrites(m, first, now);
    RejectWrites(HandleRejected(m, first, now), second, now);
  }

  // Row by row, transaction ids included, the order does not matter if and only
  // if the pair is a list and a purchase of that listing.
  lemma OrderMattersIff(m: Market, older: TradeRecord, newer: TradeRecord, now: int)
    requires Consecutive(m, older, newer)
    requires older.txId.Some? && newer.txId.Some? && older.txId != newer.txId
    ensures RejectBoth(m, older, newer, now) == RejectBoth(m, newer, older, now) <==>
      older.action.List? && newer.action.BuyAndRelist?
  {
    RejectBothWrites(m, older, newer, now);
    RejectBothWrites(m, newer, older, now);
    OwnIdWrites(m.tables.listings, older, newer, now);
    OwnIdWrites(m.tables.listings, newer, older, now);
    OrderOfRows(m.tables.listings, older, newer, now);
  }

  // One rollback of a name leaves the other record's id free of other names.
  lemma OwnIdWrites(ls: map<Name, Listing>, r: TradeRecord, other: TradeRecord, now: int)
    requires other.name == r.name && !TxTaken(ls, r.name, other.txId.GetOr(""))
    ensures !TxTaken(RejectedListings(ls, r, now), r.name, other.txId.GetOr(""))
  {
  }

  ghost function TxOfRow(ls: map<Name, Listing>, n: Name): Option<TxId> {
    if n in ls then Some(ls[n].txId) else None
  }

  // The id a rollback leaves in the row of its name.
  lemma WrittenTx(ls: map<Name, Listing>, r: TradeRecord, now: int)
    requires !TxTaken(ls, r.name, r.txId.GetOr("")) && !r.action.Relist?
    ensures TxOfRow(RejectedListings(ls, r, now), r.name) ==
      match r.action
      case List => None
      case BuyAndRelist => if r.name in ls then Some(r.txId.GetOr("")) else None
      case _ => if r.name in ls then Some(ls[r.name].txId) else Some(r.txId.GetOr(""))
  {
  }

  lemma OrderOfRows(ls: map<Name, Listing>, older: TradeRecord, newer: TradeRecord, now: int)
    requires older.name == newer.name && !older.action.Relist? && !newer.action.Relist?
    requires SameButPrice(BeforeOf(newer), AfterOf(older)) && SameButPrice(HoldingOf(ls, newer.name), AfterOf(newer))
    requires older.txId.Some? && newer.txId.Some? && older.txId != newer.txId
    requires !TxTaken(ls, older.name, older.txId.value) && !TxTaken(ls, older.name, newer.txId.value)
    requires !TxTaken(RejectedListings(ls, older, now), older.name, newer.txId.value)
    requires !TxTaken(RejectedListings(ls, newer, now), older.name, older.txId.value)
    ensures
      RejectedListings(RejectedListings(ls, older, now), newer, now) ==
      RejectedListings(RejectedListings(ls, newer, now), older, now) <==>
        older.action.List? && newer.action.BuyAndRelist?
  {
    var n, a, b := older.name, RejectedListings(ls, older, now), RejectedListings(ls, newer, now);
    var ab, ba := RejectedListings(a, newer, now), RejectedListings(b, older, now);
    WrittenTx(ls, older, now);
    WrittenTx(ls, newer, now);
    WrittenTx(a, newer, now);
    WrittenTx(b, older, now);
    if older.action.List? && newer.action.BuyAndRelist? {
      assert ab == ls - {n} && ba == ls - {n};
    } else {
      assert TxOfRow(ab, n) != TxOfRow(ba, n);
    }
  }

  // ---------- the same rejection again ----------

  // Delivering a rejection twice in a row changes no row the second time.
  lemma RejectTwice(m: Market, r: TradeRecord, now: int)
    ensures RejectBoth(m, r, r, now) == HandleRejected(m, r, now).tables.listings
  {
    RejectWrites(m, r, now);
    RejectBothWrites(m, r, r, now);
    WritesTwice(m.tables.listings, r, now);
  }

  lemma WritesTwice(ls: map<Name, Listing>, r: TradeRecord, now: int)
    ensures RejectedListings(RejectedListings(ls, r, now), r, now) == RejectedListings(ls, r, now)
  {
  }

  // Delivered again later, for example after a restart from an old offset, a
  // rejection leaves the table alone if and only if: the list's name is not
  // listed; the purchase's name is not listed, or still has the old seller and
  // price and the purchase's own transaction; the exit's name is listed. A
  // transaction of another listing also makes the store refuse the write.
  lemma ReplayHarmlessIff(m: Market, r: TradeRecord, now: int)
    requires !r.action.Relist?
    ensures
      var ls, n := m.tables.listings, r.name;
      HandleRejected(m, r, now).tables.listings == ls <==>
        match r.action
        case List => n !in ls
        case BuyAndRelist =>
          || n !in ls || TxTaken(ls, n, r.txId.GetOr(""))
          || (ls[n].seller == r.seller.GetOr("") && ls[n].price == r.previousPrice.GetOr(0)
              && ls[n].txId == r.txId.GetOr(""))
        case _ => n in ls || TxTaken(ls, n, r.txId.GetOr(""))
  {
    RejectWrites(m, r, now);
    WritesNothingIff(m.tables.listings, r, now);
  }

  lemma WritesNothingIff(ls: map<Name, Listing>, r: TradeRecord, now: int)
    requires !r.action.Relist?
    ensures
      var n := r.name;
      RejectedListings(ls, r, now) == ls <==>
        match r.action
        case List => n !in ls
        case BuyAndRelist =>
          || n !in ls || TxTaken(ls, n, r.txId.GetOr(""))
          || (ls[n].seller == r.seller.GetOr("") && ls[n].price == r.previousPrice.GetOr(0)
              && ls[n].txId == r.txId.GetOr(""))
        case _ => n in ls || TxTaken(ls, n, r.txId.GetOr(""))
  {
    var ls' := RejectedListings(ls, r, now);
    if r.action.BuyAndRelist? && r.name in ls && !TxTaken(ls, r.name, r.txId.GetOr("")) {
      assert ls' == ls <==> ls'[r.name] == ls[r.name];
    }
  }

  // Any rollback of a market whose best_deals agree with its rows leaves them
  // in agreement, except that of an exit whose row is not written: it
  // advertises the record's seller and price all the same.
  lemma RollbackIndexIff(m: Market, r: TradeRecord, now: int)
    requires DealsAgree(m.tables.listings, m.rankings.bestDeals)
    requires forall n :: n in m.tables.listings ==> m.tables.listings[n].name == n
    ensures
      var m', ls := HandleRejected(m, r, now), m.tables.listings;
      DealsAgree(m'.tables.listings, m'.rankings.bestDeals) <==>
        (r.action.IsExit() ==>
          if r.name in ls then ls[r.name].seller == r.seller.GetOr("") && ls[r.name].price == r.previousPrice.GetOr(0)
          else !TxTaken(ls, r.name, r.txId.GetOr("")))
  {
    RejectWrites(m, r, now);
    RejectedDeals(m, r, now);
    var ls, k := m.tables.listings, m.rankings.bestDeals;
    match r.action
    case List => DropShows(ls, k, r.name);
    case BuyAndRelist => RewrittenShows(ls, k, r, now);
    case Relist =>
    case _ => WrittenShowsIff(ls, k, r, now);
  }

  lemma RejectedDeals(m: Market, r: TradeRecord, now: int)
    ensures
      var k, price := m.rankings.bestDeals, r.previousPrice.GetOr(0);
      var ls' := RejectedListings(m.tables.listings, r, now);
      HandleRejected(m, r, now).rankings.bestDeals ==
        match r.action
        case List => k.Remove(r.name)
        case BuyAndRelist =>
          if r.name in ls' then BestDealsAdd(k.Remove(r.name), ItemOf(ls'[r.name], price)) else k.Remove(r.name)
        case Relist => k
        case _ => BestDealsAdd(k, ItemOf(RecordListing(r, price, now), price))
  {
    if r.action.BuyAndRelist? {
      var m1 := m.(tables := m.tables.(listings := RejectedListings(m.tables.listings, r, now)));
      RankingsOnly(RemoveListingRankings(m1, r.name), r.name, r.previousPrice.GetOr(0));
    }
  }

  lemma DropShows(ls: map<Name, Listing>, k: Ranking<ListingItem>, n: Name)
    requires DealsAgree(ls, k)
    ensures DealsAgree(ls - {n}, k.Remove(n))
  {
  }

  lemma RewrittenShows(ls: map<Name, Listing>, k: Ranking<ListingItem>, r: TradeRecord, now: int)
    requires DealsAgree(ls, k) && r.action.BuyAndRelist? && (r.name in ls ==> ls[r.name].name == r.name)
    ensures
      var ls', price := RejectedListings(ls, r, now), r.previousPrice.GetOr(0);
      DealsAgree(ls',
        if r.name in ls' then BestDealsAdd(k.Remove(r.name), ItemOf(ls'[r.name], price)) else k.Remove(r.name))
  {
    var ls' := RejectedListings(ls, r, now);
    if r.name in ls {
      RewrittenRow(ls, r, now);
      ReputShows(ls, k, ls'[r.name], ItemOf(ls'[r.name], r.previousPrice.GetOr(0)));
    } else {
      DropShows(ls, k, r.name);
      assert ls - {r.name} == ls == ls';
    }
  }

  lemma RewrittenRow(ls: map<Name, Listing>, r: TradeRecord, now: int)
    requires r.action.BuyAndRelist? && r.name in ls
    ensures
      var ls' := RejectedListings(ls, r, now);
      r.name in ls' && ls' == ls[r.name := ls'[r.name]] && ls'[r.name].name == ls[r.name].name
  {
    var ls' := RejectedListings(ls, r, now);
    if TxTaken(ls, r.name, r.txId.GetOr("")) { assert ls == ls[r.name := ls[r.name]]; }
  }

  lemma ReputShows(ls: map<Name, Listing>, k: Ranking<ListingItem>, l: Listing, item: ListingItem)
    requires DealsAgree(ls, k) && Shows(item, l)
    ensures DealsAgree(ls[l.name := l], BestDealsAdd(k.Remove(l.name), item))
  {
    assert (ls - {l.name})[l.name := l] == ls[l.name := l];
    DropShows(ls, k, l.name);
    PutShows(ls - {l.name}, k.Remove(l.name), l, item);
  }

  lemma WrittenShowsIff(ls: map<Name, Listing>, k: Ranking<ListingItem>, r: TradeRecord, now: int)
    requires DealsAgree(ls, k) && r.action.IsExit() && forall n :: n in ls ==> ls[n].name == n
    ensures
      var price, ls' := r.previousPrice.GetOr(0), RejectedListings(ls, r, now);
      DealsAgree(ls', BestDealsAdd(k, ItemOf(RecordListing(r, price, now), price))) <==>
        if r.name in ls then ls[r.name].seller == r.seller.GetOr("") && ls[r.name].price == price
        else !TxTaken(ls, r.name, r.txId.GetOr(""))
  {
    var price, ls' := r.previousPrice.GetOr(0), RejectedListings(ls, r, now);
    var l := RecordListing(r, price, now);
    var k' := BestDealsAdd(k, ItemOf(l, price));
    assert r.name in k'.Members() && k'.meta[r.name] == ItemOf(l, price);
    if r.name in ls {
      assert ls' == ls;
      if ls[r.name].seller == l.seller && ls[r.name].price == price {
        PutShows(ls, k, ls[r.name], ItemOf(l, price));
        assert ls[r.name := ls[r.name]] == ls;
      } else {
        assert !Shows(k'.meta[r.name], ls'[r.name]);
      }
    } else if !TxTaken(ls, r.name, r.txId.GetOr("")) {
      PutShows(ls, k, l, ItemOf(l, price));
    }
  }

  // ---------- the new-listings stream ----------

  function ApplyNew(shown: map<string, ListingItem>, e: BroadcastEvent): map<string, ListingItem> {
    match e
    case NewListing(item) => shown[item.name := item]
    case RemoveNewListing(name) => shown - {name}
    case _ => shown
  }

  function FoldNew(shown: map<string, ListingItem>, events: seq<BroadcastEvent>): map<string, ListingItem> {
    if events == [] then shown
    else ApplyNew(FoldNew(shown, events[..|events| - 1]), events[|events| - 1])
  }

  // Where an inserted entry stands decides whether the trim keeps it.
  lemma InsertedStays(rest: ZSet, e: Entry, k: nat)
    requires forall x :: x in rest ==> x.member != e.member
    ensures IsZSet(Insert(rest, e))
    ensures e in Top(Insert(rest, e), k) <==> |Above(rest, e)| < k
  {
    InsertFacts(rest, e);
    var added: ZSet := Insert(rest, e);
    var i :| 0 <= i < |added| && added[i] == e;
    AbovePosition(added, i);
    TopByPosition(added, i, k);
    LessTotal(e, e);
    assert Above(added, e) == Above(rest, e);
  }

  // A member added with a trim stays if and only if fewer than k others rank above it.
  lemma AddedStays(z: ZSet, score: int, member: string, k: nat)
    ensures member in Scores(ZTrim(ZAdd(z, score, member), k)) <==>
      |Above(Without(z, member), Entry(score, member))| < k
  {
    var e := Entry(score, member);
    WithoutFacts(z, member);
    InsertedStays(Without(z, member), e, k);
    var kept := ZTrim(ZAdd(z, score, member), k);
    ScoresAre(kept);
    if member in Scores(kept) {
      InsertFacts(Without(z, member), e);
      assert Entry(Scores(kept)[member], member) in ZAdd(z, score, member);
    }
  }

  // Redis after the rollback of a purchase: the name is taken out and, when it
  // is still listed, added anew.
  lemma RejectedNewListings(m: Market, r: TradeRecord, now: int)
    requires r.action.BuyAndRelist?
    ensures
      var kept := m.rankings.newListings.Remove(r.name);
      var m' := HandleRejected(m, r, now);
      var ls := m'.tables.listings;
      && m'.events != [] && m'.events[|m'.events| - 1] == RemoveNewListing(r.name)
      && m'.rankings.newListings ==
           if r.name in ls then NewListingsAdd(kept, ItemOf(ls[r.name], r.previousPrice.GetOr(0))) else kept
  {
    var m1 := m.(tables := m.tables.(listings := RejectedListings(m.tables.listings, r, now)));
    var m2 := RemoveListingRankings(m1, r.name);
    assert m2.rankings.newListings == m.rankings.newListings.Remove(r.name);
    assert m2.tables == m1.tables;
  }

  // After a rejected purchase a subscriber never shows the name as a new
  // listing, while Redis does if and only if the name is still listed and fewer
  // than twenty others rank above it.
  lemma NewListingsDeltaIff(m: Market, r: TradeRecord, now: int, shown: map<string, ListingItem>)
    requires r.action.BuyAndRelist?
    requires r.name in m.tables.listings ==> m.tables.listings[r.name].name == r.name
    ensures
      var m' := HandleRejected(m, r, now);
      var others := Without(m.rankings.newListings.zset, r.name);
      && r.name !in FoldNew(shown, m'.events)
      && (r.name in m'.rankings.newListings.Members() <==>
           && r.name in m.tables.listings
           && |Above(others, Entry(m.tables.listings[r.name].listedAt, r.name))| < 20)
  {
    RejectedNewListings(m, r, now);
    RejectWrites(m, r, now);
    var ls := HandleRejected(m, r, now).tables.listings;
    if r.name in m.tables.listings {
      assert ls[r.name].listedAt == m.tables.listings[r.name].listedAt && ls[r.name].name == r.name;
      AddedAgain(m.rankings.newListings, ItemOf(ls[r.name], r.previousPrice.GetOr(0)));
    } else {
      assert r.name !in ls;
    }
  }

  lemma AddedAgain(k: Ranking<ListingItem>, item: ListingItem)
    ensures item.name in NewListingsAdd(k.Remove(item.name), item).Members() <==>
      |Above(Without(k.zset, item.name), Entry(item.listedAt, item.name))| < NEW_LISTINGS_LIMIT
  {
    WithoutFacts(k.zset, item.name);
    WithoutAbsent(Without(k.zset, item.name), item.name);
    AddedStays(ZRem(k.zset, item.name), item.listedAt, item.name, NEW_LISTINGS_LIMIT);
  }

  // After the other rollbacks: a rejected list is no new listing, a rejected exit
  // is one if and only if fewer than twenty others rank above it.
  lemma RejectedNewIff(m: Market, r: TradeRecord, now: int)
    requires !r.action.BuyAndRelist?
    ensures
      var k, k' := m.rankings.newListings, HandleRejected(m, r, now).rankings.newListings;
      && (r.action == Action.List ==> k'.Members() == k.Members() - {r.name})
      && (r.action == Delist || r.action == BuyAndDelist ==>
           (r.name in k'.Members() <==> |Above(Without(k.zset, r.name), Entry(now, r.name))| < 20))
      && (r.action == Action.Relist ==> k' == k)
  {
    if r.action.IsExit() { AddedStays(m.rankings.newListings.zset, now, r.name, NEW_LISTINGS_LIMIT); }
  }
}
