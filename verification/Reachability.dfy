/**
 Every step keeps the invariants, so every world of a run has them.
 */
module Reachability {
  import opened Domain
  import opened SortedSets
  import opened Tables
  import opened Pricing
  import opened EventHandling
  import opened TradingRules
  import opened Runs
  import opened Invariants
  import opened Acceptance
  import opened TradePreservation
  import opened StatusPreservation

  // ---------- a taken trade ----------

  lemma TakenEffect(w: World, s: Step)
    requires TakenTrade(w.market, s).Some?
    ensures
      var r, m := TakenTrade(w.market, s).value, w.market;
      var m1 := m.(tables := m.tables.(history := AddRecord(m.tables.history, r)));
      var w' := Next(w, s);
      && w'.market == HandlePending(m1, r, s.e.now)
      && w'.chain == w.chain[s.q.psbt.txId := s.q.psbt.outputs]
      && w'.stacks == w.stacks[r.name := StackOf(w, r.name) + [Frame(r, HoldingOf(m.tables.listings, r.name), w.time)]]
  {
  }

  lemma AcceptedDiscounts(t: Tables, r: TradeRecord)
    requires PriceInv(t) && Fits(t, r)
    ensures !r.action.IsExit() ==> Discount(r.price.value, r.previousPrice.value) <= 990
  {
    if !r.action.IsExit() { AcceptedDiscount(r.previousPrice.value, r.price.value); }
  }

  lemma TakenTables(m: Market, m1: Market, r: TradeRecord, now: int)
    requires ListingsInv(m.tables) && PriceInv(m.tables) && UsersInv(m.tables) && Fits(m.tables, r)
    requires m1 == m.(tables := m.tables.(history := AddRecord(m.tables.history, r)))
    ensures
      var t' := HandlePending(m1, r, now).tables;
      && t' == After(m.tables, r, now, t'.points)
      && ListingsInv(t') && PriceInv(t') && UsersInv(t')
  {
    LookupFacts(m.tables.history, r.txId.value);
    NotTaken(m.tables, r.name, r.txId.value);
    PendingTables(m1, r, now);
    SellerPointsOnly(m1.tables, r);
    PointsStay(m.tables, m1.tables, r);
    var p := HandlePending(m1, r, now).tables.points;
    ListingsAfterKeep(m.tables, r, now, p);
    PricesAfter(m.tables, r, now, p);
    UsersAfter(m.tables, r, now, p);
  }

  lemma PointsStay(t: Tables, t1: Tables, r: TradeRecord)
    requires UsersInv(t) && t1.points == t.points && t1.users == t.users
    ensures forall p :: p in AddSellerPoints(t1, r).points ==> AddSellerPoints(t1, r).points[p] >= 0
  {
  }

  lemma TakenIndex(m: Market, m1: Market, r: TradeRecord, now: int)
    requires ListingsInv(m.tables) && PriceInv(m.tables) && IndexInv(m) && Fits(m.tables, r)
    requires m1 == m.(tables := m.tables.(history := AddRecord(m.tables.history, r)))
    requires HandlePending(m1, r, now).tables.listings == ListingsAfter(m.tables.listings, r, now)
    ensures IndexInv(HandlePending(m1, r, now))
  {
    LookupFacts(m.tables.history, r.txId.value);
    NotTaken(m.tables, r.name, r.txId.value);
    AcceptedDiscounts(m.tables, r);
    if r.name in m.tables.listings { assert Backed(m.tables, r.name); }
    IndexAfter(m1, r, now);
  }

  lemma TakenKeeps(w: World, s: Step)
    requires Inv(w) && Admissible(w, s) && TakenTrade(w.market, s).Some?
    ensures Inv(Next(w, s))
  {
    TakenTradeFits(w, s);
    TakenEffect(w, s);
    TakenKeepsInv(w, Next(w, s), TakenTrade(w.market, s).value, s.e.now, s.q.psbt.outputs);
  }

  lemma TakenKeepsInv(w: World, w': World, r: TradeRecord, now: int, outs: seq<TxOut>)
    requires Inv(w) && Fits(w.market.tables, r) && r.txId.value !in w.chain
    requires KnownValue(w.chain[r.txId.value := outs], r)
    requires
      var m := w.market;
      var m1 := m.(tables := m.tables.(history := AddRecord(m.tables.history, r)));
      && w'.market == HandlePending(m1, r, now)
      && w'.chain == w.chain[r.txId.value := outs]
      && w'.stacks == w.stacks[r.name := StackOf(w, r.name) + [Frame(r, HoldingOf(m.tables.listings, r.name), w.time)]]
    ensures Inv(w')
  {
    var m := w.market;
    var m1 := m.(tables := m.tables.(history := AddRecord(m.tables.history, r)));
    TakenTables(m, m1, r, now);
    RecordsAfter(m.tables.history, w.chain, r, outs);
    TakenIndex(m, m1, r, now);
    StackAfter(w, r, w', now, w'.market.tables.points);
    AggregatesAfter(m, m1, w'.market, r, now);
  }

  // ---------- a relist ----------

  // The tables after a relist of a listed name.
  ghost function Relisted(t: Tables, r: TradeRecord): Tables {
    t.(history := AddRecord(t.history, r), listings := UpdatePrice(t.listings, r.name, r.price.GetOr(0)))
  }

  lemma RelistTables(t: Tables, r: TradeRecord, base: nat)
    requires ListingsInv(t) && PriceInv(t) && UsersInv(t)
    requires Shape(r) && r.action.Relist? && r.buyer.None? && r.name in t.listings
    requires r.seller == Some(t.listings[r.name].seller) && r.previousPrice == Some(t.listings[r.name].price)
    requires Priced(base, RecordCount(t.history, r.name)) && ValidatePrice(base, r.price.value).Success?
    ensures ListingsInv(Relisted(t, r)) && PriceInv(Relisted(t, r)) && UsersInv(Relisted(t, r))
  {
    var t', c := Relisted(t, r), RecordCount(t.history, r.name);
    PricedStep(base, r.price.value, c);
    PricedMore(r.previousPrice.value, c, c + 1);
    HistoryPrices(t, r, t'.history);
    RelistBacked(t, r);
    RelistPriced(t, r, c);
    Snoc(t.history, r);
  }

  lemma RelistBacked(t: Tables, r: TradeRecord)
    requires ListingsInv(t) && r.txId.None?
    ensures ListingsInv(Relisted(t, r))
  {
    var t' := Relisted(t, r);
    forall n | n in t'.listings ensures Backed(t', n) {
      assert Backed(t, n);
      LookupAfter(t.history, r, t.listings[n].txId);
    }
  }

  lemma RelistPriced(t: Tables, r: TradeRecord, c: nat)
    requires PriceInv(t) && r.price.Some? && c == RecordCount(t.history, r.name)
    requires Priced(r.price.value, c + 1)
    ensures forall n :: n in Relisted(t, r).listings ==>
      Priced(Relisted(t, r).listings[n].price, RecordCount(Relisted(t, r).history, n))
  {
    var t' := Relisted(t, r);
    forall n | n in t'.listings ensures Priced(t'.listings[n].price, RecordCount(t'.history, n)) {
      CountAfter(t.history, r, n);
      if n != r.name {
        PricedMore(t.listings[n].price, RecordCount(t.history, n), RecordCount(t'.history, n));
      }
    }
  }

  lemma RelistKeeps(w: World, s: Step)
    requires Inv(w) && s.RelistStep?
    ensures Inv(Next(w, s))
  {
    var t := w.market.tables;
    var checked := CheckRelist(t, s.caller, s.name, s.newPrice, s.e);
    if checked.Success? {
      var base := PreviousPrice(t, s.name, s.e).GetOr(t.listings[s.name].price);
      RelistFits(t, s.caller, s.name, s.newPrice, s.e);
      RelistWorld(w, s, checked.value, base);
      RelistKeepsInv(w, Next(w, s), checked.value, base);
    } else {
      SameTablesKeep(w, Next(w, s));
    }
  }

  lemma RelistWorld(w: World, s: Step, r: TradeRecord, base: nat)
    requires s.RelistStep? && CheckRelist(w.market.tables, s.caller, s.name, s.newPrice, s.e) == Success(r)
    requires
      var t := w.market.tables;
      s.name in t.listings && base == PreviousPrice(t, s.name, s.e).GetOr(t.listings[s.name].price)
    ensures Next(w, s) == w.(market := RelistEffect(w.market, r, base), time := w.time + 1)
  {
  }

  lemma RelistKeepsInv(w: World, w': World, r: TradeRecord, base: nat)
    requires Inv(w)
    requires Shape(r) && r.action.Relist? && r.buyer.None? && r.name in w.market.tables.listings
    requires r.seller == Some(w.market.tables.listings[r.name].seller)
    requires r.previousPrice == Some(w.market.tables.listings[r.name].price)
    requires Priced(base, RecordCount(w.market.tables.history, r.name))
    requires ValidatePrice(base, r.price.value).Success?
    requires w'.market == RelistEffect(w.market, r, base) && w'.chain == w.chain && w'.stacks == w.stacks
    ensures Inv(w')
  {
    var m, t := w.market, w.market.tables;
    var l := t.listings[r.name].(price := r.price.value);
    assert Backed(t, r.name);
    RelistTables(t, r, base);
    RecordsAfter(t.history, w.chain, r, []);
    AcceptedDiscount(base, r.price.value);
    PutAgrees(t.listings, m.rankings.bestDeals, l, base);
    RelistStack(w, w', r);
    RelistAggregates(m, w'.market, r);
  }

  lemma RelistStack(w: World, w': World, r: TradeRecord)
    requires StackInv(w) && r.txId.None?
    requires w'.market.tables == Relisted(w.market.tables, r) && w'.stacks == w.stacks
    ensures StackInv(w')
  {
    var t, t' := w.market.tables, w'.market.tables;
    forall n ensures StackInvAt(w', n) {
      assert StackInvAt(w, n);
      assert SameButPrice(HoldingOf(t'.listings, n), HoldingOf(t.listings, n));
      forall f | f in StackOf(w', n) ensures FrameRecorded(t'.history, n, f) {
        assert FrameRecorded(t.history, n, f);
        LookupAfter(t.history, r, f.record.txId.value);
      }
    }
  }

  lemma RelistAggregates(m: Market, m': Market, r: TradeRecord)
    requires AggregatesInv(m) && r.action.Relist?
    requires m'.tables.history == AddRecord(m.tables.history, r)
    requires m'.rankings.mostTraded == m.rankings.mostTraded && m'.rankings.topEarners == m.rankings.topEarners
    ensures AggregatesInv(m')
  {
    forall n ensures TradedAgrees(m'.tables.history, Scores(m'.rankings.mostTraded.zset), n) {
      assert TradedAgrees(m.tables.history, Scores(m.rankings.mostTraded.zset), n);
      AggregateStep(m.tables.history, r, n, "");
    }
    forall s ensures EarnedAgrees(m'.tables.history, Scores(m'.rankings.topEarners.zset), s) {
      assert EarnedAgrees(m.tables.history, Scores(m.rankings.topEarners.zset), s);
      AggregateStep(m.tables.history, r, "", s);
    }
  }

  // ---------- steps that touch no listing and no record ----------

  lemma SameTablesKeep(w: World, w': World)
    requires Inv(w)
    requires w'.market.rankings == w.market.rankings && w'.chain == w.chain && w'.stacks == w.stacks
    requires
      var t, t' := w.market.tables, w'.market.tables;
      && t'.listings == t.listings && t'.history == t.history && t'.points == t.points
      && t.users.Keys <= t'.users.Keys
    ensures Inv(w')
  {
    var t, t' := w.market.tables, w'.market.tables;
    AggregatesSame(w.market, w'.market);
    forall n ensures StackInvAt(w', n) { assert StackInvAt(w, n); }
    forall n | n in t'.listings ensures Backed(t', n) { assert Backed(t, n); }
  }

  // Adding the record and deleting it again leaves the market as it was.
  lemma FailedInvoke(w: World, s: Step)
    requires Inv(w) && Admissible(w, s) && s.TradeStep? && TakenTrade(w.market, s).None?
    ensures Next(w, s) == w.(time := w.time + 1)
  {
    var m := w.market;
    if Check(m.tables, s.action, s.q, s.e).Success? {
      var r := Check(m.tables, s.action, s.q, s.e).value;
      CheckedId(m.tables, s.action, s.q, s.e);
      NewIdIsFresh(m.tables.history, w.chain, s.q.psbt.txId);
      DeleteUndoesAddIffFresh(m.tables.history, r);
      assert Submit(m, r, s.e) == m;
    }
  }

  lemma CheckedId(t: Tables, action: Action, q: Request, e: Env)
    requires Check(t, action, q, e).Success?
    ensures Check(t, action, q, e).value.txId == Some(q.psbt.txId)
  {
  }

  // ---------- status events ----------

  // The world between the status update and the rollback.
  ghost function StatusWritten(w: World, txId: TxId, status: Status): World {
    var m := w.market;
    w.(market := m.(tables := m.tables.(history := SetStatus(m.tables.history, txId, status))), time := w.time + 1)
  }

  lemma StatusWithoutRollback(w: World, s: Step)
    requires s.StatusStep? && RejectedBy(w.market, s).None?
    ensures Next(w, s) ==
      if NewStatus(s.status).None? then w.(time := w.time + 1)
      else StatusWritten(w, s.txId, NewStatus(s.status).value)
  {
    if NewStatus(s.status).Some? {
      StatusKeeps(w.market.tables.history, s.txId, NewStatus(s.status).value, s.txId, "", "");
    }
  }

  // The record as the status update returns it.
  ghost function RejectedRow(w: World, s: Step): TradeRecord
    requires RejectedBy(w.market, s).Some?
  {
    Lookup(SetStatus(w.market.tables.history, s.txId, Rejected), s.txId).GetOr(RejectedBy(w.market, s).value)
  }

  lemma RowFound(h: seq<TradeRecord>, txId: TxId)
    requires Lookup(h, txId).Some?
    ensures
      var row := Lookup(SetStatus(h, txId, Rejected), txId);
      row.Some? && SameTrade(Lookup(h, txId).value, row.value)
  {
    StatusKeepsRows(h, txId, Rejected, txId, "");
  }

  lemma RollbackMarket(m: Market, txId: TxId, status: ReeStatus, now: int, r: TradeRecord)
    requires status.ReeRejected? && Lookup(SetStatus(m.tables.history, txId, Rejected), txId) == Some(r)
    ensures HandleStatusChange(m, txId, status, now) ==
      HandleRejected(m.(tables := m.tables.(history := SetStatus(m.tables.history, txId, Rejected))), r, now)
  {
  }

  lemma RollbackStacks(w: World, s: Step)
    requires RejectedBy(w.market, s).Some? && StackOf(w, RejectedBy(w.market, s).value.name) != []
    ensures
      var n := RejectedBy(w.market, s).value.name;
      NextStacks(w, s) == w.stacks[n := StackOf(w, n)[..|StackOf(w, n)| - 1]]
  {
  }

  lemma RollbackNext(w: World, s: Step, r: TradeRecord)
    requires RejectedBy(w.market, s).Some?
    requires Lookup(StatusWritten(w, s.txId, Rejected).market.tables.history, s.txId) == Some(r)
    ensures Next(w, s).market == HandleRejected(StatusWritten(w, s.txId, Rejected).market, r, s.now)
    ensures Next(w, s).chain == w.chain && Next(w, s).stacks == NextStacks(w, s)
  {
    RollbackMarket(w.market, s.txId, s.status, s.now, r);
  }

  lemma RollbackEffect(w: World, s: Step)
    requires RejectedBy(w.market, s).Some? && StackOf(w, RejectedBy(w.market, s).value.name) != []
    ensures
      var w1, r, w' := StatusWritten(w, s.txId, Rejected), RejectedRow(w, s), Next(w, s);
      && SameTrade(RejectedBy(w.market, s).value, r)
      && Lookup(w1.market.tables.history, s.txId) == Some(r)
      && w'.market == HandleRejected(w1.market, r, s.now) && w'.chain == w1.chain
      && w'.stacks == w1.stacks[r.name := StackOf(w1, r.name)[..|StackOf(w1, r.name)| - 1]]
  {
    RowFound(w.market.tables.history, s.txId);
    RollbackNext(w, s, RejectedRow(w, s));
    RollbackStacks(w, s);
  }

  lemma StatusStepKeeps(w: World, s: Step)
    requires Inv(w) && Admissible(w, s) && s.StatusStep?
    ensures Inv(Next(w, s))
  {
    if RejectedBy(w.market, s).Some? {
      RollbackKeeps(w, s);
    } else {
      StatusWithoutRollback(w, s);
      if NewStatus(s.status).None? {
        SameTablesKeep(w, Next(w, s));
      } else {
        StatusOnly(w, Next(w, s), s.txId, NewStatus(s.status).value);
      }
    }
  }

  lemma RollbackKeeps(w: World, s: Step)
    requires Inv(w) && Admissible(w, s) && RejectedBy(w.market, s).Some?
    ensures Inv(Next(w, s))
  {
    var w1, r := StatusWritten(w, s.txId, Rejected), RejectedRow(w, s);
    StatusOnly(w, w1, s.txId, Rejected);
    RollbackEffect(w, s);
    LookupFacts(w1.market.tables.history, s.txId);
    RejectStep(w1, Next(w, s), r, s.now);
  }

  // ---------- what a step does to the trade history ----------

  // It adds the pending record of a taken trade or the record of a relist, sets
  // the status of one transaction's records, or leaves the history alone.
  lemma HistoryAfter(w: World, s: Step)
    requires Inv(w) && Admissible(w, s)
    ensures
      var h, h' := w.market.tables.history, Next(w, s).market.tables.history;
      if TakenTrade(w.market, s).Some? then
        h' == AddRecord(h, TakenTrade(w.market, s).value) && TakenTrade(w.market, s).value.status == Pending
      else if s.RelistStep? then
        h' == h || exists r: TradeRecord :: r.action.Relist? && r.txId.None? && r.status.Finalized? && h' == AddRecord(h, r)
      else if s.StatusStep? && NewStatus(s.status).Some? then h' == SetStatus(h, s.txId, NewStatus(s.status).value)
      else h' == h
  {
    if TakenTrade(w.market, s).Some? {
      TakenHistory(w, s);
    } else if s.TradeStep? {
      FailedInvoke(w, s);
    } else if s.RelistStep? {
      RelistHistory(w, s);
    } else if s.StatusStep? && NewStatus(s.status).Some? {
      StatusHistory(w.market, s.txId, s.status, s.now);
    }
  }

  lemma TakenHistory(w: World, s: Step)
    requires Inv(w) && Admissible(w, s) && TakenTrade(w.market, s).Some?
    ensures Next(w, s).market.tables.history == AddRecord(w.market.tables.history, TakenTrade(w.market, s).value)
    ensures TakenTrade(w.market, s).value.status == Pending
  {
    var m, r := w.market, TakenTrade(w.market, s).value;
    TakenTradeFits(w, s);
    TakenEffect(w, s);
    TakenTables(m, m.(tables := m.tables.(history := AddRecord(m.tables.history, r))), r, s.e.now);
  }

  lemma RelistHistory(w: World, s: Step)
    requires s.RelistStep?
    ensures
      var h, h' := w.market.tables.history, Next(w, s).market.tables.history;
      h' == h || exists r: TradeRecord :: r.action.Relist? && r.txId.None? && r.status.Finalized? && h' == AddRecord(h, r)
  {
  }

  lemma StatusHistory(m: Market, txId: TxId, status: ReeStatus, now: int)
    requires NewStatus(status).Some?
    ensures HandleStatusChange(m, txId, status, now).tables.history ==
      SetStatus(m.tables.history, txId, NewStatus(status).value)
  {
    var m1 := m.(tables := m.tables.(history := SetStatus(m.tables.history, txId, NewStatus(status).value)));
    var row := Lookup(m1.tables.history, txId);
    if row.Some? { RollbackKeepsHistory(m1, row.value, now); }
  }

  // ---------- every step, every run ----------

  lemma StepKeeps(w: World, s: Step)
    requires Inv(w) && Admissible(w, s)
    ensures Inv(Next(w, s))
  {
    if TakenTrade(w.market, s).Some? {
      TakenKeeps(w, s);
    } else if s.TradeStep? {
      FailedInvoke(w, s);
      SameTablesKeep(w, Next(w, s));
    } else if s.RelistStep? {
      RelistKeeps(w, s);
    } else if s.StatusStep? {
      StatusStepKeeps(w, s);
    } else {
      SameTablesKeep(w, Next(w, s));
    }
  }

  lemma InitialHolds(w: World)
    requires Initial(w)
    ensures Inv(w)
  {
    forall n ensures StackInvAt(w, n) {
    }
  }

  // Every world of every admissible run satisfies every invariant.
  lemma {:induction false} RunKeeps(worlds: seq<World>, steps: seq<Step>, i: nat)
    requires IsRun(worlds, steps) && i < |worlds|
    ensures Inv(worlds[i])
  {
    if i == 0 {
      InitialHolds(worlds[0]);
    } else {
      RunKeeps(worlds, steps, i - 1);
      StepKeeps(worlds[i - 1], steps[i - 1]);
    }
  }
}
