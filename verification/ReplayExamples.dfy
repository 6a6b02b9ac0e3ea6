/**
 Rejections delivered again late, although the condition one would first write
 down holds: the name is back with its seller at its price, or it is listed.
 */
module ReplayExamples {
  import opened Domain
  import opened Tables
  import opened Pricing
  import opened Validators
  import opened EventHandling
  import opened TradingRules
  import opened Runs
  import opened Invariants
  import opened Acceptance
  import opened Reachability
  import opened MarketTheorems
  import opened RollbackLimits
  import opened RunExamples

  // ---------- stages after a rejection ----------

  lemma RejectedStage(w: World, tx: TxId, ls: map<Name, Listing>, h: seq<TradeRecord>, known: set<TxId>)
    requires Inv(w) && Stage(w, ls, h, known) && Admissible(w, Rejection(tx))
    requires RejectedBy(w.market, Rejection(tx)).Some?
    ensures
      var r := RejectedBy(w.market, Rejection(tx)).value;
      Stage(Next(w, Rejection(tx)), ListingsRestored(ls, r, 0), SetStatus(h, tx, RejectedStatus()), known)
  {
    RestoredRow(w, Rejection(tx));
  }

  // Taking a trade and rejecting it leaves the stack of the name as it was.
  lemma PushedAndPopped(w: World, s: Step, r: TradeRecord)
    requires TakenTrade(w.market, s) == Some(r) && r.txId.Some?
    requires RejectedBy(Next(w, s).market, Rejection(r.txId.value)) == Some(r)
    ensures StackOf(Next(Next(w, s), Rejection(r.txId.value)), r.name) == StackOf(w, r.name)
  {
    TakenEffect(w, s);
    RollbackStacks(Next(w, s), Rejection(r.txId.value));
  }

  // The rejection of the newest trade at the end of a run, with its stage.
  lemma RejectedStageRun(
    ws: seq<World>, ss: seq<Step>, r: TradeRecord, tx: TxId, ls: map<Name, Listing>, h: seq<TradeRecord>,
    known: set<TxId>)
    returns (worlds: seq<World>, steps: seq<Step>)
    requires IsRun(ws, ss) && Stage(ws[|ss|], ls, h, known)
    requires r.txId == Some(tx) && Lookup(h, tx) == Some(r) && TopIs(ws[|ss|], r)
    ensures IsRun(worlds, steps) && |steps| == |ss| + 1
    ensures worlds[..|ws|] == ws && steps[..|ss|] == ss && steps[|ss|] == Rejection(tx)
    ensures RejectedBy(ws[|ss|].market, Rejection(tx)) == Some(r)
    ensures worlds[|steps|] == Next(ws[|ss|], Rejection(tx))
    ensures Stage(worlds[|steps|], ListingsRestored(ls, r, 0), SetStatus(h, tx, RejectedStatus()), known)
  {
    RunKeeps(ws, ss, |ss|);
    RejectedStage(ws[|ss|], tx, ls, h, known);
    worlds, steps := OneMore(ws, ss, Rejection(tx));
  }

  // ---------- a purchase and its list rejected, the name listed again ----------

  function RejectedSale(): TradeRecord {
    BuyRecord(ToBob()).(status := RejectedStatus())
  }

  function H3(): seq<TradeRecord> {
    [FirstRecord(), RejectedSale()]
  }

  function H4(): seq<TradeRecord> {
    [RejectedRecord(), RejectedSale()]
  }

  lemma Statuses()
    ensures SetStatus(H2(), SECOND, RejectedStatus()) == H3()
    ensures SetStatus(H3(), FIRST, RejectedStatus()) == H4()
  {
    SetStatusAt(H2(), SECOND, RejectedStatus(), 0);
    SetStatusAt(H2(), SECOND, RejectedStatus(), 1);
    SetStatusAt(H3(), FIRST, RejectedStatus(), 0);
    SetStatusAt(H3(), FIRST, RejectedStatus(), 1);
  }

  lemma Records()
    ensures Lookup(H3(), FIRST) == Some(FirstRecord())
    ensures LastRecord(H4(), NAME) == Some(RejectedSale()) && LastBoughtPrice(H4(), NAME) == Some(70_000)
    ensures Lookup(AddRecord(H4(), ListRecord(NAME, THIRD, 70_000)), SECOND) == Some(RejectedSale())
  {
    Snoc([FirstRecord()], RejectedSale());
    Snoc([], FirstRecord());
    assert AddRecord([], FirstRecord()) == [FirstRecord()] && AddRecord([FirstRecord()], RejectedSale()) == H3();
    Snoc([RejectedRecord()], RejectedSale());
    assert AddRecord([RejectedRecord()], RejectedSale()) == H4();
    Snoc(H4(), ListRecord(NAME, THIRD, 70_000));
  }

  // List, sale to Bob, the sale rejected: Alice's row carries the sale's id.
  lemma ReturnedRun() returns (worlds: seq<World>, steps: seq<Step>)
    ensures IsRun(worlds, steps) && |steps| == 3
    ensures RejectedBy(worlds[2].market, steps[2]) == Some(BuyRecord(ToBob()))
    ensures Stage(worlds[3], Listed(ALICE, 60_000, SECOND), H3(), K2()) && TopIs(worlds[3], FirstRecord())
  {
    var ws, ss := SoldRun();
    SaleLookups();
    Statuses();
    worlds, steps := RejectedStageRun(ws, ss, BuyRecord(ToBob()), SECOND, Listed(BOB, 70_000, SECOND), H2(), K2());
    assert worlds[..3][2] == ws[2];
    BackToAlice();
    PushedAndPopped(ws[1], ss[1], BuyRecord(ToBob()));
  }

  lemma BackToAlice()
    ensures ListingsRestored(Listed(BOB, 70_000, SECOND), BuyRecord(ToBob()), 0) == Listed(ALICE, 60_000, SECOND)
    ensures ListingsRestored(Listed(ALICE, 60_000, SECOND), FirstRecord(), 0) == map[]
  {
  }

  // Then the list rejected too.
  lemma UndoneRun() returns (worlds: seq<World>, steps: seq<Step>)
    ensures IsRun(worlds, steps) && |steps| == 4
    ensures RejectedBy(worlds[2].market, steps[2]) == Some(BuyRecord(ToBob()))
    ensures RejectedBy(worlds[3].market, steps[3]) == Some(FirstRecord())
    ensures Stage(worlds[4], map[], H4(), K2())
  {
    var ws, ss := ReturnedRun();
    Records();
    Statuses();
    worlds, steps := RejectedStageRun(ws, ss, FirstRecord(), FIRST, Listed(ALICE, 60_000, SECOND), H3(), K2());
    assert worlds[..4][2] == ws[2] && worlds[..4][3] == ws[3] && steps[..3][2] == ss[2];
    BackToAlice();
  }

  // Two rows of a name with different transactions accept no common request.
  lemma NoCommonRequest(t: Tables, t': Tables, action: Action, q: Request, e: Env)
    requires q.name in t.listings && q.name in t'.listings
    requires t.listings[q.name].txId != t'.listings[q.name].txId
    requires !action.List? && Check(t, action, q, e).Success?
    ensures Check(t', action, q, e).Failure?
  {
    OnlySpends(t, action, q, e);
    if Check(t', action, q, e).Success? { OnlySpends(t', action, q, e); }
  }

  lemma OnlySpends(t: Tables, action: Action, q: Request, e: Env)
    requires q.name in t.listings && !action.List? && Check(t, action, q, e).Success?
    ensures Spends(q.psbt, t.listings[q.name])
  {
    var r := Check(t, action, q, e).value;
    if action.Delist? {
      DelistAcceptedIff(t, q, r);
    } else if action.BuyAndRelist? {
      BuyAndRelistAcceptedIff(t, q, e, r);
    } else if action.BuyAndDelist? {
      BuyAndDelistAcceptedIff(t, q, e, r);
    }
  }

  // Listed once more, the name is with its old seller at its old price, so the
  // replayed rejection of the sale leaves the holding as it is; but it puts the
  // sale's transaction into the row, and every delist and purchase that was
  // acceptable before is refused.
  lemma SpoiledIdFails() returns (worlds: seq<World>, steps: seq<Step>)
    ensures IsRun(worlds, steps) && |steps| == 5
    ensures RejectedBy(worlds[2].market, steps[2]) == Some(BuyRecord(ToBob()))
    ensures RejectedBy(worlds[3].market, steps[3]) == Some(FirstRecord())
    ensures worlds[5].market.tables.listings == Listed(ALICE, 60_000, THIRD)
    ensures
      var t, t' := worlds[5].market.tables, RunExamples.Rejected(worlds[5].market, SECOND).tables;
      && t'.listings == Listed(ALICE, 60_000, SECOND)
      && forall action: Action, q: Request, e: Env :: q.name == NAME && !action.List? ==>
           Check(t, action, q, e).Success? ==> Check(t', action, q, e).Failure?
  {
    var ws, ss := UndoneRun();
    worlds, steps := ListedThird(ws, ss);
    ReplayedSale(worlds[5].market);
    var t, t' := worlds[5].market.tables, RunExamples.Rejected(worlds[5].market, SECOND).tables;
    forall action: Action, q: Request, e: Env | q.name == NAME && !action.List? && Check(t, action, q, e).Success?
      ensures Check(t', action, q, e).Failure?
    {
      NoCommonRequest(t, t', action, q, e);
    }
  }

  lemma ListedThird(ws: seq<World>, ss: seq<Step>) returns (worlds: seq<World>, steps: seq<Step>)
    requires IsRun(ws, ss) && |ss| == 4 && Stage(ws[4], map[], H4(), K2())
    ensures IsRun(worlds, steps) && |steps| == 5
    ensures worlds[2] == ws[2] && worlds[3] == ws[3] && steps[2] == ss[2] && steps[3] == ss[3]
    ensures worlds[5].market.tables.listings == Listed(ALICE, 60_000, THIRD)
    ensures worlds[5].market.tables.history == AddRecord(H4(), ListRecord(NAME, THIRD, 70_000))
  {
    Records();
    assert CanList(ws[4].market.tables, NAME, 70_000);
    ListStage(ws[4], map[], H4(), K2(), NAME, THIRD, 70_000);
    worlds, steps := OneMore(ws, ss, ListStep(NAME, THIRD));
    assert worlds[..5][2] == ws[2] && worlds[..5][3] == ws[3] && steps[..4][2] == ss[2] && steps[..4][3] == ss[3];
  }

  lemma ReplayedSale(m: Market)
    requires m.tables.listings == Listed(ALICE, 60_000, THIRD)
    requires m.tables.history == AddRecord(H4(), ListRecord(NAME, THIRD, 70_000))
    ensures RunExamples.Rejected(m, SECOND).tables.listings == Listed(ALICE, 60_000, SECOND)
  {
    Records();
    RowFound(m.tables.history, SECOND);
    var row := Lookup(SetStatus(m.tables.history, SECOND, RejectedStatus()), SECOND).value;
    RowRewritten(m, row);
  }

  lemma RowRewritten(m: Market, row: TradeRecord)
    requires m.tables.listings == Listed(ALICE, 60_000, THIRD) && SameTrade(RejectedSale(), row)
    requires Lookup(SetStatus(m.tables.history, SECOND, RejectedStatus()), SECOND) == Some(row)
    ensures RunExamples.Rejected(m, SECOND).tables.listings == Listed(ALICE, 60_000, SECOND)
  {
    var m1 := m.(tables := m.tables.(history := SetStatus(m.tables.history, SECOND, RejectedStatus())));
    RollbackMarket(m, SECOND, ReeRejected(""), 0, row);
    RejectWrites(m1, row, 0);
    SaleWrites(row);
  }

  lemma SaleWrites(row: TradeRecord)
    requires SameTrade(RejectedSale(), row)
    ensures RejectedListings(Listed(ALICE, 60_000, THIRD), row, 0) == Listed(ALICE, 60_000, SECOND)
  {
    assert row.action.BuyAndRelist? && row.name == NAME && row.txId == Some(SECOND);
    assert row.seller == Some(ALICE) && row.previousPrice == Some(60_000);
    assert !TxTaken(Listed(ALICE, 60_000, THIRD), NAME, SECOND);
  }

  // ---------- a delist rejected, the name relisted ----------

  function DelistStep(): Step {
    var psbt := Psbt(SECOND, [TxIn(OutPoint(FIRST, 0), Some(SATS), None, false)], [TxOut(Some(ALICE), SATS)]);
    TradeStep(Delist, Request(ALICE, Some(POOL), psbt, NAME, ALICE, 0, 0, 0), Answers())
  }

  function DelistRecord(): TradeRecord {
    TradeRecord(
      NAME, ALICE, Delist, Some(SECOND), Pending, Some(ALICE), Some(60_000), Some(60_000), SATS, None, None)
  }

  function D2(): seq<TradeRecord> {
    AddRecord(H1(), DelistRecord())
  }

  function RejectedDelist(): TradeRecord {
    DelistRecord().(status := RejectedStatus())
  }

  function D3(): seq<TradeRecord> {
    [FirstRecord(), RejectedDelist()]
  }

  lemma DelistTaken(w: World)
    requires Stage(w, Listed(ALICE, 60_000, FIRST), H1(), K1())
    ensures Admissible(w, DelistStep()) && TakenTrade(w.market, DelistStep()) == Some(DelistRecord())
  {
    DelistAcceptedIff(w.market.tables, DelistStep().q, DelistRecord());
  }

  lemma DelistRecords()
    ensures Lookup(D2(), SECOND) == Some(DelistRecord())
    ensures SetStatus(D2(), SECOND, RejectedStatus()) == D3()
    ensures LastBoughtPrice(D3(), NAME) == None
    ensures Lookup(AddRecord(D3(), AskRecord(ALICE, 60_000, 65_000)), SECOND) == Some(RejectedDelist())
  {
    Snoc(H1(), DelistRecord());
    SetStatusAt(D2(), SECOND, RejectedStatus(), 0);
    SetStatusAt(D2(), SECOND, RejectedStatus(), 1);
    Snoc([FirstRecord()], RejectedDelist());
    assert AddRecord([FirstRecord()], RejectedDelist()) == D3();
    Snoc([], FirstRecord());
    assert AddRecord([], FirstRecord()) == [FirstRecord()];
    Snoc(D3(), AskRecord(ALICE, 60_000, 65_000));
  }

  lemma DelistedRows()
    ensures ListingsAfter(Listed(ALICE, 60_000, FIRST), DelistRecord(), 0) == map[]
    ensures ListingsRestored(map[], DelistRecord(), 0) == Listed(ALICE, 60_000, SECOND)
  {
  }

  lemma DelistedRun() returns (worlds: seq<World>, steps: seq<Step>)
    ensures IsRun(worlds, steps) && |steps| == 2
    ensures Stage(worlds[2], map[], D2(), K2()) && TopIs(worlds[2], DelistRecord())
  {
    var ws, ss := ListedRun();
    DelistTaken(ws[1]);
    TakenStage(ws[1], Listed(ALICE, 60_000, FIRST), H1(), K1(), DelistStep(), DelistRecord());
    DelistedRows();
    worlds, steps := OneMore(ws, ss, DelistStep());
  }

  lemma RelistedRun() returns (worlds: seq<World>, steps: seq<Step>)
    ensures IsRun(worlds, steps) && |steps| == 4
    ensures RejectedBy(worlds[2].market, steps[2]) == Some(DelistRecord())
    ensures Stage(
      worlds[4], Listed(ALICE, 65_000, SECOND), AddRecord(D3(), AskRecord(ALICE, 60_000, 65_000)), K2())
  {
    var ws, ss := DelistedRun();
    DelistRecords();
    DelistedRows();
    var ws1, ss1 := RejectedStageRun(ws, ss, DelistRecord(), SECOND, map[], D2(), K2());
    assert ws1[..3][2] == ws[2];
    AskStage(ws1[3], ALICE, 60_000, SECOND, D3(), K2(), GLOBAL_MIN_PRICE, 65_000);
    worlds, steps := OneMore(ws1, ss1, AskStep(ALICE, 65_000));
    assert worlds[..4][2] == ws1[2] && steps[..3][2] == ss1[2];
  }

  // The name is listed, so the replayed rejection of the delist writes no row;
  // best_deals goes back to the old price all the same.
  lemma StaleDealFails() returns (worlds: seq<World>, steps: seq<Step>)
    ensures IsRun(worlds, steps) && |steps| == 4
    ensures RejectedBy(worlds[2].market, steps[2]) == Some(DelistRecord())
    ensures
      var m, m' := worlds[4].market, RunExamples.Rejected(worlds[4].market, SECOND);
      && m.tables.listings == Listed(ALICE, 65_000, SECOND) == m'.tables.listings
      && DealsAgree(m.tables.listings, m.rankings.bestDeals)
      && !DealsAgree(m'.tables.listings, m'.rankings.bestDeals)
  {
    worlds, steps := RelistedRun();
    RunKeeps(worlds, steps, 4);
    ReplayedDelist(worlds[4].market);
  }

  lemma ReplayedDelist(m: Market)
    requires m.tables.listings == Listed(ALICE, 65_000, SECOND) && DealsAgree(m.tables.listings, m.rankings.bestDeals)
    requires m.tables.history == AddRecord(D3(), AskRecord(ALICE, 60_000, 65_000))
    ensures
      var m' := RunExamples.Rejected(m, SECOND);
      m'.tables.listings == m.tables.listings && !DealsAgree(m'.tables.listings, m'.rankings.bestDeals)
  {
    DelistRecords();
    RowFound(m.tables.history, SECOND);
    var h := SetStatus(m.tables.history, SECOND, RejectedStatus());
    RollbackMarket(m, SECOND, ReeRejected(""), 0, Lookup(h, SECOND).value);
    StaleDeal(m.(tables := m.tables.(history := h)), Lookup(h, SECOND).value);
  }

  lemma StaleDeal(m: Market, row: TradeRecord)
    requires m.tables.listings == Listed(ALICE, 65_000, SECOND) && DealsAgree(m.tables.listings, m.rankings.bestDeals)
    requires SameTrade(RejectedDelist(), row)
    ensures
      var m' := HandleRejected(m, row, 0);
      m'.tables.listings == m.tables.listings && !DealsAgree(m'.tables.listings, m'.rankings.bestDeals)
  {
    assert row.action.Delist? && row.name == NAME && row.previousPrice == Some(60_000);
    ReplayHarmlessIff(m, row, 0);
    RollbackIndexIff(m, row, 0);
  }
}
