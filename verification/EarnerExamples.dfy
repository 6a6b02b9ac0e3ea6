/**
 Two sales of one seller at once, after a run in which she has listed two names:
 the score that is written last is the one that was summed first.
 */
module EarnerExamples {
  import opened Domain
  import opened Tables
  import opened Pricing
  import opened TradingRules
  import opened Runs
  import opened Interleaving
  import opened RunExamples

  const FOURTH: TxId := "4"

  function Both(): map<Name, Listing> {
    map[NAME := Row(NAME, ALICE, 60_000, FIRST), OTHER := Row(OTHER, ALICE, 60_000, SECOND)]
  }

  lemma OtherListed(w: World)
    requires Stage(w, Listed(ALICE, 60_000, FIRST), H1(), K1())
    ensures Admissible(w, ListStep(OTHER, SECOND))
    ensures Stage(
      Next(w, ListStep(OTHER, SECOND)), Both(), AddRecord(H1(), ListRecord(OTHER, SECOND, GLOBAL_MIN_PRICE)), K2())
  {
    Snoc([], FirstRecord());
    NeverBought(w.market.tables, OTHER);
    ListStage(w, Listed(ALICE, 60_000, FIRST), H1(), K1(), OTHER, SECOND, GLOBAL_MIN_PRICE);
    assert Listed(ALICE, 60_000, FIRST)[OTHER := Row(OTHER, ALICE, 60_000, SECOND)] == Both();
  }

  lemma BothListedRun() returns (worlds: seq<World>, steps: seq<Step>)
    ensures IsRun(worlds, steps) && |steps| == 2
    ensures Stage(worlds[2], Both(), AddRecord(H1(), ListRecord(OTHER, SECOND, GLOBAL_MIN_PRICE)), K2())
  {
    var ws, ss := ListedRun();
    OtherListed(ws[1]);
    worlds, steps := OneMore(ws, ss, ListStep(OTHER, SECOND));
  }

  function SaleA(): RunExamples.Sale {
    RunExamples.Sale(NAME, THIRD, ALICE, BOB, 60_000, 70_000)
  }

  function SaleB(): RunExamples.Sale {
    RunExamples.Sale(OTHER, FOURTH, ALICE, CAROL, 60_000, 75_000)
  }

  // Handler 0 records its sale and sums; handler 1 does all of its work; handler
  // 0 writes what it had read.
  function Schedule(): seq<Interleaving.Sale> {
    [AddSale(BuyRecord(SaleA())), ReadSum(0), AddSale(BuyRecord(SaleB())), ReadSum(1), WriteScore(1), WriteScore(0)]
  }

  lemma BothAccepted(t: Tables)
    requires t.listings == Both() && t.users == Users() && t.points == map[] && t.pools == Pools()
    ensures Fee(SaleA()) <= 60_000 && Fee(SaleB()) <= 60_000
    ensures
      var t' := t.(history := AddRecord(t.history, BuyRecord(SaleA())));
      && Check(t, BuyAndRelist, BuyStep(SaleA(), FIRST).q, Answers()) == Success(BuyRecord(SaleA()))
      && Check(t', BuyAndRelist, BuyStep(SaleB(), SECOND).q, Answers()) == Success(BuyRecord(SaleB()))
  {
    SaleAccepted(t, SaleA(), FIRST);
    SaleAccepted(t.(history := AddRecord(t.history, BuyRecord(SaleA()))), SaleB(), SECOND);
  }

  lemma ScheduleRuns(e: Earner, seller: Address)
    ensures
      var h := AddRecord(AddRecord(e.history, BuyRecord(SaleA())), BuyRecord(SaleB()));
      var e' := EarnerRun(e, seller, Schedule());
      e'.history == h && e'.score == Some(Earned(AddRecord(e.history, BuyRecord(SaleA())), seller))
  {
    var a, b := AddSale(BuyRecord(SaleA())), AddSale(BuyRecord(SaleB()));
    ThreeSales(e, seller, a, ReadSum(0), b);
    OneSale(e, seller, [a, ReadSum(0), b], ReadSum(1));
    assert [a, ReadSum(0), b] + [ReadSum(1)] == [a, ReadSum(0), b, ReadSum(1)];
    OneSale(e, seller, [a, ReadSum(0), b, ReadSum(1)], WriteScore(1));
    assert [a, ReadSum(0), b, ReadSum(1)] + [WriteScore(1)] == [a, ReadSum(0), b, ReadSum(1), WriteScore(1)];
    OneSale(e, seller, [a, ReadSum(0), b, ReadSum(1), WriteScore(1)], WriteScore(0));
    assert [a, ReadSum(0), b, ReadSum(1), WriteScore(1)] + [WriteScore(0)] == Schedule();
  }

  lemma EarnedByBoth(h: seq<TradeRecord>)
    requires Earned(h, ALICE) == 0
    ensures Earned(AddRecord(h, BuyRecord(SaleA())), ALICE) == 10_000
    ensures Earned(AddRecord(AddRecord(h, BuyRecord(SaleA())), BuyRecord(SaleB())), ALICE) == 25_000
  {
    Snoc(h, BuyRecord(SaleA()));
    Snoc(AddRecord(h, BuyRecord(SaleA())), BuyRecord(SaleB()));
  }

  lemma NothingEarned()
    ensures Earned(AddRecord(H1(), ListRecord(OTHER, SECOND, GLOBAL_MIN_PRICE)), ALICE) == 0
  {
    Snoc(H1(), ListRecord(OTHER, SECOND, GLOBAL_MIN_PRICE));
    Snoc([], FirstRecord());
    assert Earned(H1(), ALICE) == 0;
  }

  // Alice has earned 25,000 by the two sales, and her score says 10,000.
  lemma EarnerRaceFails() returns (worlds: seq<World>, steps: seq<Step>)
    ensures IsRun(worlds, steps) && |steps| == 2
    ensures Fee(SaleA()) <= 60_000 && Fee(SaleB()) <= 60_000
    ensures
      var m := worlds[2].market;
      var t' := m.tables.(history := AddRecord(m.tables.history, BuyRecord(SaleA())));
      var e' := EarnerRun(EarnerOf(m, ALICE, map[]), ALICE, Schedule());
      && Check(m.tables, BuyAndRelist, BuyStep(SaleA(), FIRST).q, Answers()) == Success(BuyRecord(SaleA()))
      && Check(t', BuyAndRelist, BuyStep(SaleB(), SECOND).q, Answers()) == Success(BuyRecord(SaleB()))
      && e'.score == Some(10_000) && Earned(e'.history, ALICE) == 25_000
  {
    worlds, steps := BothListedRun();
    var m := worlds[2].market;
    BothAccepted(m.tables);
    ScheduleRuns(EarnerOf(m, ALICE, map[]), ALICE);
    NothingEarned();
    EarnedByBoth(m.tables.history);
  }
}
