/**
 A run that brings a name to 5,000,000 sats sale by sale and then asks first for
 more, then for far less: the rebuild advertises more than the running market
 ever may.
 */
module RebuildExamples {
  import opened Domain
  import opened SortedSets
  import opened Tables
  import opened Pricing
  import opened Runs
  import opened MarketTheorems
  import opened Rebuild
  import opened RebuildTotals
  import opened RunExamples

  const TOP: nat := 5_000_000

  // ---------- a ladder of sales, each at the highest permitted price ----------

  // The transaction of rung k, one digit longer than the one before.
  function Tx(k: nat): (tx: TxId)
    ensures |tx| == k + 1
  {
    if k == 0 then FIRST else Tx(k - 1) + "1"
  }

  function Owner(k: nat): Address {
    if k % 2 == 0 then ALICE else BOB
  }

  // In thousands of sats.
  const RUNGS: seq<nat> := [
    60, 75, 94, 118, 148, 186, 234, 294, 370, 466, 587, 739, 931, 1173, 1477, 1861, 2344, 2953, 3720, 4687, 5000]

  function PriceAt(k: nat): nat
    requires k <= 20
  {
    RUNGS[k] * 1000
  }

  function SaleAt(k: nat): Sale
    requires 0 < k <= 20
  {
    Sale(NAME, Tx(k), Owner(k - 1), Owner(k), PriceAt(k - 1), PriceAt(k))
  }

  function HistoryAt(k: nat): seq<TradeRecord>
    requires k <= 20
  {
    if k == 0 then H1() else AddRecord(HistoryAt(k - 1), BuyRecord(SaleAt(k)))
  }

  function KnownAt(k: nat): set<TxId> {
    if k == 0 then K1() else KnownAt(k - 1) + {Tx(k)}
  }

  lemma {:induction false} KnownAreShort(k: nat)
    ensures forall tx :: tx in KnownAt(k) ==> |tx| <= k + 1
  {
    if k > 0 { KnownAreShort(k - 1); }
  }

  lemma PricesClimb(k: nat)
    requires k < 20
    ensures PriceAt(k) >= GLOBAL_MIN_PRICE
    ensures ValidatePrice(PriceAt(k), PriceAt(k + 1)).Success?
  {
    PriceAcceptedIff(PriceAt(k), PriceAt(k + 1));
  }

  // The world k sales after the list.
  ghost predicate Rung(w: World, k: nat)
    requires k <= 20
  {
    Stage(w, Listed(Owner(k), PriceAt(k), Tx(k)), HistoryAt(k), KnownAt(k))
  }

  // What a sale of the ladder asks of the world before it.
  lemma SaleFits(k: nat)
    requires 0 < k <= 20
    ensures
      var s := SaleAt(k);
      && s.tx !in KnownAt(k - 1) && s.seller in Users() && s.buyer in Users()
      && s.price >= GLOBAL_MIN_PRICE && ValidatePrice(s.price, s.newPrice).Success?
  {
    PricesClimb(k - 1);
    KnownAreShort(k - 1);
  }

  // The same for any sale, so that the proof stays clear of the prices.
  lemma SaleOf(w: World, s: Sale, spent: TxId, h: seq<TradeRecord>, known: set<TxId>)
    requires Stage(w, Listed(s.seller, s.price, spent), h, known)
    requires s.name == NAME && s.tx !in known && s.seller in Users() && s.buyer in Users()
    requires s.price >= GLOBAL_MIN_PRICE && ValidatePrice(s.price, s.newPrice).Success?
    ensures Fee(s) <= s.price && Admissible(w, BuyStep(s, spent))
    ensures Stage(Next(w, BuyStep(s, spent)), Listed(s.buyer, s.newPrice, s.tx), AddRecord(h, BuyRecord(s)), known + {s.tx})
  {
    SaleStage(w, h, known, s, spent);
  }

  lemma RungTaken(w: World, k: nat)
    requires 0 < k <= 20 && Rung(w, k - 1)
    ensures
      var s := SaleAt(k);
      && Fee(s) <= s.price && Admissible(w, BuyStep(s, Tx(k - 1)))
      && Rung(Next(w, BuyStep(s, Tx(k - 1))), k)
  {
    SaleFits(k);
    SaleOf(w, SaleAt(k), Tx(k - 1), HistoryAt(k - 1), KnownAt(k - 1));
  }

  lemma FirstRung() returns (worlds: seq<World>, steps: seq<Step>)
    ensures IsRun(worlds, steps) && |steps| == 1 && Rung(worlds[1], 0)
  {
    worlds, steps := ListedRun();
  }

  lemma NextRung(ws: seq<World>, ss: seq<Step>, k: nat) returns (worlds: seq<World>, steps: seq<Step>)
    requires 0 < k <= 20 && IsRun(ws, ss) && |ss| == k && Rung(ws[k], k - 1)
    ensures IsRun(worlds, steps) && |steps| == k + 1 && Rung(worlds[k + 1], k)
  {
    RungTaken(ws[k], k);
    worlds, steps := OneMore(ws, ss, BuyStep(SaleAt(k), Tx(k - 1)));
  }

  lemma {:induction false} LadderRun(k: nat) returns (worlds: seq<World>, steps: seq<Step>)
    requires k <= 20
    ensures IsRun(worlds, steps) && |steps| == k + 1 && Rung(worlds[k + 1], k)
  {
    if k == 0 {
      worlds, steps := FirstRung();
    } else {
      var ws, ss := LadderRun(k - 1);
      worlds, steps := NextRung(ws, ss, k);
    }
  }

  // ---------- relists ----------

  // A world in which the name was last bought for 5,000,000.
  ghost predicate Asking(w: World, seller: Address, price: nat, tx: TxId, h: seq<TradeRecord>, known: set<TxId>) {
    Stage(w, Listed(seller, price, tx), h, known) && LastBoughtPrice(h, NAME) == Some(TOP)
  }

  lemma AskAtTop(w: World, seller: Address, before: nat, tx: TxId, h: seq<TradeRecord>, known: set<TxId>, price: nat)
    requires Asking(w, seller, before, tx, h, known) && ValidatePrice(TOP, price).Success?
    ensures Admissible(w, AskStep(seller, price))
    ensures Asking(
      Next(w, AskStep(seller, price)), seller, price, tx, AddRecord(h, AskRecord(seller, before, price)), known)
  {
    AskStage(w, seller, before, tx, h, known, TOP, price);
    Snoc(h, AskRecord(seller, before, price));
  }

  lemma SoldAtTop(w: World)
    requires Rung(w, 20)
    ensures Asking(w, ALICE, TOP, Tx(20), HistoryAt(20), KnownAt(20))
  {
    Snoc(HistoryAt(19), BuyRecord(SaleAt(20)));
    assert PriceAt(20) == TOP && Owner(20) == ALICE;
  }

  function AskedMore(): seq<TradeRecord> {
    AddRecord(HistoryAt(20), AskRecord(ALICE, TOP, 6_300_000))
  }

  // Sold for 5,000,000 in the end, relisted for 6,300,000.
  lemma AskedRun() returns (worlds: seq<World>, steps: seq<Step>)
    ensures IsRun(worlds, steps) && |steps| == 22 && steps[21] == AskStep(ALICE, 6_300_000)
    ensures Asking(worlds[22], ALICE, 6_300_000, Tx(20), AskedMore(), KnownAt(20))
  {
    var ws, ss := LadderRun(20);
    SoldAtTop(ws[21]);
    AskAtTop(ws[21], ALICE, TOP, Tx(20), HistoryAt(20), KnownAt(20), 6_300_000);
    worlds, steps := OneMore(ws, ss, AskStep(ALICE, 6_300_000));
  }

  // Then relisted for 63,000, both within the band of the last bought price: at
  // most 0.990 while running, 0.992 after a rebuild.
  lemma TooGoodDealFails() returns (worlds: seq<World>, steps: seq<Step>)
    ensures IsRun(worlds, steps) && |steps| == 23
    ensures steps[21] == AskStep(ALICE, 6_300_000) && steps[22] == AskStep(ALICE, 63_000)
    ensures
      var t, running := worlds[23].market.tables, worlds[23].market.rankings.bestDeals.Visible();
      && NAME in t.listings && t.listings[NAME].price == 63_000 && NAME in running
      && running[NAME].discount <= 990
      && RebuiltItem(t.listings[NAME], t.history).discount == 992
  {
    var ws, ss := AskedRun();
    AskAtTop(ws[22], ALICE, 6_300_000, Tx(20), AskedMore(), KnownAt(20), 63_000);
    worlds, steps := OneMore(ws, ss, AskStep(ALICE, 63_000));
    assert steps[..22] == ss && steps[21] == ss[21];
    IndexAgreement(worlds, steps, 23);
    RebuiltDiscount(worlds[23].market.tables, Tx(20), AskedMore());
  }

  lemma RebuiltDiscount(t: Tables, tx: TxId, h: seq<TradeRecord>)
    requires t.listings == Listed(ALICE, 63_000, tx)
    requires t.history == AddRecord(h, AskRecord(ALICE, 6_300_000, 63_000))
    ensures RebuiltItem(t.listings[NAME], t.history).discount == 992
  {
    Snoc(h, AskRecord(ALICE, 6_300_000, 63_000));
    DiscountIs(63_000, 6_300_000);
  }

  // ---------- a seller's total ----------

  lemma SoldTotals(h: seq<TradeRecord>)
    requires h == H2()
    ensures SalesOf(h, ALICE) == 1 && Earned(h, ALICE) == 10_000 && Proceeds(h, ALICE) == 70_000
  {
    Snoc(H1(), BuyRecord(ToBob()));
    Snoc([], FirstRecord());
    assert SalesOf(H1(), ALICE) == 0 && Earned(H1(), ALICE) == 0 && Proceeds(H1(), ALICE) == 0;
  }

  // Listed for 60,000 and sold to Bob, who asks 70,000: the running market shows
  // Alice a profit of 10,000, the rebuild 70,000.
  lemma RebuiltEarnerFails() returns (worlds: seq<World>, steps: seq<Step>)
    ensures IsRun(worlds, steps) && |steps| == 2
    ensures TakenTrade(worlds[1].market, steps[1]) == Some(BuyRecord(ToBob()))
    ensures
      var scores := Scores(worlds[2].market.rankings.topEarners.zset);
      && ALICE in scores && scores[ALICE] == 10_000
      && Proceeds(worlds[2].market.tables.history, ALICE) == 70_000
  {
    worlds, steps := SoldRun();
    SoldTotals(worlds[2].market.tables.history);
    EarnersAgreeIff(worlds, steps, 2, ALICE);
    ProceedsSplit(worlds[2].market.tables.history, ALICE);
  }
}
