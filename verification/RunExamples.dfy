/**
 Concrete runs. They show that the guards of a run can be met, and they reach
 the states in which the code misses what one would expect of it.
 */
module RunExamples {
  import opened Domain
  import opened SortedSets
  import opened Rankings
  import opened Tables
  import opened Pricing
  import opened EventHandling
  import opened TradingRules
  import opened Runs
  import opened Invariants
  import opened Acceptance
  import opened TradePreservation
  import opened Reachability
  import opened MarketTheorems
  import opened RollbackLimits
  import opened Rebuild

  const NAME: Name := "n"
  const OTHER: Name := "o"
  const ALICE: Address := "a"
  const BOB: Address := "b"
  const CAROL: Address := "c"
  const POOL: Address := "p"
  const COLLECTOR: Address := "f"
  const FIRST: TxId := "1"
  const SECOND: TxId := "2"
  const THIRD: TxId := "3"
  const SATS: nat := 546

  // ---------- requests ----------

  function Answers(): Env {
    Env(0, COLLECTOR, Some(RuneInfo(ALICE, FINALIZE_THRESHOLD, "i")), Some({"i"}), Some(5_000), true, true)
  }

  // The inscriptions of both names were outputs of one transaction.
  function Origin(n: Name): OutPoint {
    OutPoint("0", if n == NAME then 0 else 1)
  }

  function ListStep(n: Name, tx: TxId): Step {
    var psbt := Psbt(tx, [TxIn(Origin(n), Some(SATS), None, true)], [TxOut(Some(POOL), SATS)]);
    TradeStep(List, Request(ALICE, Some(POOL), psbt, n, ALICE, 60_000, 0, 0), Answers())
  }

  function ListRecord(n: Name, tx: TxId, base: nat): TradeRecord {
    TradeRecord(n, ALICE, List, Some(tx), Pending, Some(ALICE), Some(base), Some(60_000), SATS, None, None)
  }

  // The first listing of the name.
  function FirstRecord(): TradeRecord {
    ListRecord(NAME, FIRST, GLOBAL_MIN_PRICE)
  }

  // A sale of the listed output, without discounts on the fee.
  datatype Sale = Sale(name: Name, tx: TxId, seller: Address, buyer: Address, price: nat, newPrice: nat)

  function Fee(s: Sale): nat {
    FeeAtLevels(s.price, 0, 0)
  }

  function BuyStep(s: Sale, spent: TxId): Step
    requires Fee(s) <= s.price
  {
    var psbt := Psbt(
      s.tx, [TxIn(OutPoint(spent, 0), Some(SATS), None, false)],
      [TxOut(Some(POOL), SATS), TxOut(Some(s.seller), s.price - Fee(s)), TxOut(Some(COLLECTOR), Fee(s))]);
    TradeStep(
      BuyAndRelist,
      Request(s.buyer, Some(POOL), psbt, s.name, s.buyer, s.newPrice, s.price - Fee(s), Fee(s)), Answers())
  }

  function BuyRecord(s: Sale): TradeRecord {
    TradeRecord(
      s.name, s.buyer, BuyAndRelist, Some(s.tx), Pending, Some(s.seller), Some(s.price), Some(s.newPrice), SATS,
      Some(s.buyer), Some(Fee(s)))
  }

  // The seller asks for another price.
  function AskStep(seller: Address, price: nat): Step {
    RelistStep(seller, NAME, price, Answers())
  }

  function AskRecord(seller: Address, before: nat, price: nat): TradeRecord {
    TradeRecord(NAME, seller, Relist, None, Finalized, Some(seller), Some(before), Some(price), SATS, None, None)
  }

  function Rejection(tx: TxId): Step {
    StatusStep(tx, ReeRejected(""), 0)
  }

  // ---------- stages of a run ----------

  function Users(): map<Address, Option<Name>> {
    map[ALICE := None, BOB := None, CAROL := None]
  }

  function Pools(): map<Name, Address> {
    map[NAME := POOL, OTHER := POOL]
  }

  // The tables of a world whose users have no primary names, and the
  // transactions it knows, each of which starts with an inscription output.
  ghost predicate Stage(w: World, listings: map<Name, Listing>, h: seq<TradeRecord>, known: set<TxId>) {
    && w.market.tables == Tables(listings, h, Users(), map[], Pools(), None)
    && w.chain.Keys == known
    && forall tx :: tx in w.chain ==> w.chain[tx] != [] && w.chain[tx][0].value == SATS
  }

  function Start(): World {
    World(
      Market(Tables(map[], [], Users(), map[], Pools(), None), EmptyRankings(), []), map[], map[], 0)
  }

  function Row(n: Name, seller: Address, price: nat, tx: TxId): Listing {
    Listing(n, seller, price, tx, SATS, 0)
  }

  function Listed(seller: Address, price: nat, tx: TxId): map<Name, Listing> {
    map[NAME := Row(NAME, seller, price, tx)]
  }

  // What a list needs of the tables: a base that permits 60,000 and a name that
  // has not just been taken out.
  ghost predicate CanList(t: Tables, n: Name, base: nat) {
    && t.pools == Pools() && n in Pools()
    && PreviousPrice(t, n, Answers()) == Some(base) && ValidatePrice(base, 60_000).Success?
    && (LastRecord(t.history, n).Some? ==> !LastRecord(t.history, n).value.action.IsExit())
  }

  lemma NeverBought(t: Tables, n: Name)
    requires t.pools == Pools() && n in Pools() && LastBoughtPrice(t.history, n).None?
    requires LastRecord(t.history, n).Some? ==> !LastRecord(t.history, n).value.action.IsExit()
    ensures CanList(t, n, GLOBAL_MIN_PRICE)
  {
  }

  lemma ListAccepted(t: Tables, n: Name, tx: TxId, base: nat)
    requires CanList(t, n, base)
    ensures Check(t, List, ListStep(n, tx).q, Answers()) == Success(ListRecord(n, tx, base))
  {
    assert HoldsInscription(t, ListStep(n, tx).q, Answers());
    ListAcceptedIff(t, ListStep(n, tx).q, Answers(), ListRecord(n, tx, base));
  }

  lemma ListTaken(w: World, ls: map<Name, Listing>, h: seq<TradeRecord>, known: set<TxId>, n: Name, tx: TxId, base: nat)
    requires Stage(w, ls, h, known) && tx !in known && "0" !in known && n !in ls
    requires CanList(w.market.tables, n, base)
    ensures Admissible(w, ListStep(n, tx))
    ensures TakenTrade(w.market, ListStep(n, tx)) == Some(ListRecord(n, tx, base))
  {
    ListAccepted(w.market.tables, n, tx, base);
  }

  // What a sale needs of the tables.
  ghost predicate CanSell(t: Tables, s: Sale, spent: TxId) {
    && t.pools == Pools() && s.name in Pools() && t.users == Users() && t.points == map[]
    && s.name in t.listings && t.listings[s.name] == Row(s.name, s.seller, s.price, spent)
    && s.seller in Users() && s.buyer in Users() && s.price >= GLOBAL_MIN_PRICE
    && ValidatePrice(s.price, s.newPrice).Success?
  }

  lemma SaleAccepted(t: Tables, s: Sale, spent: TxId)
    requires CanSell(t, s, spent)
    ensures Fee(s) <= s.price
    ensures Check(t, BuyAndRelist, BuyStep(s, spent).q, Answers()) == Success(BuyRecord(s))
  {
    FeeWithinBounds(s.price, 0, 0);
    BuyAndRelistAcceptedIff(t, BuyStep(s, spent).q, Answers(), BuyRecord(s));
  }

  lemma BuyTaken(w: World, h: seq<TradeRecord>, known: set<TxId>, s: Sale, spent: TxId)
    requires Stage(w, Listed(s.seller, s.price, spent), h, known) && s.tx !in known && s.name == NAME
    requires s.seller in Users() && s.buyer in Users() && s.price >= GLOBAL_MIN_PRICE
    requires ValidatePrice(s.price, s.newPrice).Success?
    ensures Fee(s) <= s.price
    ensures Admissible(w, BuyStep(s, spent))
    ensures TakenTrade(w.market, BuyStep(s, spent)) == Some(BuyRecord(s))
  {
    SaleAccepted(w.market.tables, s, spent);
  }

  lemma TakenTables(w: World, s: Step, r: TradeRecord)
    requires TakenTrade(w.market, s) == Some(r) && Shape(r) && !r.action.Relist?
    requires !TxTaken(w.market.tables.listings, r.name, r.txId.value)
    requires r.action.List? ==> r.name !in w.market.tables.listings
    requires w.market.tables.points == map[] && w.market.tables.users == Users()
    ensures Next(w, s).market.tables == w.market.tables.(
      history := AddRecord(w.market.tables.history, r),
      listings := ListingsAfter(w.market.tables.listings, r, s.e.now))
  {
    var t := w.market.tables;
    var m1 := w.market.(tables := t.(history := AddRecord(t.history, r)));
    TakenEffect(w, s);
    PendingTables(m1, r, s.e.now);
    NoPoints(m1.tables, r);
  }

  // Users without primary names earn no points.
  lemma NoPoints(t: Tables, r: TradeRecord)
    requires t.points == map[] && t.users == Users()
    ensures AddSellerPoints(t, r).points == map[]
  {
  }

  lemma StageAfter(
    w: World, w': World, listings: map<Name, Listing>, h: seq<TradeRecord>, known: set<TxId>,
    r: TradeRecord, outs: seq<TxOut>, now: int)
    requires Stage(w, listings, h, known) && r.txId.Some?
    requires w'.market.tables == w.market.tables.(
      history := AddRecord(h, r), listings := ListingsAfter(listings, r, now))
    requires w'.chain == w.chain[r.txId.value := outs] && outs != [] && outs[0].value == SATS
    ensures Stage(w', ListingsAfter(listings, r, now), AddRecord(h, r), known + {r.txId.value})
  {
  }

  // The stage after any taken trade.
  lemma TakenStage(w: World, listings: map<Name, Listing>, h: seq<TradeRecord>, known: set<TxId>, s: Step, r: TradeRecord)
    requires Stage(w, listings, h, known) && TakenTrade(w.market, s) == Some(r)
    requires Shape(r) && !r.action.Relist? && (r.action.List? ==> r.name !in listings)
    requires r.txId == Some(s.q.psbt.txId) && !TxTaken(listings, r.name, r.txId.value)
    requires s.q.psbt.outputs != [] && s.q.psbt.outputs[0].value == SATS
    ensures Stage(Next(w, s), ListingsAfter(listings, r, s.e.now), AddRecord(h, r), known + {r.txId.value})
    ensures TopIs(Next(w, s), r)
  {
    TakenTables(w, s, r);
    TakenEffect(w, s);
    StageAfter(w, Next(w, s), listings, h, known, r, s.q.psbt.outputs, s.e.now);
  }

  ghost predicate TopIs(w: World, r: TradeRecord) {
    var st := StackOf(w, r.name);
    st != [] && st[|st| - 1].record == r
  }

  // ---------- building runs ----------

  // One more admissible step at the end of a run.
  lemma OneMore(worlds: seq<World>, steps: seq<Step>, t: Step)
    returns (worlds': seq<World>, steps': seq<Step>)
    requires IsRun(worlds, steps) && Admissible(worlds[|steps|], t)
    ensures IsRun(worlds', steps') && |steps'| == |steps| + 1
    ensures worlds'[..|worlds|] == worlds && steps'[..|steps|] == steps
    ensures steps'[|steps|] == t && worlds'[|steps'|] == Next(worlds[|steps|], t)
  {
    Extend(worlds, steps, t);
    worlds', steps' := worlds + [Next(worlds[|steps|], t)], steps + [t];
  }

  // A world in which a name has just been listed.
  ghost predicate ListedAt(
    w: World, w': World, ls: map<Name, Listing>, h: seq<TradeRecord>, known: set<TxId>, n: Name, tx: TxId, base: nat)
  {
    && Admissible(w, ListStep(n, tx)) && w' == Next(w, ListStep(n, tx))
    && TakenTrade(w.market, ListStep(n, tx)) == Some(ListRecord(n, tx, base))
    && Stage(w', ls[n := Row(n, ALICE, 60_000, tx)], AddRecord(h, ListRecord(n, tx, base)), known + {tx})
    && TopIs(w', ListRecord(n, tx, base))
  }

  lemma ListStage(w: World, ls: map<Name, Listing>, h: seq<TradeRecord>, known: set<TxId>, n: Name, tx: TxId, base: nat)
    requires Stage(w, ls, h, known) && tx !in known && "0" !in known && n !in ls && !TxTaken(ls, n, tx)
    requires CanList(w.market.tables, n, base)
    ensures ListedAt(w, Next(w, ListStep(n, tx)), ls, h, known, n, tx, base)
  {
    ListTaken(w, ls, h, known, n, tx, base);
    TakenStage(w, ls, h, known, ListStep(n, tx), ListRecord(n, tx, base));
    assert ListingsAfter(ls, ListRecord(n, tx, base), 0) == ls[n := Row(n, ALICE, 60_000, tx)];
  }

  lemma EmptyRun()
    ensures IsRun([Start()], []) && Stage(Start(), map[], [], {})
  {
  }

  function H1(): seq<TradeRecord> {
    AddRecord([], FirstRecord())
  }

  function K1(): set<TxId> {
    {} + {FIRST}
  }

  // A name is listed.
  lemma ListedRun() returns (worlds: seq<World>, steps: seq<Step>)
    ensures IsRun(worlds, steps) && |steps| == 1
    ensures TakenTrade(worlds[0].market, steps[0]) == Some(FirstRecord())
    ensures Stage(worlds[1], Listed(ALICE, 60_000, FIRST), H1(), K1())
    ensures TopIs(worlds[1], FirstRecord())
  {
    EmptyRun();
    NeverBought(Start().market.tables, NAME);
    ListStage(Start(), map[], [], {}, NAME, FIRST, GLOBAL_MIN_PRICE);
    worlds, steps := OneMore([Start()], [], ListStep(NAME, FIRST));
    assert worlds[..1][0] == Start();
  }

  // Listed, then sold to Bob.
  function ToBob(): Sale {
    Sale(NAME, SECOND, ALICE, BOB, 60_000, 70_000)
  }

  function ToCarol(): Sale {
    Sale(NAME, THIRD, BOB, CAROL, 70_000, 80_000)
  }

  // A world in which s has just been taken.
  ghost predicate SoldAt(w: World, w': World, t: Step, h: seq<TradeRecord>, known: set<TxId>, s: Sale) {
    && Admissible(w, t) && w' == Next(w, t)
    && TakenTrade(w.market, t) == Some(BuyRecord(s))
    && Stage(w', Listed(s.buyer, s.newPrice, s.tx), AddRecord(h, BuyRecord(s)), known + {s.tx})
    && TopIs(w', BuyRecord(s))
  }

  lemma SaleListings(s: Sale, spent: TxId)
    requires s.name == NAME
    ensures ListingsAfter(Listed(s.seller, s.price, spent), BuyRecord(s), 0) == Listed(s.buyer, s.newPrice, s.tx)
  {
  }

  lemma SaleStage(w: World, h: seq<TradeRecord>, known: set<TxId>, s: Sale, spent: TxId)
    requires Stage(w, Listed(s.seller, s.price, spent), h, known)
    requires s.name == NAME && s.tx !in known && s.seller in Users() && s.buyer in Users()
    requires s.price >= GLOBAL_MIN_PRICE && ValidatePrice(s.price, s.newPrice).Success?
    ensures Fee(s) <= s.price && SoldAt(w, Next(w, BuyStep(s, spent)), BuyStep(s, spent), h, known, s)
  {
    BuyTaken(w, h, known, s, spent);
    TakenStage(w, Listed(s.seller, s.price, spent), h, known, BuyStep(s, spent), BuyRecord(s));
    SaleListings(s, spent);
  }

  // The rejection of the newest trade at the end of a run.
  lemma RejectedRun(worlds: seq<World>, steps: seq<Step>, r: TradeRecord)
    returns (worlds': seq<World>, steps': seq<Step>)
    requires IsRun(worlds, steps) && r.txId.Some?
    requires Lookup(worlds[|steps|].market.tables.history, r.txId.value) == Some(r)
    requires StackOf(worlds[|steps|], r.name) != []
    requires var st := StackOf(worlds[|steps|], r.name); st[|st| - 1].record.txId == r.txId
    ensures IsRun(worlds', steps') && |steps'| == |steps| + 1
    ensures worlds'[..|worlds|] == worlds && steps'[..|steps|] == steps
    ensures steps'[|steps|] == Rejection(r.txId.value)
    ensures RejectedBy(worlds[|steps|].market, steps'[|steps|]) == Some(r)
    ensures worlds'[|steps'|].market == HandleStatusChange(worlds[|steps|].market, r.txId.value, ReeRejected(""), 0)
    ensures worlds'[|steps'|].chain == worlds[|steps|].chain
  {
    worlds', steps' := OneMore(worlds, steps, Rejection(r.txId.value));
  }

  // A list that is taken and then rejected is a run, so the preconditions of
  // the rollback theorem can be met.
  lemma RollbackRunExists() returns (worlds: seq<World>, steps: seq<Step>)
    ensures IsRun(worlds, steps) && |steps| == 2
    ensures TakenTrade(worlds[0].market, steps[0]) == Some(FirstRecord())
    ensures HoldingOf(worlds[1].market.tables.listings, NAME) == Some(Holding(ALICE, 60_000, SATS))
    ensures RejectedBy(worlds[1].market, steps[1]) == Some(FirstRecord())
    ensures HoldingOf(worlds[2].market.tables.listings, NAME) == None
  {
    var ws, ss := ListedRun();
    Snoc([], FirstRecord());
    worlds, steps := RejectedRun(ws, ss, FirstRecord());
    assert worlds[..2] == ws && steps[..1] == ss;
    assert worlds[0] == ws[0] && worlds[1] == ws[1] && steps[0] == ss[0];
    RecordsOwn(ws, ss, 1, FirstRecord());
    StatusRejects(worlds[1].market, FIRST, "", 0);
  }

  lemma RecordsOwn(worlds: seq<World>, steps: seq<Step>, i: nat, r: TradeRecord)
    requires IsRun(worlds, steps) && i < |worlds| && r.txId.Some?
    requires Lookup(worlds[i].market.tables.history, r.txId.value) == Some(r)
    ensures OwnId(worlds[i].market, r)
  {
    RunKeeps(worlds, steps, i);
    RecordsOwnTheirIds(worlds[i].market, r);
  }

  // A relist is judged by its base, whatever was asked meanwhile.
  lemma AskTaken(t: Tables, seller: Address, before: nat, tx: TxId, base: nat, price: nat)
    requires t.listings == Listed(seller, before, tx) && PreviousPrice(t, NAME, Answers()) == Some(base)
    requires ValidatePrice(base, price).Success?
    ensures CheckRelist(t, seller, NAME, price, Answers()) == Success(AskRecord(seller, before, price))
  {
    RelistAcceptedIff(t, seller, NAME, price, Answers());
  }

  lemma AskedTables(m: Market, seller: Address, before: nat, tx: TxId, base: nat, price: nat)
    requires m.tables.listings == Listed(seller, before, tx)
    ensures RelistEffect(m, AskRecord(seller, before, price), base).tables == m.tables.(
      history := AddRecord(m.tables.history, AskRecord(seller, before, price)),
      listings := Listed(seller, price, tx))
  {
    assert UpdatePrice(Listed(seller, before, tx), NAME, price) == Listed(seller, price, tx);
  }

  lemma AskStage(
    w: World, seller: Address, before: nat, tx: TxId, h: seq<TradeRecord>, known: set<TxId>, base: nat, price: nat)
    requires Stage(w, Listed(seller, before, tx), h, known)
    requires PreviousPrice(w.market.tables, NAME, Answers()) == Some(base) && ValidatePrice(base, price).Success?
    ensures Admissible(w, AskStep(seller, price))
    ensures Stage(
      Next(w, AskStep(seller, price)), Listed(seller, price, tx), AddRecord(h, AskRecord(seller, before, price)), known)
  {
    AskTaken(w.market.tables, seller, before, tx, base, price);
    RelistWorld(w, AskStep(seller, price), AskRecord(seller, before, price), base);
    AskedTables(w.market, seller, before, tx, base, price);
  }

  // ---------- rejections in the wrong order ----------

  function Rejected(m: Market, tx: TxId): Market {
    HandleStatusChange(m, tx, ReeRejected(""), 0)
  }

  function RejectedStatus(): Status {
    Status.Rejected
  }

  function H2(): seq<TradeRecord> {
    AddRecord(H1(), BuyRecord(ToBob()))
  }

  function K2(): set<TxId> {
    K1() + {SECOND}
  }

  // List, sale to Bob.
  lemma SoldRun() returns (worlds: seq<World>, steps: seq<Step>)
    ensures IsRun(worlds, steps) && |steps| == 2
    ensures TakenTrade(worlds[1].market, steps[1]) == Some(BuyRecord(ToBob()))
    ensures worlds[1].market.tables.listings == Listed(ALICE, 60_000, FIRST)
    ensures Stage(worlds[2], Listed(BOB, 70_000, SECOND), H2(), K2())
    ensures TopIs(worlds[1], FirstRecord()) && TopIs(worlds[2], BuyRecord(ToBob()))
  {
    var ws, ss := ListedRun();
    SaleStage(ws[1], H1(), K1(), ToBob(), FIRST);
    worlds, steps := OneMore(ws, ss, BuyStep(ToBob(), FIRST));
    assert worlds[..2] == ws && worlds[1] == ws[1];
  }

  lemma CarolBuys(w: World)
    requires Stage(w, Listed(BOB, 70_000, SECOND), H2(), K2())
    ensures Fee(ToCarol()) <= 70_000 && Admissible(w, BuyStep(ToCarol(), SECOND))
    ensures TakenTrade(w.market, BuyStep(ToCarol(), SECOND)) == Some(BuyRecord(ToCarol()))
    ensures
      var t := Next(w, BuyStep(ToCarol(), SECOND)).market.tables;
      t.listings == Listed(CAROL, 80_000, THIRD) && t.history == AddRecord(H2(), BuyRecord(ToCarol()))
  {
    SaleStage(w, H2(), K2(), ToCarol(), SECOND);
  }

  // List, sale to Bob, sale to Carol.
  lemma ResoldRun() returns (worlds: seq<World>, steps: seq<Step>)
    ensures IsRun(worlds, steps) && |steps| == 3
    ensures TakenTrade(worlds[1].market, steps[1]) == Some(BuyRecord(ToBob()))
    ensures TakenTrade(worlds[2].market, steps[2]) == Some(BuyRecord(ToCarol()))
    ensures worlds[1].market.tables.listings == Listed(ALICE, 60_000, FIRST)
    ensures worlds[3].market.tables.listings == Listed(CAROL, 80_000, THIRD)
    ensures worlds[3].market.tables.history == AddRecord(H2(), BuyRecord(ToCarol()))
  {
    var ws, ss := SoldRun();
    CarolBuys(ws[2]);
    worlds, steps := OneMore(ws, ss, BuyStep(ToCarol(), SECOND));
    assert worlds[..3][1] == ws[1] && worlds[..3][2] == ws[2] && steps[..2][1] == ss[1];
  }

  lemma SaleLookups()
    ensures Lookup(H2(), SECOND) == Some(BuyRecord(ToBob()))
    ensures
      var h := AddRecord(H2(), BuyRecord(ToCarol()));
      Lookup(h, SECOND) == Some(BuyRecord(ToBob())) && Lookup(h, THIRD) == Some(BuyRecord(ToCarol()))
  {
    LookupAfter(H1(), BuyRecord(ToBob()), SECOND);
    LookupAfter(H2(), BuyRecord(ToCarol()), SECOND);
    LookupAfter(H2(), BuyRecord(ToCarol()), THIRD);
  }

  // The second of two rejections, through the status handler.
  lemma RejectSecond(m: Market, m1: Market, first: TxId, second: TradeRecord)
    requires second.txId.Some? && Lookup(m.tables.history, second.txId.value) == Some(second) && OwnId(m, second)
    requires m1.tables.history == SetStatus(m.tables.history, first, RejectedStatus())
    requires m1.tables.listings - {second.name} == m.tables.listings - {second.name}
    ensures HoldingOf(Rejected(m1, second.txId.value).tables.listings, second.name) ==
      Rejecting(HoldingOf(m1.tables.listings, second.name), second)
  {
    RowFoundUnder(m.tables.history, first, second);
    StillOwn(m, m1, second.name, second);
    StatusRejects(m1, second.txId.value, "", 0);
  }

  lemma RowFoundUnder(h: seq<TradeRecord>, first: TxId, second: TradeRecord)
    requires second.txId.Some? && Lookup(h, second.txId.value) == Some(second)
    ensures
      var row := Lookup(SetStatus(h, first, RejectedStatus()), second.txId.value);
      row.Some? && SameTrade(second, row.value)
      && forall held :: Rejecting(held, row.value) == Rejecting(held, second)
  {
    StatusKeepsRows(h, first, RejectedStatus(), second.txId.value, "");
  }

  // A market with the history of both sales in which the records own their ids.
  ghost predicate Resold(m: Market) {
    && m.tables.listings == Listed(CAROL, 80_000, THIRD)
    && m.tables.history == AddRecord(H2(), BuyRecord(ToCarol()))
    && OwnId(m, BuyRecord(ToBob())) && OwnId(m, BuyRecord(ToCarol()))
  }

  lemma NewestFirst(m: Market)
    requires Resold(m)
    ensures HoldingOf(Rejected(Rejected(m, THIRD), SECOND).tables.listings, NAME) == Some(Holding(ALICE, 60_000, SATS))
  {
    SaleLookups();
    StatusRejects(m, THIRD, "", 0);
    RejectSecond(m, Rejected(m, THIRD), THIRD, BuyRecord(ToBob()));
  }

  lemma OldestFirst(m: Market)
    requires Resold(m)
    ensures HoldingOf(Rejected(Rejected(m, SECOND), THIRD).tables.listings, NAME) == Some(Holding(BOB, 70_000, SATS))
  {
    SaleLookups();
    StatusRejects(m, SECOND, "", 0);
    RejectSecond(m, Rejected(m, SECOND), SECOND, BuyRecord(ToCarol()));
  }

  // After two sales in a row whose rejections the poller handles oldest first,
  // the name stays with Bob, although neither sale went through; newest first
  // returns it to Alice.
  lemma OutOfOrderFails() returns (worlds: seq<World>, steps: seq<Step>)
    ensures IsRun(worlds, steps) && |steps| == 3
    ensures TakenTrade(worlds[1].market, steps[1]) == Some(BuyRecord(ToBob()))
    ensures TakenTrade(worlds[2].market, steps[2]) == Some(BuyRecord(ToCarol()))
    ensures worlds[1].market.tables.listings == Listed(ALICE, 60_000, FIRST)
    ensures HoldingOf(Rejected(Rejected(worlds[3].market, THIRD), SECOND).tables.listings, NAME) ==
      Some(Holding(ALICE, 60_000, SATS))
    ensures HoldingOf(Rejected(Rejected(worlds[3].market, SECOND), THIRD).tables.listings, NAME) ==
      Some(Holding(BOB, 70_000, SATS))
  {
    worlds, steps := ResoldRun();
    ResoldHolds(worlds, steps);
    NewestFirst(worlds[3].market);
    OldestFirst(worlds[3].market);
  }

  lemma ResoldHolds(worlds: seq<World>, steps: seq<Step>)
    requires IsRun(worlds, steps) && |steps| == 3
    requires worlds[3].market.tables.listings == Listed(CAROL, 80_000, THIRD)
    requires worlds[3].market.tables.history == AddRecord(H2(), BuyRecord(ToCarol()))
    ensures Resold(worlds[3].market)
  {
    SaleLookups();
    RecordsOwn(worlds, steps, 3, BuyRecord(ToBob()));
    RecordsOwn(worlds, steps, 3, BuyRecord(ToCarol()));
  }

  // ---------- a rejection delivered again ----------

  function RejectedRecord(): TradeRecord {
    FirstRecord().(status := RejectedStatus())
  }

  lemma RejectedListRun() returns (worlds: seq<World>, steps: seq<Step>)
    ensures IsRun(worlds, steps) && |steps| == 2
    ensures RejectedBy(worlds[1].market, steps[1]) == Some(FirstRecord())
    ensures Stage(worlds[2], map[], [RejectedRecord()], K1())
  {
    var ws, ss := ListedRun();
    Snoc([], FirstRecord());
    worlds, steps := RejectedRun(ws, ss, FirstRecord());
    assert worlds[..2] == ws && worlds[1] == ws[1];
    ListRollback(ws[1].market, FirstRecord());
    OneStatus(FirstRecord());
    assert Listed(ALICE, 60_000, FIRST) - {NAME} == map[];
  }

  lemma OneStatus(r: TradeRecord)
    requires r.txId.Some?
    ensures SetStatus([r], r.txId.value, RejectedStatus()) == [r.(status := RejectedStatus())]
  {
    assert [r] == AddRecord([], r);
  }

  lemma ListRollback(m: Market, r: TradeRecord)
    requires m.tables.history == [r] && r.action.List? && r.txId.Some?
    ensures Rejected(m, r.txId.value).tables == m.tables.(
      history := SetStatus([r], r.txId.value, RejectedStatus()), listings := m.tables.listings - {r.name})
  {
    OneStatus(r);
  }

  // A list is rejected and the name listed again; the replayed rejection of the
  // first list then removes the second listing.
  lemma ReplayFails() returns (worlds: seq<World>, steps: seq<Step>)
    ensures IsRun(worlds, steps) && |steps| == 3
    ensures RejectedBy(worlds[1].market, steps[1]) == Some(FirstRecord())
    ensures TakenTrade(worlds[2].market, steps[2]) == Some(ListRecord(NAME, SECOND, GLOBAL_MIN_PRICE))
    ensures worlds[3].market.tables.listings == Listed(ALICE, 60_000, SECOND)
    ensures HoldingOf(Rejected(worlds[3].market, FIRST).tables.listings, NAME) == None
  {
    var ws, ss := RejectedListRun();
    NeverBought(ws[2].market.tables, NAME);
    ListStage(ws[2], map[], [RejectedRecord()], K1(), NAME, SECOND, GLOBAL_MIN_PRICE);
    worlds, steps := OneMore(ws, ss, ListStep(NAME, SECOND));
    assert worlds[..3] == ws && steps[..2] == ss;
    assert worlds[1] == ws[1] && worlds[2] == ws[2] && steps[1] == ss[1];
    LookupAfter([RejectedRecord()], ListRecord(NAME, SECOND, GLOBAL_MIN_PRICE), FIRST);
    RecordsOwn(worlds, steps, 3, RejectedRecord());
    StatusRejects(worlds[3].market, FIRST, "", 0);
  }

  // ---------- the new-listings stream ----------

  // Listed, sold to Bob, the sale rejected: Redis ranks the name as a new
  // listing, a subscriber who has folded every delta does not show it.
  lemma NewListingsDeltaFails(shown: map<string, ListingItem>) returns (worlds: seq<World>, steps: seq<Step>)
    ensures IsRun(worlds, steps) && |steps| == 3
    ensures RejectedBy(worlds[2].market, steps[2]) == Some(BuyRecord(ToBob()))
    ensures NAME in worlds[3].market.rankings.newListings.Members()
    ensures NAME !in FoldNew(shown, worlds[3].market.events)
  {
    var ws, ss := SoldRun();
    SaleLookups();
    worlds, steps := RejectedRun(ws, ss, BuyRecord(ToBob()));
    assert worlds[..3] == ws && worlds[2] == ws[2];
    IndexAgreement(ws, ss, 2);
    SoleListing(ws[2].market, BuyRecord(ToBob()), shown);
  }

  lemma SoleListing(m: Market, sale: TradeRecord, shown: map<string, ListingItem>)
    requires Lookup(m.tables.history, SECOND) == Some(sale) && sale.action.BuyAndRelist? && sale.name == NAME
    requires m.tables.listings == Listed(BOB, 70_000, SECOND)
    requires m.rankings.newListings.Members() <= {NAME}
    ensures NAME in Rejected(m, SECOND).rankings.newListings.Members()
    ensures NAME !in FoldNew(shown, Rejected(m, SECOND).events)
  {
    var m1 := m.(tables := m.tables.(history := SetStatus(m.tables.history, SECOND, RejectedStatus())));
    RowFound(m.tables.history, SECOND);
    var row := Lookup(m1.tables.history, SECOND).value;
    RollbackMarket(m, SECOND, ReeRejected(""), 0, row);
    NewListingsDeltaIff(m1, row, 0, shown);
    NothingAbove(m.rankings.newListings.zset, 0);
  }

  lemma NothingAbove(z: ZSet, score: int)
    requires Scores(z).Keys <= {NAME}
    ensures |Above(Without(z, NAME), Entry(score, NAME))| == 0
  {
    WithoutFacts(z, NAME);
    forall e ensures e !in Without(z, NAME) {
      if e in z { assert e.member in Scores(z); }
    }
    assert Above(Without(z, NAME), Entry(score, NAME)) == {};
  }

  // ---------- the rebuilt discount ----------

  // A name that has only been listed: the running market advertises at most
  // 0.990, the rebuild 1.0.
  lemma FullDiscountFails() returns (worlds: seq<World>, steps: seq<Step>)
    ensures IsRun(worlds, steps) && |steps| == 1
    ensures
      var t, running := worlds[1].market.tables, worlds[1].market.rankings.bestDeals.Visible();
      && NAME in t.listings && NAME in running
      && running[NAME].discount <= 990
      && RebuiltItem(t.listings[NAME], t.history).discount == 1000
  {
    worlds, steps := ListedRun();
    IndexAgreement(worlds, steps, 1);
    RebuiltInFull(worlds[1].market.tables);
  }

  lemma RebuiltInFull(t: Tables)
    requires t.listings == Listed(ALICE, 60_000, FIRST) && t.history == H1()
    ensures RebuiltItem(t.listings[NAME], t.history).discount == 1000
  {
    Snoc([], FirstRecord());
    FullDiscountIff(t.listings[NAME], H1());
  }
}
