/**
 Prices, fees, points and aggregates over whole runs.
 */
module MoneyTheorems {
  import opened Domain
  import opened SortedSets
  import opened Tables
  import opened Pricing
  import opened EventHandling
  import opened TradingRules
  import opened Runs
  import opened Invariants
  import opened Acceptance
  import opened TradePreservation
  import opened Reachability
  import opened Sums

  // ---------- prices ----------

  // Every listing and record price of a name with m records lies between the
  // floor and 100000 * 1.26^m, and the band it permits is never empty.
  lemma PriceBounds(worlds: seq<World>, steps: seq<Step>, i: nat)
    requires IsRun(worlds, steps) && i < |worlds|
    ensures
      var t := worlds[i].market.tables;
      && (forall n :: n in t.listings ==>
           var p := t.listings[n].price;
           var m := RecordCount(t.history, n);
           && p >= GLOBAL_MIN_PRICE && p * Pow(100, m) <= INIT_MAX_PRICE * Pow(126, m)
           && MinPrice(p) <= MaxPrice(p))
      && (forall k :: 0 <= k < |t.history| ==>
           RecordPriced(t.history[k], RecordCount(t.history, t.history[k].name)))
  {
    RunKeeps(worlds, steps, i);
    var t := worlds[i].market.tables;
    forall n | n in t.listings
      ensures MinPrice(t.listings[n].price) <= MaxPrice(t.listings[n].price)
      ensures
        var m := RecordCount(t.history, n);
        t.listings[n].price * Pow(100, m) <= INIT_MAX_PRICE * Pow(126, m)
    {
      BandIsNonEmpty(t.listings[n].price);
      GrowthMeans(t.listings[n].price, RecordCount(t.history, n));
    }
  }

  // Every price the service takes as the base of a permitted band: what list
  // and relist look up, and the listed price of a purchase or a relist.
  ghost function Bases(t: Tables, n: Name, e: Env): set<nat> {
    (if PreviousPrice(t, n, e).Some? then {PreviousPrice(t, n, e).value} else {}) +
    (if n in t.listings then {t.listings[n].price} else {})
  }

  lemma BasesArePriced(worlds: seq<World>, steps: seq<Step>, i: nat, n: Name, e: Env, base: nat)
    requires IsRun(worlds, steps) && i < |worlds| && base in Bases(worlds[i].market.tables, n, e)
    ensures Priced(base, RecordCount(worlds[i].market.tables.history, n))
  {
    RunKeeps(worlds, steps, i);
    if PreviousPrice(worlds[i].market.tables, n, e) == Some(base) {
      PreviousPriceIsPriced(worlds[i].market.tables, n, e);
    }
  }

  // Whatever an operation takes as its base, for a listed name or not, some
  // price is permitted.
  lemma BandIsNeverEmpty(worlds: seq<World>, steps: seq<Step>, i: nat, n: Name, e: Env, base: nat)
    requires IsRun(worlds, steps) && i < |worlds| && base in Bases(worlds[i].market.tables, n, e)
    ensures base >= GLOBAL_MIN_PRICE && MinPrice(base) <= MaxPrice(base)
    ensures ValidatePrice(base, MinPrice(base)).Success? && ValidatePrice(base, MaxPrice(base)).Success?
  {
    BasesArePriced(worlds, steps, i, n, e, base);
    BandIsNonEmpty(base);
  }

  // While a name has at most 120 records, no product of any base overflows.
  lemma NoOverflowInRuns(worlds: seq<World>, steps: seq<Step>, i: nat, n: Name, e: Env, base: nat)
    requires IsRun(worlds, steps) && i < |worlds| && base in Bases(worlds[i].market.tables, n, e)
    requires RecordCount(worlds[i].market.tables.history, n) <= 120
    ensures base * 126 < U64_LIMIT
    ensures base * 20 < U64_LIMIT
  {
    BasesArePriced(worlds, steps, i, n, e, base);
    NoOverflow(base, RecordCount(worlds[i].market.tables.history, n));
  }

  // ---------- settlement ----------

  // The fee quoted for a listed name is always defined, for every registered
  // buyer, and lies between one and two percent of the price.
  lemma FeeIsSafe(worlds: seq<World>, steps: seq<Step>, i: nat, n: Name, buyer: Address)
    requires IsRun(worlds, steps) && i < |worlds|
    requires n in worlds[i].market.tables.listings && buyer in worlds[i].market.tables.users
    ensures
      var t := worlds[i].market.tables;
      var l, fee := t.listings[n], PlatformFee(t, t.listings[n], buyer);
      fee.Success? && l.price / 100 <= fee.value <= l.price / 50 && 330 < fee.value < l.price
  {
    RunKeeps(worlds, steps, i);
    var t := worlds[i].market.tables;
    FeeFromPoints(t, t.listings[n], buyer);
  }

  function PointsOf(t: Tables, user: Address): nat {
    if user in t.users && t.users[user].Some? && t.users[user].value in t.points
      then PointsAsU64(t.points[t.users[user].value]) else 0
  }

  lemma FeeFromPoints(t: Tables, l: Listing, buyer: Address)
    requires l.seller in t.users && buyer in t.users && l.price >= GLOBAL_MIN_PRICE
    ensures PlatformFee(t, l, buyer) ==
      Success(FeeAtLevels(l.price, PointsToLevel(PointsOf(t, l.seller)), PointsToLevel(PointsOf(t, buyer))))
    ensures
      var fee := PlatformFee(t, l, buyer).value;
      l.price / 100 <= fee <= l.price / 50 && 330 < fee < l.price
  {
    FeeWithinBounds(l.price, PointsOf(t, l.seller), PointsOf(t, buyer));
  }

  // The transaction of every buy the canister takes pays the seller and the
  // collector exactly the listed price between them.
  lemma BuysSettle(worlds: seq<World>, steps: seq<Step>, i: nat)
    requires IsRun(worlds, steps) && i < |steps|
    requires TakenTrade(worlds[i].market, steps[i]).Some? && steps[i].action.IsBuy()
    ensures
      var q, e, t := steps[i].q, steps[i].e, worlds[i].market.tables;
      && q.name in t.listings
      && var l := t.listings[q.name];
      && |q.psbt.outputs| >= 3
      && q.psbt.outputs[1].address == Some(l.seller)
      && q.psbt.outputs[2].address == Some(e.collector)
      && q.psbt.outputs[1].value + q.psbt.outputs[2].value == l.price
      && q.psbt.outputs[2].value == PlatformFee(t, l, q.caller).value
      && l.price / 100 <= q.psbt.outputs[2].value <= l.price / 50
  {
    var q, e, t := steps[i].q, steps[i].e, worlds[i].market.tables;
    BuyAccepted(t, steps[i].action, q, e);
    FeeIsSafe(worlds, steps, i, q.name, q.party);
  }

  lemma BuyAccepted(t: Tables, action: Action, q: Request, e: Env)
    requires action.IsBuy() && Check(t, action, q, e).Success?
    ensures AcceptedBuy(t, action, q, e.collector, Check(t, action, q, e).value)
  {
    var r := Check(t, action, q, e).value;
    if action.BuyAndRelist? { BuyAndRelistAcceptedIff(t, q, e, r); } else { BuyAndDelistAcceptedIff(t, q, e, r); }
  }

  // ---------- points ----------

  // The points a step awards: the fee of a taken buy whose seller has a
  // primary name at that moment.
  ghost function Award(w: World, s: Step): nat {
    var r := TakenTrade(w.market, s);
    if r.None? || !r.value.action.IsBuy() then 0
    else
      var seller := r.value.seller.GetOr("");
      if seller in w.market.tables.users && w.market.tables.users[seller].Some?
        then r.value.platformFee.GetOr(0) else 0
  }

  ghost function TotalAwards(worlds: seq<World>, steps: seq<Step>, k: nat): nat
    requires k <= |steps| && k <= |worlds|
  {
    if k == 0 then 0 else TotalAwards(worlds, steps, k - 1) + Award(worlds[k - 1], steps[k - 1])
  }

  lemma AwardedPoints(t: Tables, r: TradeRecord)
    requires r.platformFee.Some?
    ensures
      var seller := r.seller.GetOr("");
      var paid := if seller in t.users && t.users[seller].Some? then r.platformFee.value else 0;
      && Sum(AddSellerPoints(t, r).points) == Sum(t.points) + paid
      && forall p :: p in t.points ==> p in AddSellerPoints(t, r).points && AddSellerPoints(t, r).points[p] >= t.points[p]
  {
    var seller := r.seller.GetOr("");
    if seller in t.users && t.users[seller].Some? {
      var n := t.users[seller].value;
      SumUpdate(t.points, n, AddPoints(t.points, n, r.platformFee.value)[n]);
    }
  }

  ghost predicate PointsGrow(p: map<Name, int>, p': map<Name, int>) {
    forall n :: n in p ==> n in p' && p'[n] >= p[n]
  }

  lemma StepAwards(w: World, s: Step)
    requires Inv(w) && Admissible(w, s)
    ensures Sum(Next(w, s).market.tables.points) == Sum(w.market.tables.points) + Award(w, s)
    ensures PointsGrow(w.market.tables.points, Next(w, s).market.tables.points)
  {
    if TakenTrade(w.market, s).Some? {
      TakenTradeFits(w, s);
      TakenStepAwards(w, s);
    } else if s.TradeStep? {
      FailedInvoke(w, s);
    } else {
      UntakenPoints(w, s);
    }
  }

  lemma TakenStepAwards(w: World, s: Step)
    requires TakenTrade(w.market, s).Some?
    requires ListingsInv(w.market.tables) && Fits(w.market.tables, TakenTrade(w.market, s).value)
    ensures Sum(Next(w, s).market.tables.points) == Sum(w.market.tables.points) + Award(w, s)
    ensures PointsGrow(w.market.tables.points, Next(w, s).market.tables.points)
  {
    TakenEffect(w, s);
    TakenAwards(w.market, TakenTrade(w.market, s).value, s.e.now);
  }

  lemma TakenAwards(m: Market, r: TradeRecord, now: int)
    requires ListingsInv(m.tables) && Fits(m.tables, r)
    ensures
      var m1 := m.(tables := m.tables.(history := AddRecord(m.tables.history, r)));
      var p' := HandlePending(m1, r, now).tables.points;
      var seller := r.seller.GetOr("");
      && Sum(p') == Sum(m.tables.points) +
           (if r.action.IsBuy() && seller in m.tables.users && m.tables.users[seller].Some?
              then r.platformFee.GetOr(0) else 0)
      && PointsGrow(m.tables.points, p')
  {
    var m1 := m.(tables := m.tables.(history := AddRecord(m.tables.history, r)));
    LookupFacts(m.tables.history, r.txId.value);
    NotTaken(m.tables, r.name, r.txId.value);
    PendingTables(m1, r, now);
    if r.action.IsBuy() { AwardedPoints(m1.tables, r); }
  }

  lemma RejectedPoints(m: Market, r: TradeRecord, now: int)
    ensures HandleRejected(m, r, now).tables.points == m.tables.points
  {
  }

  lemma UntakenPoints(w: World, s: Step)
    requires !s.TradeStep?
    ensures Next(w, s).market.tables.points == w.market.tables.points
  {
    if s.StatusStep? && NewStatus(s.status).Some? {
      var m := w.market;
      var m1 := m.(tables := m.tables.(history := SetStatus(m.tables.history, s.txId, NewStatus(s.status).value)));
      var row := Lookup(m1.tables.history, s.txId);
      if row.Some? { RejectedPoints(m1, row.value, s.now); }
    }
  }

  lemma NextAwards(worlds: seq<World>, steps: seq<Step>, k: nat)
    requires IsRun(worlds, steps) && k < |steps|
    ensures Sum(worlds[k + 1].market.tables.points) ==
      Sum(worlds[k].market.tables.points) + Award(worlds[k], steps[k])
  {
    RunKeeps(worlds, steps, k);
    StepAwards(worlds[k], steps[k]);
  }

  // All points ever awarded are the platform fees of the taken buys whose
  // seller had a primary name; rejections take nothing back.
  lemma {:induction false} PointsAreFees(worlds: seq<World>, steps: seq<Step>, k: nat)
    requires IsRun(worlds, steps) && k < |worlds|
    ensures Sum(worlds[k].market.tables.points) == TotalAwards(worlds, steps, k)
  {
    if k > 0 {
      PointsAreFees(worlds, steps, k - 1);
      NextAwards(worlds, steps, k - 1);
    }
  }

  lemma StepPointsGrow(worlds: seq<World>, steps: seq<Step>, k: nat)
    requires IsRun(worlds, steps) && k < |steps|
    ensures PointsGrow(worlds[k].market.tables.points, worlds[k + 1].market.tables.points)
  {
    RunKeeps(worlds, steps, k);
    StepAwards(worlds[k], steps[k]);
  }

  lemma {:induction false} GrowthChain(columns: seq<map<Name, int>>, i: nat, j: nat)
    requires i <= j < |columns|
    requires forall k :: 0 <= k < |columns| - 1 ==> PointsGrow(columns[k], columns[k + 1])
    ensures PointsGrow(columns[i], columns[j])
    decreases j
  {
    if i < j {
      GrowthChain(columns, i, j - 1);
      assert PointsGrow(columns[j - 1], columns[j - 1 + 1]);
    }
  }

  lemma PointsOnlyGrow(worlds: seq<World>, steps: seq<Step>, i: nat, j: nat)
    requires IsRun(worlds, steps) && i <= j < |worlds|
    ensures PointsGrow(worlds[i].market.tables.points, worlds[j].market.tables.points)
  {
    var columns := seq(|worlds|, k requires 0 <= k < |worlds| => worlds[k].market.tables.points);
    forall k | 0 <= k < |columns| - 1 ensures PointsGrow(columns[k], columns[k + 1]) {
      StepPointsGrow(worlds, steps, k);
    }
    GrowthChain(columns, i, j);
  }

  // Values of the BIGINT points column.
  ghost predicate FitsBigint(points: map<Name, int>) {
    forall n :: n in points ==> points[n] < 0x8000_0000_0000_0000
  }

  // At a fixed price and fixed primary names the quoted fee never rises.
  lemma QuoteNeverRises(worlds: seq<World>, steps: seq<Step>, i: nat, j: nat, l: Listing, buyer: Address)
    requires IsRun(worlds, steps) && i <= j < |worlds|
    requires FitsBigint(worlds[j].market.tables.points)
    requires
      var u, u' := worlds[i].market.tables.users, worlds[j].market.tables.users;
      && l.seller in u && buyer in u && l.seller in u' && buyer in u'
      && u[l.seller] == u'[l.seller] && u[buyer] == u'[buyer]
    requires l.price >= GLOBAL_MIN_PRICE
    ensures
      var before, after := worlds[i].market.tables, worlds[j].market.tables;
      PlatformFee(after, l, buyer).value <= PlatformFee(before, l, buyer).value
  {
    var t, t' := worlds[i].market.tables, worlds[j].market.tables;
    PointsOnlyGrow(worlds, steps, i, j);
    RunKeeps(worlds, steps, i);
    MorePoints(t, t', l.seller);
    MorePoints(t, t', buyer);
    FeeFromPoints(t, l, buyer);
    FeeFromPoints(t', l, buyer);
    FeeAntitone(l.price, PointsOf(t, l.seller), PointsOf(t', l.seller), PointsOf(t, buyer), PointsOf(t', buyer));
  }

  lemma MorePoints(t: Tables, t': Tables, user: Address)
    requires UsersInv(t) && PointsGrow(t.points, t'.points) && FitsBigint(t'.points)
    requires user in t.users && user in t'.users && t.users[user] == t'.users[user]
    ensures PointsOf(t, user) <= PointsOf(t', user)
  {
  }

  // ---------- aggregates ----------

  // Sales counted and profits summed from the history are what the rankings
  // hold, through failed invokes and rejections.
  lemma AggregatesAgree(worlds: seq<World>, steps: seq<Step>, i: nat, n: Name, seller: Address)
    requires IsRun(worlds, steps) && i < |worlds|
    ensures
      var h, k := worlds[i].market.tables.history, worlds[i].market.rankings;
      var traded, earned := Scores(k.mostTraded.zset), Scores(k.topEarners.zset);
      && (n in traded <==> TradedCount(h, n) > 0)
      && (n in traded ==> traded[n] == AsU32(TradedCount(h, n)))
      && (seller in earned <==> SalesOf(h, seller) > 0)
      && (seller in earned ==> earned[seller] == Earned(h, seller))
  {
    RunKeeps(worlds, steps, i);
    assert TradedAgrees(worlds[i].market.tables.history, Scores(worlds[i].market.rankings.mostTraded.zset), n);
    assert EarnedAgrees(worlds[i].market.tables.history, Scores(worlds[i].market.rankings.topEarners.zset), seller);
  }
}
