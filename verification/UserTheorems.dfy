/**
 User rows and points over runs: who has which primary name, and which name
 earns the fee of a sale.
 */
module UserTheorems {
  import opened Domain
  import opened Tables
  import opened Pricing
  import opened EventHandling
  import opened TradingRules
  import opened Runs
  import opened Invariants
  import opened Acceptance
  import opened TradePreservation
  import opened Reachability
  import opened MarketTheorems
  import opened MoneyTheorems

  // ---------- user rows ----------

  // Trades, relists and status events touch no user row, pool or offset.
  ghost predicate SamePeople(t: Tables, t': Tables) {
    t'.users == t.users && t'.pools == t.pools && t'.eventOffset == t.eventOffset
  }

  lemma TakenPeople(w: World, s: Step)
    requires Inv(w) && Admissible(w, s) && TakenTrade(w.market, s).Some?
    ensures SamePeople(w.market.tables, Next(w, s).market.tables)
  {
    var m, r := w.market, TakenTrade(w.market, s).value;
    TakenTradeFits(w, s);
    TakenEffect(w, s);
    TakenTables(m, m.(tables := m.tables.(history := AddRecord(m.tables.history, r))), r, s.e.now);
  }

  lemma RelistPeople(w: World, s: Step)
    requires s.RelistStep?
    ensures SamePeople(w.market.tables, Next(w, s).market.tables)
  {
  }

  lemma StatusPeople(w: World, s: Step)
    requires Inv(w) && Admissible(w, s) && s.StatusStep?
    ensures SamePeople(w.market.tables, Next(w, s).market.tables)
  {
    if RejectedBy(w.market, s).Some? { RestoredRow(w, s); } else { StatusWithoutRollback(w, s); }
  }

  lemma MarketStepPeople(w: World, s: Step)
    requires Inv(w) && Admissible(w, s) && (s.TradeStep? || s.RelistStep? || s.StatusStep?)
    ensures SamePeople(w.market.tables, Next(w, s).market.tables)
  {
    if TakenTrade(w.market, s).Some? {
      TakenPeople(w, s);
    } else if s.TradeStep? {
      FailedInvoke(w, s);
    } else if s.RelistStep? {
      RelistPeople(w, s);
    } else {
      StatusPeople(w, s);
    }
  }

  // The user's primary name; None without a row or without a primary name.
  function PrimaryOf(t: Tables, u: Address): Option<Name> {
    if u in t.users then t.users[u] else None
  }

  // A login keeps every row and gives a new user one without a primary name.
  lemma LoginKeepsUsers(users: map<Address, Option<Name>>, u: Address)
    ensures FindOrCreateUser(users, u).Keys == users.Keys + {u}
    ensures forall a :: a in users ==> FindOrCreateUser(users, u)[a] == users[a]
    ensures u !in users ==> FindOrCreateUser(users, u)[u] == None
  {
  }

  // What one step does to one user.
  lemma UserAfterStep(w: World, s: Step, u: Address)
    requires Inv(w) && Admissible(w, s)
    ensures
      var t, t' := w.market.tables, Next(w, s).market.tables;
      && (u in t'.users <==> u in t.users || s == Login(u))
      && PrimaryOf(t', u) ==
           if u !in t.users then None
           else match s
             case SetPrimary(user, n) => if user == u then Some(n) else PrimaryOf(t, u)
             case ClearPrimary(user) => if user == u then None else PrimaryOf(t, u)
             case _ => PrimaryOf(t, u)
  {
    match s
    case Login(a) => LoginKeepsUsers(w.market.tables.users, a);
    case SetPrimary(_, _) =>
    case ClearPrimary(_) =>
    case CachePool(_, _) =>
    case _ => MarketStepPeople(w, s);
  }

  ghost predicate OwnChange(s: Step, u: Address) {
    (s.SetPrimary? && s.user == u) || s == ClearPrimary(u)
  }

  lemma NextUser(worlds: seq<World>, steps: seq<Step>, k: nat, u: Address)
    requires IsRun(worlds, steps) && k < |steps|
    ensures
      var t, t' := worlds[k].market.tables, worlds[k + 1].market.tables;
      && (u in t.users ==> u in t'.users)
      && (!OwnChange(steps[k], u) ==> PrimaryOf(t', u) == PrimaryOf(t, u))
  {
    RunKeeps(worlds, steps, k);
    UserAfterStep(worlds[k], steps[k], u);
  }

  // In every run a user's row stays, and the primary name changes only at the
  // user's own request: logins and everything else leave it alone.
  lemma {:induction false} PrimaryStays(worlds: seq<World>, steps: seq<Step>, i: nat, j: nat, u: Address)
    requires IsRun(worlds, steps) && i <= j < |worlds|
    requires forall k :: i <= k < j ==> !OwnChange(steps[k], u)
    ensures u in worlds[i].market.tables.users ==> u in worlds[j].market.tables.users
    ensures PrimaryOf(worlds[j].market.tables, u) == PrimaryOf(worlds[i].market.tables, u)
    decreases j - i
  {
    if i < j {
      NextUser(worlds, steps, i, u);
      PrimaryStays(worlds, steps, i + 1, j, u);
    }
  }

  // The primary name is the one the user last asked for.
  lemma PrimaryIsLastAsked(worlds: seq<World>, steps: seq<Step>, i: nat, j: nat, u: Address)
    requires IsRun(worlds, steps) && i < j < |worlds| && u in worlds[i].market.tables.users
    requires OwnChange(steps[i], u) && forall k :: i < k < j ==> !OwnChange(steps[k], u)
    ensures PrimaryOf(worlds[j].market.tables, u) == if steps[i].SetPrimary? then Some(steps[i].primary) else None
  {
    RunKeeps(worlds, steps, i);
    UserAfterStep(worlds[i], steps[i], u);
    PrimaryStays(worlds, steps, i + 1, j, u);
  }

  // The pool of a name is the one last cached for it.
  lemma PoolAfterStep(w: World, s: Step, n: Name)
    requires Inv(w) && Admissible(w, s)
    ensures
      var pools, pools' := w.market.tables.pools, Next(w, s).market.tables.pools;
      if s.CachePool? && s.name == n then n in pools' && pools'[n] == s.pool
      else (n in pools' <==> n in pools) && (n in pools ==> pools'[n] == pools[n])
  {
    match s
    case Login(_) =>
    case SetPrimary(_, _) =>
    case ClearPrimary(_) =>
    case CachePool(_, _) =>
    case _ => MarketStepPeople(w, s);
  }

  // ---------- points, name by name ----------

  function PointsAt(t: Tables, n: Name): int {
    if n in t.points then t.points[n] else 0
  }

  // The fee a step pays to n: of a taken purchase from a seller whose primary
  // name is n at that moment.
  ghost function AwardTo(w: World, s: Step, n: Name): nat {
    var t := w.market.tables;
    if TakenTrade(w.market, s).Some? && (s.action == BuyAndRelist || s.action == BuyAndDelist) && s.q.name in t.listings
       && PrimaryOf(t, t.listings[s.q.name].seller) == Some(n)
      then s.q.fee else 0
  }

  lemma SellerPointsTo(t: Tables, r: TradeRecord, n: Name)
    ensures PointsAt(AddSellerPoints(t, r), n) == PointsAt(t, n) +
      if r.platformFee.Some? && PrimaryOf(t, r.seller.GetOr("")) == Some(n) then r.platformFee.value else 0
  {
  }

  ghost function RecordAward(t: Tables, r: TradeRecord, n: Name): nat {
    if r.action.IsBuy() && PrimaryOf(t, r.seller.GetOr("")) == Some(n) then r.platformFee.GetOr(0) else 0
  }

  lemma PendingPointsTo(m: Market, r: TradeRecord, now: int, n: Name)
    requires ListingsInv(m.tables) && Fits(m.tables, r)
    ensures
      var m1 := m.(tables := m.tables.(history := AddRecord(m.tables.history, r)));
      PointsAt(HandlePending(m1, r, now).tables, n) == PointsAt(m.tables, n) + RecordAward(m.tables, r, n)
  {
    var m1 := m.(tables := m.tables.(history := AddRecord(m.tables.history, r)));
    LookupFacts(m.tables.history, r.txId.value);
    NotTaken(m.tables, r.name, r.txId.value);
    PendingTables(m1, r, now);
    SellerPointsTo(m1.tables, r, n);
  }

  // The award in terms of the request is the award in terms of the record.
  lemma AwardOfRequest(t: Tables, action: Action, q: Request, e: Env, n: Name)
    requires Check(t, action, q, e).Success?
    ensures RecordAward(t, Check(t, action, q, e).value, n) ==
      if (action == BuyAndRelist || action == BuyAndDelist) && q.name in t.listings
         && PrimaryOf(t, t.listings[q.name].seller) == Some(n)
        then q.fee else 0
  {
    if action.IsBuy() { BuyAccepted(t, action, q, e); }
  }

  lemma TakenAwardTo(w: World, s: Step, n: Name)
    requires Inv(w) && Admissible(w, s) && TakenTrade(w.market, s).Some?
    ensures PointsAt(Next(w, s).market.tables, n) == PointsAt(w.market.tables, n) + AwardTo(w, s, n)
  {
    TakenTradeFits(w, s);
    TakenEffect(w, s);
    PendingPointsTo(w.market, TakenTrade(w.market, s).value, s.e.now, n);
    AwardOfRequest(w.market.tables, s.action, s.q, s.e, n);
  }

  // Each step changes the points of each name by exactly that.
  lemma StepAwardsTo(w: World, s: Step, n: Name)
    requires Inv(w) && Admissible(w, s)
    ensures PointsAt(Next(w, s).market.tables, n) == PointsAt(w.market.tables, n) + AwardTo(w, s, n)
  {
    if TakenTrade(w.market, s).Some? {
      TakenAwardTo(w, s, n);
    } else if s.TradeStep? {
      FailedInvoke(w, s);
    } else {
      UntakenPoints(w, s);
    }
  }

  ghost function TotalAwardsTo(worlds: seq<World>, steps: seq<Step>, n: Name, k: nat): nat
    requires k <= |steps| && k <= |worlds|
  {
    if k == 0 then 0 else TotalAwardsTo(worlds, steps, n, k - 1) + AwardTo(worlds[k - 1], steps[k - 1], n)
  }

  lemma NextAwardsTo(worlds: seq<World>, steps: seq<Step>, n: Name, k: nat)
    requires IsRun(worlds, steps) && k < |steps|
    ensures PointsAt(worlds[k + 1].market.tables, n) ==
      PointsAt(worlds[k].market.tables, n) + AwardTo(worlds[k], steps[k], n)
  {
    RunKeeps(worlds, steps, k);
    StepAwardsTo(worlds[k], steps[k], n);
  }

  // In every run the points of each name are the fees of the taken purchases
  // whose seller had it as primary name at that moment.
  lemma {:induction false} PointsOfEachName(worlds: seq<World>, steps: seq<Step>, n: Name, k: nat)
    requires IsRun(worlds, steps) && k < |worlds|
    ensures PointsAt(worlds[k].market.tables, n) == TotalAwardsTo(worlds, steps, n, k)
  {
    if k > 0 {
      PointsOfEachName(worlds, steps, n, k - 1);
      NextAwardsTo(worlds, steps, n, k - 1);
    }
  }

  // ---------- the quoted fee ----------

  // The points that count for a user: those of the primary name.
  function CountedPoints(t: Tables, u: Address): int {
    match PrimaryOf(t, u)
    case Some(n) => PointsAt(t, n)
    case None => 0
  }

  lemma CountedPointsAre(t: Tables, u: Address)
    requires UsersInv(t) && FitsBigint(t.points)
    ensures PointsOf(t, u) == CountedPoints(t, u)
  {
    if PrimaryOf(t, u).Some? { PointsAsU64Is(PointsAt(t, PrimaryOf(t, u).value)); }
  }

  lemma QuoteOf(t: Tables, l: Listing, buyer: Address)
    requires UsersInv(t) && FitsBigint(t.points)
    requires l.seller in t.users && buyer in t.users && l.price >= GLOBAL_MIN_PRICE
    ensures CountedPoints(t, l.seller) >= 0 && CountedPoints(t, buyer) >= 0
    ensures PlatformFee(t, l, buyer) == Success(
      l.price * (20 - PointsToLevel(CountedPoints(t, l.seller)) - PointsToLevel(CountedPoints(t, buyer))) / 1000)
  {
    CountedPointsAre(t, l.seller);
    CountedPointsAre(t, buyer);
    FeeFromPoints(t, l, buyer);
    FeeWithinBounds(l.price, PointsOf(t, l.seller), PointsOf(t, buyer));
  }

  // In every run the fee of a listed name is twenty thousandths of its price,
  // less one for each level that the points of the seller's and the buyer's
  // primary names have reached.
  lemma QuoteIs(worlds: seq<World>, steps: seq<Step>, i: nat, n: Name, buyer: Address)
    requires IsRun(worlds, steps) && i < |worlds| && FitsBigint(worlds[i].market.tables.points)
    requires n in worlds[i].market.tables.listings && buyer in worlds[i].market.tables.users
    ensures
      var t := worlds[i].market.tables;
      var l := t.listings[n];
      && CountedPoints(t, l.seller) >= 0 && CountedPoints(t, buyer) >= 0
      && PlatformFee(t, l, buyer) == Success(
           l.price * (20 - PointsToLevel(CountedPoints(t, l.seller)) - PointsToLevel(CountedPoints(t, buyer))) / 1000)
  {
    var t := worlds[i].market.tables;
    RunKeeps(worlds, steps, i);
    QuoteOf(t, t.listings[n], buyer);
  }
}
