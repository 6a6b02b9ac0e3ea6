/**
 The rebuild of the rankings at startup: the sorted sets are cleared, the
 metadata stays behind, and every listed row is added anew in the order the
 query returns the rows; the totals of the sales are added after them.
 */
module Rebuild {
  import opened Domain
  import opened SortedSets
  import opened Rankings
  import opened Tables
  import opened EventHandling
  import opened Invariants
  import opened Runs
  import opened Reachability
  import opened RebuildTotals

  // previous_price_sats of the newest buy_and_relist or relist of the name, else 0.
  function RebuildBase(history: seq<TradeRecord>, name: Name): nat {
    if history == [] then 0
    else
      var rest, last := history[..|history| - 1], history[|history| - 1];
      if last.name == name && (last.action.BuyAndRelist? || last.action.Relist?)
        then last.previousPrice.GetOr(0)
      else RebuildBase(rest, name)
  }

  // The records whose previous price a rebuild compares with.
  ghost predicate Repriced(r: TradeRecord, n: Name) {
    r.name == n && (r.action == BuyAndRelist || r.action == Action.Relist)
  }

  // The base is the previous price of the newest of them, 0 without one.
  lemma {:induction false} RebuildBaseIs(h: seq<TradeRecord>, n: Name, i: int)
    ensures (forall k :: 0 <= k < |h| ==> !Repriced(h[k], n)) ==> RebuildBase(h, n) == 0
    ensures 0 <= i < |h| && Repriced(h[i], n) && (forall k :: i < k < |h| ==> !Repriced(h[k], n)) ==>
      RebuildBase(h, n) == h[i].previousPrice.GetOr(0)
  {
    if h != [] {
      var rest := h[..|h| - 1];
      RebuildBaseIs(rest, n, i);
      forall k | 0 <= k < |rest| ensures rest[k] == h[k] {
      }
    }
  }

  function RebuiltItem(row: Listing, history: seq<TradeRecord>): ListingItem {
    ItemOf(row, RebuildBase(history, row.name))
  }

  // What is shown of a row: its own columns, and the discount against the base.
  lemma RebuiltItemIs(row: Listing, history: seq<TradeRecord>)
    ensures RebuiltItem(row, history) == ListingItem(
      row.name, row.price, row.listedAt, Pricing.Discount(row.price, RebuildBase(history, row.name)), row.seller)
  {
  }

  // The rows of `SELECT ... FROM listings`, in any order.
  ghost predicate AllRows(rows: seq<Listing>, listings: map<Name, Listing>) {
    && (forall i, j :: 0 <= i < j < |rows| ==> rows[i].name != rows[j].name)
    && (forall i :: 0 <= i < |rows| ==> rows[i].name in listings && listings[rows[i].name] == rows[i])
    && (forall n :: n in listings ==> exists i :: 0 <= i < |rows| && rows[i].name == n)
  }

  // ---------- the two sorted sets, row by row ----------

  function DealsOf(start: Ranking<ListingItem>, rows: seq<Listing>, history: seq<TradeRecord>): Ranking<ListingItem> {
    if rows == [] then start
    else BestDealsAdd(DealsOf(start, rows[..|rows| - 1], history), RebuiltItem(rows[|rows| - 1], history))
  }

  function NewestOf(start: Ranking<ListingItem>, rows: seq<Listing>, history: seq<TradeRecord>): Ranking<ListingItem> {
    if rows == [] then start
    else NewListingsAdd(NewestOf(start, rows[..|rows| - 1], history), RebuiltItem(rows[|rows| - 1], history))
  }

  function Cleared<T>(r: Ranking<T>): Ranking<T> {
    Ranking([], r.meta)
  }

  // best_deals shows every listing as a rebuild would.
  ghost predicate DealsRebuilt(t: Tables, r: Ranking<ListingItem>) {
    && DealsAgree(t.listings, r)
    && forall n :: n in t.listings ==> r.meta[n] == RebuiltItem(t.listings[n], t.history)
  }

  // new_listings holds a listed name if and only if fewer than twenty are newer.
  ghost predicate NewestRebuilt(t: Tables, r: Ranking<ListingItem>) {
    forall n :: NewestRebuiltAt(t, r, n)
  }

  ghost predicate NewestRebuiltAt(t: Tables, r: Ranking<ListingItem>, n: Name) {
    && (n in r.Members() <==> n in t.listings && |Newer(t.listings, n)| < NEW_LISTINGS_LIMIT)
    && (n in r.Members() ==> n in r.meta && r.meta[n] == RebuiltItem(t.listings[n], t.history))
  }

  // ---------- the totals of the sales ----------

  const TOTALS_LIMIT: nat := 20

  // A GROUP BY with ORDER BY and LIMIT: at most twenty groups, each with its
  // shown value, and no group left out has a larger total than one taken.
  ghost predicate TopGroups(es: seq<Entry>, isGroup: string -> bool, total: string -> nat, shown: string -> nat) {
    && |es| <= TOTALS_LIMIT && Distinct(es)
    && (forall e :: e in es ==> isGroup(e.member) && e.score == shown(e.member))
    && forall m :: isGroup(m) && m !in Names(es) ==>
         |es| == TOTALS_LIMIT && forall e :: e in es ==> total(m) <= total(e.member)
  }

  // The same of a sorted set.
  ghost predicate TopShown(z: ZSet, isGroup: string -> bool, total: string -> nat, shown: string -> nat) {
    && |Scores(z).Keys| <= TOTALS_LIMIT
    && (forall m :: m in Scores(z) ==> isGroup(m) && Scores(z)[m] == shown(m))
    && forall m :: isGroup(m) && m !in Scores(z) ==>
         |Scores(z).Keys| == TOTALS_LIMIT && forall k :: k in Scores(z) ==> total(m) <= total(k)
  }

  function TradedEntries(rows: seq<MostTradedItem>): seq<Entry> {
    seq(|rows|, i requires 0 <= i < |rows| => Entry(rows[i].tradeCount, rows[i].name))
  }

  function EarnerEntries(rows: seq<TopEarnerItem>): seq<Entry> {
    seq(|rows|, i requires 0 <= i < |rows| => Entry(rows[i].profit, rows[i].address))
  }

  // The rows of step 4 and what they leave in most_traded.
  ghost predicate TradedRows(rows: seq<MostTradedItem>, h: seq<TradeRecord>) {
    TopGroups(
      TradedEntries(rows),
      n => CountedTrades(h, n) > 0, n => CountedTrades(h, n), n => AsU32(CountedTrades(h, n)))
  }

  ghost predicate TradedRebuilt(z: ZSet, h: seq<TradeRecord>) {
    TopShown(z, n => CountedTrades(h, n) > 0, n => CountedTrades(h, n), n => AsU32(CountedTrades(h, n)))
  }

  // The rows of step 5 and what they leave in top_earners.
  ghost predicate EarnerRows(rows: seq<TopEarnerItem>, h: seq<TradeRecord>) {
    TopGroups(EarnerEntries(rows), s => CountedSales(h, s) > 0, s => Proceeds(h, s), s => Proceeds(h, s))
  }

  ghost predicate EarnersRebuilt(z: ZSet, h: seq<TradeRecord>) {
    TopShown(z, s => CountedSales(h, s) > 0, s => Proceeds(h, s), s => Proceeds(h, s))
  }

  function AddEach(es: seq<Entry>): ZSet {
    if es == [] then [] else ZAdd(AddEach(es[..|es| - 1]), es[|es| - 1].score, es[|es| - 1].member)
  }

  lemma NamesOfMore(rest: seq<Entry>, last: Entry)
    requires Distinct(rest + [last])
    ensures Names(rest + [last]) == Names(rest) + {last.member} && last.member !in Names(rest)
  {
    var es := rest + [last];
    assert es[|rest|] == last;
    forall e | e in rest ensures e in es && e.member != last.member {
      var i :| 0 <= i < |rest| && rest[i] == e;
      assert es[i] == e;
    }
  }

  lemma {:induction false} NamesCount(es: seq<Entry>)
    requires Distinct(es)
    ensures |Names(es)| == |es|
  {
    if es != [] {
      var rest, last := es[..|es| - 1], es[|es| - 1];
      assert es == rest + [last];
      NamesOfMore(rest, last);
      NamesCount(rest);
    }
  }

  lemma {:induction false} EachNamed(es: seq<Entry>)
    requires Distinct(es)
    ensures Scores(AddEach(es)).Keys == Names(es)
  {
    if es != [] {
      var rest, last := es[..|es| - 1], es[|es| - 1];
      assert es == rest + [last];
      NamesOfMore(rest, last);
      EachNamed(rest);
      assert AddEach(es) == ZAdd(AddEach(rest), last.score, last.member);
    }
  }

  lemma {:induction false} EachScored(es: seq<Entry>, e: Entry)
    requires Distinct(es) && e in es
    ensures e.member in Scores(AddEach(es)) && Scores(AddEach(es))[e.member] == e.score
  {
    var rest, last := es[..|es| - 1], es[|es| - 1];
    assert es == rest + [last];
    if e != last {
      NamesOfMore(rest, last);
      EachScored(rest, e);
      assert e.member in Names(rest);
    }
  }

  lemma GroupsAreShown(es: seq<Entry>, isGroup: string -> bool, total: string -> nat, shown: string -> nat)
    requires TopGroups(es, isGroup, total, shown)
    ensures TopShown(AddEach(es), isGroup, total, shown)
  {
    EachNamed(es);
    NamesCount(es);
    forall m | m in Scores(AddEach(es)) ensures isGroup(m) && Scores(AddEach(es))[m] == shown(m) {
      var e :| e in es && e.member == m;
      EachScored(es, e);
    }
    forall m, k | isGroup(m) && m !in Scores(AddEach(es)) && k in Scores(AddEach(es)) ensures total(m) <= total(k) {
      var e :| e in es && e.member == k;
    }
  }

  // The whole rebuild, as far as the model has the rankings.
  method RebuildRankings(
    redis: Redis, rows: seq<Listing>, traded: seq<MostTradedItem>, earners: seq<TopEarnerItem>, t: Tables)
    requires AllRows(rows, t.listings) && TradedRows(traded, t.history) && EarnerRows(earners, t.history)
    modifies redis
    ensures DealsRebuilt(t, redis.bestDeals)
    ensures NewestRebuilt(t, redis.newListings)
    ensures TradedRebuilt(redis.mostTraded.zset, t.history)
    ensures EarnersRebuilt(redis.topEarners.zset, t.history)
  {
    ghost var deals, newest := Cleared(redis.bestDeals), Cleared(redis.newListings);
    redis.ClearRankings();
    AddRows(redis, deals, newest, rows, t.history);
    RebuiltDeals(deals, rows, t);
    RebuiltNewest(newest, rows, t);
    AddTraded(redis, traded);
    AddEarners(redis, earners);
    RebuiltTotals(traded, earners, t.history);
  }

  lemma RebuiltTotals(traded: seq<MostTradedItem>, earners: seq<TopEarnerItem>, h: seq<TradeRecord>)
    requires TradedRows(traded, h) && EarnerRows(earners, h)
    ensures TradedRebuilt(AddEach(TradedEntries(traded)), h)
    ensures EarnersRebuilt(AddEach(EarnerEntries(earners)), h)
  {
    GroupsAreShown(
      TradedEntries(traded), n => CountedTrades(h, n) > 0, n => CountedTrades(h, n), n => AsU32(CountedTrades(h, n)));
    GroupsAreShown(EarnerEntries(earners), s => CountedSales(h, s) > 0, s => Proceeds(h, s), s => Proceeds(h, s));
  }

  method AddTraded(redis: Redis, rows: seq<MostTradedItem>)
    requires redis.mostTraded.zset == []
    modifies redis`mostTraded
    ensures redis.mostTraded.zset == AddEach(TradedEntries(rows))
  {
    var i := 0;
    while i < |rows|
      invariant 0 <= i <= |rows|
      invariant redis.mostTraded.zset == AddEach(TradedEntries(rows[..i]))
    {
      redis.AddMostTraded(rows[i]);
      var es := TradedEntries(rows[..i + 1]);
      assert es[..i] == TradedEntries(rows[..i]) && es[i] == Entry(rows[i].tradeCount, rows[i].name);
      i := i + 1;
    }
    assert rows[..i] == rows;
  }

  method AddEarners(redis: Redis, rows: seq<TopEarnerItem>)
    requires redis.topEarners.zset == []
    modifies redis`topEarners
    ensures redis.topEarners.zset == AddEach(EarnerEntries(rows))
  {
    var i := 0;
    while i < |rows|
      invariant 0 <= i <= |rows|
      invariant redis.topEarners.zset == AddEach(EarnerEntries(rows[..i]))
    {
      redis.AddTopEarner(rows[i]);
      var es := EarnerEntries(rows[..i + 1]);
      assert es[..i] == EarnerEntries(rows[..i]) && es[i] == Entry(rows[i].profit, rows[i].address);
      i := i + 1;
    }
    assert rows[..i] == rows;
  }

  method AddRows(redis: Redis, ghost deals: Ranking<ListingItem>, ghost newest: Ranking<ListingItem>,
    rows: seq<Listing>, history: seq<TradeRecord>)
    requires redis.bestDeals == deals && redis.newListings == newest
    modifies redis`bestDeals, redis`newListings
    ensures redis.bestDeals == DealsOf(deals, rows, history)
    ensures redis.newListings == NewestOf(newest, rows, history)
  {
    var i := 0;
    while i < |rows|
      invariant 0 <= i <= |rows|
      invariant redis.bestDeals == DealsOf(deals, rows[..i], history)
      invariant redis.newListings == NewestOf(newest, rows[..i], history)
    {
      assert rows[..i + 1][..i] == rows[..i];
      var item := RebuiltItem(rows[i], history);
      redis.AddNewListing(item);
      redis.AddBestDeal(item);
      i := i + 1;
    }
    assert rows[..i] == rows;
  }

  // ---------- best deals ----------

  lemma {:induction false} DealsMembers(
    start: Ranking<ListingItem>, rows: seq<Listing>, history: seq<TradeRecord>, n: Name)
    requires start.zset == []
    ensures n in DealsOf(start, rows, history).Members() <==> exists i :: 0 <= i < |rows| && rows[i].name == n
  {
    if rows != [] {
      var rest, last := rows[..|rows| - 1], rows[|rows| - 1];
      DealsMembers(start, rest, history, n);
      if n in DealsOf(start, rest, history).Members() {
        var i :| 0 <= i < |rest| && rest[i].name == n;
        assert rows[i].name == n;
      }
      forall i | 0 <= i < |rest| ensures rest[i] == rows[i] {
      }
    }
  }

  lemma {:induction false} DealsShow(start: Ranking<ListingItem>, rows: seq<Listing>, history: seq<TradeRecord>, i: nat)
    requires forall i, j :: 0 <= i < j < |rows| ==> rows[i].name != rows[j].name
    requires i < |rows|
    ensures
      var r := DealsOf(start, rows, history);
      rows[i].name in r.meta && r.meta[rows[i].name] == RebuiltItem(rows[i], history)
  {
    if i < |rows| - 1 {
      assert rows[..|rows| - 1][i] == rows[i];
      DealsShow(start, rows[..|rows| - 1], history, i);
    }
  }

  // After the rebuild best_deals shows exactly the listed names, with their
  // current price and seller.
  lemma RebuiltDeals(start: Ranking<ListingItem>, rows: seq<Listing>, t: Tables)
    requires start.zset == [] && AllRows(rows, t.listings)
    ensures DealsRebuilt(t, DealsOf(start, rows, t.history))
  {
    var r := DealsOf(start, rows, t.history);
    forall n ensures n in r.Members() <==> n in t.listings {
      DealsMembers(start, rows, t.history, n);
    }
    forall n | n in t.listings ensures n in r.meta && r.meta[n] == RebuiltItem(t.listings[n], t.history) {
      var i :| 0 <= i < |rows| && rows[i].name == n;
      DealsShow(start, rows, t.history, i);
    }
  }

  // ---------- new listings ----------

  function EntryOf(l: Listing): Entry {
    Entry(l.listedAt, l.name)
  }

  // The listings ranked above n, by time and then name.
  ghost function Newer(listings: map<Name, Listing>, n: Name): set<Entry>
    requires n in listings
  {
    set m | m in listings && Less(EntryOf(listings[n]), EntryOf(listings[m])) :: EntryOf(listings[m])
  }

  function EntriesOf(rows: seq<Listing>): (es: seq<Entry>)
    ensures |es| == |rows| && forall i :: 0 <= i < |rows| ==> es[i] == EntryOf(rows[i])
  {
    if rows == [] then [] else EntriesOf(rows[..|rows| - 1]) + [EntryOf(rows[|rows| - 1])]
  }

  lemma {:induction false} NewestStreams(start: Ranking<ListingItem>, rows: seq<Listing>, history: seq<TradeRecord>)
    requires start.zset == []
    ensures NewestOf(start, rows, history).zset == AddAll(EntriesOf(rows), NEW_LISTINGS_LIMIT)
  {
    if rows != [] {
      var es := EntriesOf(rows);
      assert es[..|es| - 1] == EntriesOf(rows[..|rows| - 1]);
      NewestStreams(start, rows[..|rows| - 1], history);
    }
  }

  lemma {:induction false} NewestShow(start: Ranking<ListingItem>, rows: seq<Listing>, history: seq<TradeRecord>, i: nat)
    requires forall i, j :: 0 <= i < j < |rows| ==> rows[i].name != rows[j].name
    requires i < |rows|
    ensures
      var r := NewestOf(start, rows, history);
      rows[i].name in r.meta && r.meta[rows[i].name] == RebuiltItem(rows[i], history)
  {
    if i < |rows| - 1 {
      assert rows[..|rows| - 1][i] == rows[i];
      NewestShow(start, rows[..|rows| - 1], history, i);
    }
  }

  lemma AboveIsNewer(rows: seq<Listing>, listings: map<Name, Listing>, n: Name)
    requires AllRows(rows, listings) && n in listings
    ensures Above(EntriesOf(rows), EntryOf(listings[n])) == Newer(listings, n)
  {
    var es := EntriesOf(rows);
    forall x | x in Above(es, EntryOf(listings[n])) ensures x in Newer(listings, n) {
      var i :| 0 <= i < |es| && es[i] == x;
      assert rows[i].name in listings && listings[rows[i].name] == rows[i];
    }
    forall x | x in Newer(listings, n) ensures x in Above(es, EntryOf(listings[n])) {
      var m :| m in listings && EntryOf(listings[m]) == x;
      var i :| 0 <= i < |rows| && rows[i].name == m;
      assert es[i] == x;
    }
  }

  lemma RebuiltNewest(start: Ranking<ListingItem>, rows: seq<Listing>, t: Tables)
    requires start.zset == [] && AllRows(rows, t.listings)
    ensures NewestRebuilt(t, NewestOf(start, rows, t.history))
  {
    forall n ensures NewestRebuiltAt(t, NewestOf(start, rows, t.history), n) {
      NewestStreams(start, rows, t.history);
      MemberIffNewest(rows, t.listings, n);
      if n in t.listings {
        var i :| 0 <= i < |rows| && rows[i].name == n;
        NewestShow(start, rows, t.history, i);
      }
    }
  }

  lemma EntriesDistinct(rows: seq<Listing>)
    requires forall i, j :: 0 <= i < j < |rows| ==> rows[i].name != rows[j].name
    ensures Distinct(EntriesOf(rows))
  {
  }

  lemma MemberIffNewest(rows: seq<Listing>, listings: map<Name, Listing>, n: Name)
    requires AllRows(rows, listings)
    ensures n in Scores(AddAll(EntriesOf(rows), NEW_LISTINGS_LIMIT)) <==>
      n in listings && |Newer(listings, n)| < NEW_LISTINGS_LIMIT
  {
    var es, z := EntriesOf(rows), AddAll(EntriesOf(rows), NEW_LISTINGS_LIMIT);
    EntriesDistinct(rows);
    if n in Scores(z) {
      var e :| e in z && e.member == n;
      StreamingKeepsByRank(es, NEW_LISTINGS_LIMIT, e);
      AddedIsListed(rows, listings, e);
    }
    if n in listings {
      StreamingKeepsByRank(es, NEW_LISTINGS_LIMIT, EntryOf(listings[n]));
      ListedIsAdded(rows, listings, n);
      AboveIsNewer(rows, listings, n);
    }
  }

  lemma AddedIsListed(rows: seq<Listing>, listings: map<Name, Listing>, e: Entry)
    requires AllRows(rows, listings) && e in EntriesOf(rows)
    ensures e.member in listings && EntryOf(listings[e.member]) == e
  {
    var i :| 0 <= i < |rows| && EntriesOf(rows)[i] == e;
    assert rows[i].name == e.member;
  }

  lemma ListedIsAdded(rows: seq<Listing>, listings: map<Name, Listing>, n: Name)
    requires AllRows(rows, listings) && n in listings
    ensures listings[n].name == n && EntryOf(listings[n]) in EntriesOf(rows)
  {
    var i :| 0 <= i < |rows| && rows[i].name == n;
    assert EntriesOf(rows)[i] == EntryOf(listings[n]);
  }

  // ---------- against the incremental rankings ----------

  ghost predicate SamePrices(a: map<Name, ListingItem>, b: map<Name, ListingItem>) {
    && a.Keys == b.Keys
    && forall n :: n in a ==> a[n].price == b[n].price && a[n].seller == b[n].seller
  }

  // Rebuilding from the tables of any reachable market gives best_deals the
  // same names, prices and sellers as the running market shows.
  lemma RebuildMatchesRunning(
    worlds: seq<World>, steps: seq<Step>, i: nat, rows: seq<Listing>, start: Ranking<ListingItem>)
    requires IsRun(worlds, steps) && i < |worlds|
    requires start.zset == [] && AllRows(rows, worlds[i].market.tables.listings)
    ensures
      var t, running := worlds[i].market.tables, worlds[i].market.rankings.bestDeals;
      var rebuilt := DealsOf(start, rows, t.history);
      && rebuilt.Members() == running.Members()
      && SamePrices(rebuilt.Visible(), running.Visible())
  {
    RunKeeps(worlds, steps, i);
    RebuiltDeals(start, rows, worlds[i].market.tables);
    BothAgree(worlds[i].market.tables, worlds[i].market.rankings.bestDeals,
      DealsOf(start, rows, worlds[i].market.tables.history));
  }

  lemma BothAgree(t: Tables, running: Ranking<ListingItem>, rebuilt: Ranking<ListingItem>)
    requires DealsAgree(t.listings, running) && DealsAgree(t.listings, rebuilt)
    ensures rebuilt.Members() == running.Members()
    ensures SamePrices(rebuilt.Visible(), running.Visible())
  {
    forall n | n in t.listings ensures n in running.Visible() && n in rebuilt.Visible() {
      assert n in running.meta && n in rebuilt.meta;
    }
    forall n | n in t.listings
      ensures rebuilt.Visible()[n].price == running.Visible()[n].price
      ensures rebuilt.Visible()[n].seller == running.Visible()[n].seller
    {
      assert n in t.listings && Shows(running.meta[n], t.listings[n]) && Shows(rebuilt.meta[n], t.listings[n]);
    }
  }

  // The running market never advertises a discount above 0.990; a rebuild
  // stays within it if and only if the name has a positive earlier price and
  // its price is above 0.95 percent of 1.26 times that price.
  lemma RebuiltWithinBoundIff(row: Listing, history: seq<TradeRecord>)
    ensures
      var base := RebuildBase(history, row.name);
      RebuiltItem(row, history).discount <= 990 <==> base > 0 && base * 2394 < row.price * 200_000
  {
    Pricing.WithinBoundIff(row.price, RebuildBase(history, row.name));
  }

  // A rebuild advertises the full discount if and only if the name has no
  // earlier price to compare with, or its price is at most 0.05 percent of the
  // benchmark.
  lemma FullDiscountIff(row: Listing, history: seq<TradeRecord>)
    ensures
      var base := RebuildBase(history, row.name);
      RebuiltItem(row, history).discount == 1000 <==> base == 0 || row.price * 200_000 <= base * 126
  {
    var base := RebuildBase(history, row.name);
    if base > 0 && row.price * 100 < base * 126 {
      Pricing.RoundsToAll(base * 126 - row.price * 100, base * 126);
    }
  }
}
