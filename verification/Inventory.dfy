/**
 A user's inventory, and how the sellers' listed values make up the market
 valuation.
 */
module Inventory {
  import opened Domain
  import opened Tables
  import opened Sums

  datatype NameHoldings = NameHoldings(
    listed: seq<Name>, unlisted: seq<Name>, listedCount: nat, unlistedCount: nat, listedValue: nat)

  ghost predicate NoDuplicates(s: seq<Name>) {
    forall i, j :: 0 <= i < j < |s| ==> s[i] != s[j]
  }

  ghost function SetOf(s: seq<Name>): set<Name> {
    set n | n in s
  }

  // ---------- the queries ----------

  // Listings of one seller.
  function ListedBy(listings: map<Name, Listing>, seller: Address): set<Name> {
    set n | n in listings && listings[n].seller == seller
  }

  // Names of a user's pending exits: own delists, or purchases to the wallet.
  function PendingExits(h: seq<TradeRecord>, user: Address, action: Action): seq<Name> {
    if h == [] then []
    else
      var rest, r := h[..|h| - 1], h[|h| - 1];
      var owner := if action.Delist? then r.seller else r.buyer;
      PendingExits(rest, user, action) +
        if owner == Some(user) && r.status == Pending && r.action == action then [r.name] else []
  }

  lemma {:induction false} PendingExitsFacts(h: seq<TradeRecord>, user: Address, action: Action, n: Name)
    ensures n in PendingExits(h, user, action) <==>
      exists i :: 0 <= i < |h| && h[i].name == n && h[i].action == action && h[i].status == Pending &&
        (if action.Delist? then h[i].seller else h[i].buyer) == Some(user)
  {
    if h != [] {
      var rest := h[..|h| - 1];
      PendingExitsFacts(rest, user, action, n);
      if n in PendingExits(rest, user, action) {
        var i :| 0 <= i < |rest| && rest[i].name == n && rest[i].action == action && rest[i].status == Pending &&
          (if action.Delist? then rest[i].seller else rest[i].buyer) == Some(user);
        assert h[i] == rest[i];
      }
      forall i | 0 <= i < |rest| ensures h[i] == rest[i] {
      }
    }
  }

  // ---------- the unlisted names ----------

  // Push each name that is not there yet.
  method PushMissing(unlisted: seq<Name>, names: seq<Name>) returns (result: seq<Name>)
    requires NoDuplicates(unlisted)
    ensures NoDuplicates(result)
    ensures SetOf(result) == SetOf(unlisted) + SetOf(names)
    ensures unlisted <= result
  {
    result := unlisted;
    var i := 0;
    while i < |names|
      invariant 0 <= i <= |names|
      invariant NoDuplicates(result)
      invariant unlisted <= result
      invariant SetOf(result) == SetOf(unlisted) + SetOf(names[..i])
    {
      ghost var before := SetOf(result);
      if names[i] !in result {
        result := result + [names[i]];
      }
      assert SetOf(result) == before + {names[i]};
      assert SetOf(names[..i + 1]) == SetOf(names[..i]) + {names[i]} by {
        assert names[..i + 1] == names[..i] + [names[i]];
      }
      i := i + 1;
    }
    assert names[..i] == names;
  }

  // Owned on chain and not listed, in whatever order the set is walked.
  method OwnedUnlisted(owned: set<Name>, listed: set<Name>) returns (unlisted: seq<Name>)
    ensures NoDuplicates(unlisted)
    ensures SetOf(unlisted) == owned - listed
  {
    unlisted := [];
    var rest := owned;
    while rest != {}
      invariant rest <= owned
      invariant NoDuplicates(unlisted)
      invariant SetOf(unlisted) == (owned - rest) - listed
      decreases |rest|
    {
      var n :| n in rest;
      ghost var before := SetOf(unlisted);
      if n !in listed {
        assert n !in unlisted by { assert n !in before; }
        unlisted := unlisted + [n];
        assert SetOf(unlisted) == before + {n};
      }
      rest := rest - {n};
    }
  }

  // The rows of `SELECT ... FROM listings WHERE seller_address = ...`, in any order.
  ghost predicate RowsOf(rows: seq<Listing>, listings: map<Name, Listing>, seller: Address) {
    && (forall i, j :: 0 <= i < j < |rows| ==> rows[i].name != rows[j].name)
    && (forall i :: 0 <= i < |rows| ==>
         rows[i].name in ListedBy(listings, seller) && listings[rows[i].name] == rows[i])
    && (forall n :: n in ListedBy(listings, seller) ==> exists i :: 0 <= i < |rows| && rows[i].name == n)
  }

  function NamesOf(rows: seq<Listing>): (names: seq<Name>)
    ensures |names| == |rows| && forall i :: 0 <= i < |rows| ==> names[i] == rows[i].name
  {
    if rows == [] then [] else NamesOf(rows[..|rows| - 1]) + [rows[|rows| - 1].name]
  }

  function TotalPrice(rows: seq<Listing>): nat {
    if rows == [] then 0 else TotalPrice(rows[..|rows| - 1]) + rows[|rows| - 1].price
  }

  // (owned on chain - listed) + pending delists + pending purchases, each name once.
  method GetInventory(user: Address, t: Tables, rows: seq<Listing>, owned: seq<Name>)
    returns (inventory: NameHoldings)
    requires RowsOf(rows, t.listings, user)
    ensures NoDuplicates(inventory.listed) && SetOf(inventory.listed) == ListedBy(t.listings, user)
    ensures inventory.listedValue == SellerValue(t.listings, user)
    ensures NoDuplicates(inventory.unlisted)
    ensures SetOf(inventory.unlisted) ==
      (SetOf(owned) - ListedBy(t.listings, user)) + SetOf(PendingExits(t.history, user, Delist)) +
      SetOf(PendingExits(t.history, user, BuyAndDelist))
    ensures inventory.listedCount == |inventory.listed| && inventory.unlistedCount == |inventory.unlisted|
  {
    var listedNames := NamesOf(rows);
    var listedSet := set n | n in listedNames;
    assert listedSet == ListedBy(t.listings, user);
    RowsValue(rows, t.listings, user);
    var allNames := set n | n in owned;
    var unlisted := OwnedUnlisted(allNames, listedSet);
    unlisted := PushMissing(unlisted, PendingExits(t.history, user, Delist));
    unlisted := PushMissing(unlisted, PendingExits(t.history, user, BuyAndDelist));
    inventory := NameHoldings(listedNames, unlisted, |listedNames|, |unlisted|, TotalPrice(rows));
  }

  // ---------- valuation ----------

  ghost function Prices(listings: map<Name, Listing>): map<Name, int> {
    map n | n in listings :: listings[n].price
  }

  // sum(price_sats) over all listings.
  ghost function Valuation(listings: map<Name, Listing>): int {
    Sum(Prices(listings))
  }

  ghost function PricesOf(listings: map<Name, Listing>, seller: Address): map<Name, int> {
    map n | n in listings && listings[n].seller == seller :: listings[n].price
  }

  // sum over the listings of one seller.
  ghost function SellerValue(listings: map<Name, Listing>, seller: Address): int {
    Sum(PricesOf(listings, seller))
  }

  ghost function SellerValues(listings: map<Name, Listing>, sellers: set<Address>): map<Address, int> {
    map s | s in sellers :: SellerValue(listings, s)
  }

  // Summing the rows in the order the query returns them gives the order-free sum.
  lemma {:induction false} RowsSum(rows: seq<Listing>, prices: map<Name, int>)
    requires forall i, j :: 0 <= i < j < |rows| ==> rows[i].name != rows[j].name
    requires forall i :: 0 <= i < |rows| ==> rows[i].name in prices && prices[rows[i].name] == rows[i].price
    requires forall n :: n in prices ==> exists i :: 0 <= i < |rows| && rows[i].name == n
    ensures TotalPrice(rows) == Sum(prices)
  {
    if rows == [] {
      assert prices == map[];
    } else {
      var rest, last := rows[..|rows| - 1], rows[|rows| - 1];
      var fewer := prices - {last.name};
      forall n | n in fewer ensures exists i :: 0 <= i < |rest| && rest[i].name == n {
        var i :| 0 <= i < |rows| && rows[i].name == n;
        assert rest[i].name == n;
      }
      RowsSum(rest, fewer);
      SumPick(prices, last.name);
    }
  }

  lemma RowsValue(rows: seq<Listing>, listings: map<Name, Listing>, seller: Address)
    requires RowsOf(rows, listings, seller)
    ensures TotalPrice(rows) == SellerValue(listings, seller)
  {
    forall n | n in PricesOf(listings, seller) ensures exists i :: 0 <= i < |rows| && rows[i].name == n {
      assert n in ListedBy(listings, seller);
    }
    RowsSum(rows, PricesOf(listings, seller));
  }

  // A listing belongs to exactly one seller's inventory.
  lemma SellersPartition(listings: map<Name, Listing>, n: Name, s: Address)
    ensures n in listings ==> (n in ListedBy(listings, s) <==> s == listings[n].seller)
    ensures n !in listings ==> n !in ListedBy(listings, s)
  {
  }

  lemma ZeroSum(m: map<string, int>)
    requires forall k :: k in m ==> m[k] == 0
    ensures Sum(m) == 0
    decreases |m|
  {
    if m != map[] {
      var k :| k in m;
      SumPick(m, k);
      assert (m - {k}).Keys == m.Keys - {k};
      ZeroSum(m - {k});
    }
  }

  // Listed values of all sellers together are the market valuation.
  lemma {:induction false} ValuesSumToValuation(listings: map<Name, Listing>, sellers: set<Address>)
    requires forall n :: n in listings ==> listings[n].seller in sellers
    ensures Sum(SellerValues(listings, sellers)) == Valuation(listings)
    decreases |listings|
  {
    if listings == map[] {
      NothingListed(listings, sellers);
    } else {
      var n :| n in listings;
      assert (listings - {n}).Keys == listings.Keys - {n};
      ValuesSumToValuation(listings - {n}, sellers);
      ValuationOf(listings, n);
      SellerValuesOf(listings, sellers, n);
    }
  }

  lemma NothingListed(listings: map<Name, Listing>, sellers: set<Address>)
    requires listings == map[]
    ensures Sum(SellerValues(listings, sellers)) == Valuation(listings)
  {
    forall s | s in sellers ensures SellerValue(listings, s) == 0 {
      assert PricesOf(listings, s) == map[];
    }
    ZeroSum(SellerValues(listings, sellers));
    assert Prices(listings) == map[];
  }

  lemma ValuationOf(listings: map<Name, Listing>, n: Name)
    requires n in listings
    ensures Valuation(listings) == Valuation(listings - {n}) + listings[n].price
  {
    assert Prices(listings) == Prices(listings - {n})[n := listings[n].price];
    SumUpdate(Prices(listings - {n}), n, listings[n].price);
  }

  lemma SellerValuesOf(listings: map<Name, Listing>, sellers: set<Address>, n: Name)
    requires n in listings && listings[n].seller in sellers
    ensures Sum(SellerValues(listings, sellers)) ==
      Sum(SellerValues(listings - {n}, sellers)) + listings[n].price
  {
    forall s | s in sellers
      ensures SellerValue(listings, s) ==
        SellerValue(listings - {n}, s) + if s == listings[n].seller then listings[n].price else 0
    {
      OneListingMore(listings - {n}, listings, n, s);
    }
    SumBump(SellerValues(listings - {n}, sellers), SellerValues(listings, sellers),
      listings[n].seller, listings[n].price);
  }

  lemma SumBump(before: map<string, int>, after: map<string, int>, k: string, amount: int)
    requires k in before && after.Keys == before.Keys
    requires forall s :: s in before ==> after[s] == before[s] + if s == k then amount else 0
    ensures Sum(after) == Sum(before) + amount
  {
    OneKey(before, after, k, amount);
    SumUpdate(before, k, before[k] + amount);
  }

  lemma OneKey(before: map<string, int>, after: map<string, int>, k: string, amount: int)
    requires k in before && after.Keys == before.Keys
    requires forall s :: s in before ==> after[s] == before[s] + if s == k then amount else 0
    ensures after == before[k := before[k] + amount]
  {
    var bumped := before[k := before[k] + amount];
    forall s | s in after ensures s in bumped && after[s] == bumped[s] {
      assert s in before;
    }
    assert after.Keys == bumped.Keys;
  }

  lemma OneListingMore(rest: map<Name, Listing>, listings: map<Name, Listing>, n: Name, s: Address)
    requires n in listings && rest == listings - {n}
    ensures SellerValue(listings, s) == SellerValue(rest, s) + if s == listings[n].seller then listings[n].price else 0
  {
    var a, b := PricesOf(rest, s), PricesOf(listings, s);
    if s == listings[n].seller {
      assert b == a[n := listings[n].price];
      SumUpdate(a, n, listings[n].price);
    } else {
      assert b == a;
    }
  }
}
