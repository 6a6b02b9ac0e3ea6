/**
 What the queries over the trade history return, record by record: the newest
 record of a kind, how many there are, and what they add up to.
 */
module Queries {
  import opened Domain
  import opened Sums
  import opened Tables

  // ---------- the newest record of a kind ----------

  ghost predicate BuyOf(r: TradeRecord, n: Name) {
    r.name == n && (r.action == BuyAndRelist || r.action == BuyAndDelist)
  }

  ghost predicate NoBuy(h: seq<TradeRecord>, n: Name) {
    forall k :: 0 <= k < |h| ==> !BuyOf(h[k], n)
  }

  ghost predicate NewestBuy(h: seq<TradeRecord>, n: Name, i: int) {
    0 <= i < |h| && BuyOf(h[i], n) && forall k :: i < k < |h| ==> !BuyOf(h[k], n)
  }

  // The last bought price is the price of the newest buy of either kind.
  lemma {:induction false} LastBoughtIs(h: seq<TradeRecord>, n: Name, i: int)
    ensures NoBuy(h, n) ==> LastBoughtPrice(h, n) == None
    ensures NewestBuy(h, n, i) ==> LastBoughtPrice(h, n) == h[i].price
  {
    if h != [] {
      var rest := h[..|h| - 1];
      LastBoughtIs(rest, n, i);
      forall k | 0 <= k < |rest| ensures rest[k] == h[k] {
      }
    }
  }

  lemma SomeNewestBuy(h: seq<TradeRecord>, n: Name) returns (i: int)
    ensures NoBuy(h, n) || NewestBuy(h, n, i)
  {
    i := |h| - 1;
    while i >= 0 && !BuyOf(h[i], n)
      invariant -1 <= i < |h|
      invariant forall k :: i < k < |h| ==> !BuyOf(h[k], n)
    {
      i := i - 1;
    }
  }

  // The newest record of a name, and of a transaction.
  lemma {:induction false} LastRecordIs(h: seq<TradeRecord>, n: Name, i: int)
    ensures LastRecord(h, n).None? <==> forall k :: 0 <= k < |h| ==> h[k].name != n
    ensures 0 <= i < |h| && h[i].name == n && (forall k :: i < k < |h| ==> h[k].name != n) ==>
      LastRecord(h, n) == Some(h[i])
  {
    if h != [] {
      var rest := h[..|h| - 1];
      LastRecordIs(rest, n, i);
      forall k | 0 <= k < |rest| ensures rest[k] == h[k] {
      }
    }
  }

  lemma {:induction false} LookupIs(h: seq<TradeRecord>, txId: TxId, i: int)
    ensures Lookup(h, txId).None? <==> forall k :: 0 <= k < |h| ==> h[k].txId != Some(txId)
    ensures 0 <= i < |h| && h[i].txId == Some(txId) && (forall k :: i < k < |h| ==> h[k].txId != Some(txId)) ==>
      Lookup(h, txId) == Some(h[i])
  {
    if h != [] {
      var rest := h[..|h| - 1];
      LookupIs(rest, txId, i);
      forall k | 0 <= k < |rest| ensures rest[k] == h[k] {
      }
    }
  }

  // ---------- counts and sums ----------

  function Records(h: seq<TradeRecord>, n: Name): seq<int> {
    seq(|h|, i requires 0 <= i < |h| => if h[i].name == n then 1 else 0)
  }

  function Buys(h: seq<TradeRecord>, n: Name): seq<int> {
    seq(|h|, i requires 0 <= i < |h| =>
      if h[i].name == n && (h[i].action == BuyAndRelist || h[i].action == BuyAndDelist) then 1 else 0)
  }

  function Sales(h: seq<TradeRecord>, s: Address): seq<int> {
    seq(|h|, i requires 0 <= i < |h| =>
      if h[i].seller == Some(s) && (h[i].action == BuyAndRelist || h[i].action == BuyAndDelist) then 1 else 0)
  }

  // New price less old price of each sale.
  function Profits(h: seq<TradeRecord>, s: Address): seq<int> {
    seq(|h|, i requires 0 <= i < |h| =>
      if h[i].seller == Some(s) && (h[i].action == BuyAndRelist || h[i].action == BuyAndDelist)
        then h[i].price.GetOr(0) - h[i].previousPrice.GetOr(0) else 0)
  }

  lemma {:induction false} CountsAre(h: seq<TradeRecord>, n: Name)
    ensures RecordCount(h, n) == Total(Records(h, n)) && TradedCount(h, n) == Total(Buys(h, n))
  {
    if h != [] {
      var rest := h[..|h| - 1];
      CountsAre(rest, n);
      assert Records(h, n)[..|h| - 1] == Records(rest, n);
      assert Buys(h, n)[..|h| - 1] == Buys(rest, n);
    }
  }

  lemma {:induction false} EarningsAre(h: seq<TradeRecord>, s: Address)
    ensures SalesOf(h, s) == Total(Sales(h, s)) && Earned(h, s) == Total(Profits(h, s))
  {
    if h != [] {
      var rest := h[..|h| - 1];
      EarningsAre(rest, s);
      assert Sales(h, s)[..|h| - 1] == Sales(rest, s);
      assert Profits(h, s)[..|h| - 1] == Profits(rest, s);
    }
  }
}
