/**
 What an accepted request guarantees about the record it writes.
 */
module Acceptance {
  import opened Domain
  import opened Tables
  import opened Pricing
  import opened Validators
  import opened TradingRules
  import opened Runs
  import opened Invariants

  // ---------- prices looked up ----------

  lemma {:induction false} LastBoughtIsARecord(h: seq<TradeRecord>, n: Name)
    requires LastBoughtPrice(h, n).Some?
    ensures exists i :: 0 <= i < |h| && h[i].name == n && h[i].price == LastBoughtPrice(h, n)
  {
    var rest, last := h[..|h| - 1], h[|h| - 1];
    if !(last.name == n && last.action.IsBuy()) {
      LastBoughtIsARecord(rest, n);
      var i :| 0 <= i < |rest| && rest[i].name == n && rest[i].price == LastBoughtPrice(rest, n);
      assert h[i] == rest[i];
    }
  }

  lemma PreviousPriceIsPriced(t: Tables, n: Name, e: Env)
    requires PriceInv(t) && PreviousPrice(t, n, e).Some?
    ensures Priced(PreviousPrice(t, n, e).value, RecordCount(t.history, n))
  {
    if e.boughtLookupOk && LastBoughtPrice(t.history, n).Some? {
      LastBoughtIsARecord(t.history, n);
    } else {
      var p := PreviousPrice(t, n, e).value;
      StartWithinGrowth(p);
      GrowthMonotone(p, 0, RecordCount(t.history, n));
    }
  }

  // ---------- the ids of known transactions ----------

  lemma NewIdIsFresh(h: seq<TradeRecord>, chain: map<TxId, seq<TxOut>>, txId: TxId)
    requires RecordsInv(h, chain) && txId !in chain
    ensures Fresh(h, txId)
  {
  }

  lemma BackedValue(t: Tables, chain: map<TxId, seq<TxOut>>, n: Name)
    requires RecordsInv(t.history, chain) && ListingsInv(t) && n in t.listings
    ensures t.listings[n].txId in chain && chain[t.listings[n].txId] != []
    ensures chain[t.listings[n].txId][0].value == t.listings[n].utxoSats
  {
    assert Backed(t, n);
    LookupFacts(t.history, t.listings[n].txId);
  }

  // A claim about input 0 that is accepted is the listing's own output value.
  lemma SpentValue(t: Tables, chain: map<TxId, seq<TxOut>>, n: Name, psbt: Psbt)
    requires RecordsInv(t.history, chain) && ListingsInv(t) && n in t.listings
    requires ClaimAgrees(chain, psbt) && Spends(psbt, t.listings[n]) && CarriesInput0(psbt)
    ensures GetInput0Value(psbt.inputs[0]) == Success(t.listings[n].utxoSats)
    ensures psbt.outputs[0].value == t.listings[n].utxoSats
  {
    BackedValue(t, chain, n);
  }

  // ---------- the four operations ----------

  // The record fits the tables and is backed by its own transaction.
  ghost predicate WellRecorded(t: Tables, chain: map<TxId, seq<TxOut>>, action: Action, q: Request, r: TradeRecord) {
    && Fits(t, r)
    && r.name == q.name && r.action == action && r.txId == Some(q.psbt.txId) && r.status == Pending
    && KnownValue(chain[q.psbt.txId := q.psbt.outputs], r)
  }

  lemma ListFits(t: Tables, chain: map<TxId, seq<TxOut>>, q: Request, e: Env)
    requires RecordsInv(t.history, chain) && PriceInv(t)
    requires q.caller in t.users && q.psbt.txId !in chain
    requires CheckList(t, q, e).Success? && q.name !in t.listings
    ensures WellRecorded(t, chain, List, q, CheckList(t, q, e).value)
  {
    NewIdIsFresh(t.history, chain, q.psbt.txId);
    PreviousPriceIsPriced(t, q.name, e);
  }

  // The intention names the cached pool of the name.
  ghost predicate PoolAgrees(t: Tables, q: Request) {
    q.name in t.pools && q.intentionPool == Some(t.pools[q.name])
  }

  // Input 0 is output 0 of the exit that last returned the name, or the ord
  // backend confirms the caller's ownership and the inscription in the output.
  ghost predicate HoldsInscription(t: Tables, q: Request, e: Env)
    requires q.psbt.inputs != []
  {
    var last := LastRecord(t.history, q.name);
    || (last.Some? && last.value.action.IsExit() &&
        q.psbt.inputs[0].outpoint == OutPoint(last.value.txId.GetOr(""), 0))
    || (e.rune.Some? && e.rune.value.owner == q.caller && e.rune.value.confirmations >= 3 &&
        e.inscriptions.Some? && e.rune.value.inscriptionId in e.inscriptions.value)
  }

  // What acceptance of a list means: a fully signed transaction moves the
  // caller's inscription whole into the pool, at a permitted price.
  ghost predicate AcceptedList(t: Tables, q: Request, e: Env, r: TradeRecord) {
    && PoolAgrees(t, q) && q.party == q.caller
    && CarriesInput0(q.psbt) && SignedFrom(q.psbt, 0)
    && q.psbt.outputs[0].address == Some(t.pools[q.name])
    && HoldsInscription(t, q, e)
    && PreviousPrice(t, q.name, e).Some?
    && ValidatePrice(PreviousPrice(t, q.name, e).value, q.price).Success?
    && r == TradeRecord(
         q.name, q.caller, List, Some(q.psbt.txId), Pending, Some(q.caller), PreviousPrice(t, q.name, e),
         Some(q.price), q.psbt.outputs[0].value, None, None)
  }

  lemma ListAcceptedIff(t: Tables, q: Request, e: Env, r: TradeRecord)
    ensures CheckList(t, q, e) == Success(r) <==> AcceptedList(t, q, e, r)
  {
  }

  // What acceptance of a delist means: the listed output goes whole back to
  // the seller, who asked for it.
  ghost predicate AcceptedDelist(t: Tables, q: Request, r: TradeRecord) {
    && PoolAgrees(t, q) && q.name in t.listings
    && var l := t.listings[q.name];
    && l.seller == q.caller
    && CarriesInput0(q.psbt) && Spends(q.psbt, l) && SignedFrom(q.psbt, 1)
    && q.psbt.outputs[0].address == Some(l.seller)
    && r == TradeRecord(
         q.name, l.seller, Delist, Some(q.psbt.txId), Pending, Some(l.seller), Some(l.price), Some(l.price),
         q.psbt.outputs[0].value, None, None)
  }

  lemma DelistAcceptedIff(t: Tables, q: Request, r: TradeRecord)
    ensures CheckDelist(t, q) == Success(r) <==> AcceptedDelist(t, q, r)
  {
  }

  lemma DelistFits(t: Tables, chain: map<TxId, seq<TxOut>>, q: Request, r: TradeRecord)
    requires RecordsInv(t.history, chain) && ListingsInv(t) && UsersInv(t)
    requires q.caller in t.users && q.psbt.txId !in chain && ClaimAgrees(chain, q.psbt)
    requires AcceptedDelist(t, q, r)
    ensures WellRecorded(t, chain, Delist, q, r)
  {
    NewIdIsFresh(t.history, chain, q.psbt.txId);
    SpentValue(t, chain, q.name, q.psbt);
  }

  // What acceptance of a buy means: the listed output is spent whole into
  // output 0, seller and collector are paid exactly, every other input is
  // signed, and the record says so.
  ghost predicate AcceptedBuy(t: Tables, action: Action, q: Request, collector: Address, r: TradeRecord) {
    && PoolAgrees(t, q) && q.name in t.listings && q.party == q.caller
    && var l := t.listings[q.name];
    && PlatformFee(t, l, q.party) == Success(q.fee) && q.fee <= l.price && q.payment == l.price - q.fee
    && CarriesInput0(q.psbt) && Spends(q.psbt, l) && SignedFrom(q.psbt, 1)
    && q.psbt.outputs[0].address == Some(if action.BuyAndRelist? then t.pools[q.name] else q.party)
    && Pays(q.psbt, 1, l.seller, l.price - q.fee)
    && Pays(q.psbt, 2, collector, q.fee)
    && (action.BuyAndRelist? ==> ValidatePrice(l.price, q.price).Success?)
    && r == TradeRecord(
         q.name, q.party, action, Some(q.psbt.txId), Pending, Some(l.seller), Some(l.price),
         Some(if action.BuyAndRelist? then q.price else l.price),
         q.psbt.outputs[0].value, Some(q.party), Some(q.fee))
  }

  lemma BuyAndRelistAcceptedIff(t: Tables, q: Request, e: Env, r: TradeRecord)
    ensures CheckBuyAndRelist(t, q, e) == Success(r) <==> AcceptedBuy(t, BuyAndRelist, q, e.collector, r)
  {
  }

  lemma BuyAndDelistAcceptedIff(t: Tables, q: Request, e: Env, r: TradeRecord)
    ensures CheckBuyAndDelist(t, q, e) == Success(r) <==> AcceptedBuy(t, BuyAndDelist, q, e.collector, r)
  {
  }

  // What acceptance of a relist means: the seller asks, the new price is
  // permitted by the last bought price (or, failing that, the etching fee, or
  // the listed price), and the canister agrees.
  lemma RelistAcceptedIff(t: Tables, caller: Address, name: Name, newPrice: nat, e: Env)
    ensures CheckRelist(t, caller, name, newPrice, e).Success? <==>
      && name in t.listings && t.listings[name].seller == caller && e.invokeOk
      && ValidatePrice(PreviousPrice(t, name, e).GetOr(t.listings[name].price), newPrice).Success?
  {
  }

  lemma BuyFits(t: Tables, chain: map<TxId, seq<TxOut>>, action: Action, q: Request, collector: Address, r: TradeRecord)
    requires RecordsInv(t.history, chain) && ListingsInv(t) && UsersInv(t)
    requires q.caller in t.users && q.psbt.txId !in chain && ClaimAgrees(chain, q.psbt)
    requires action.IsBuy() && AcceptedBuy(t, action, q, collector, r)
    ensures WellRecorded(t, chain, action, q, r)
  {
    NewIdIsFresh(t.history, chain, q.psbt.txId);
    SpentValue(t, chain, q.name, q.psbt);
  }

  // Every trade the canister takes writes a record that fits the tables and is
  // backed by its own transaction.
  lemma TakenTradeFits(w: World, s: Step)
    requires Inv(w) && Admissible(w, s) && TakenTrade(w.market, s).Some?
    ensures WellRecorded(w.market.tables, w.chain, s.action, s.q, TakenTrade(w.market, s).value)
  {
    var t, r := w.market.tables, TakenTrade(w.market, s).value;
    match s.action
    case List => ListFits(t, w.chain, s.q, s.e);
    case Delist =>
      DelistAcceptedIff(t, s.q, r);
      DelistFits(t, w.chain, s.q, r);
    case BuyAndRelist =>
      BuyAndRelistAcceptedIff(t, s.q, s.e, r);
      BuyFits(t, w.chain, s.action, s.q, s.e.collector, r);
    case BuyAndDelist =>
      BuyAndDelistAcceptedIff(t, s.q, s.e, r);
      BuyFits(t, w.chain, s.action, s.q, s.e.collector, r);
    case Relist =>
  }

  lemma RelistFits(t: Tables, caller: Address, name: Name, newPrice: nat, e: Env)
    requires ListingsInv(t) && PriceInv(t) && CheckRelist(t, caller, name, newPrice, e).Success?
    ensures
      var r := CheckRelist(t, caller, name, newPrice, e).value;
      var base := PreviousPrice(t, name, e).GetOr(t.listings[name].price);
      && name in t.listings && r.name == name
      && Shape(r) && r.action.Relist? && r.price == Some(newPrice)
      && r.seller == Some(t.listings[name].seller) && r.previousPrice == Some(t.listings[name].price)
      && ValidatePrice(base, newPrice).Success?
      && Priced(base, RecordCount(t.history, name))
      && r.buyer.None?
  {
    if PreviousPrice(t, name, e).Some? { PreviousPriceIsPriced(t, name, e); }
  }
}
