/**
 How requests are refused: which error each unmet condition gives, when those
 before it are met.
 */
module Refusals {
  import opened Domain
  import opened Tables
  import opened Pricing
  import opened Validators
  import opened TradingRules
  import opened Acceptance

  // Input 0 is output 0 of the exit that last returned the name.
  ghost predicate Returned(t: Tables, q: Request) {
    var last := LastRecord(t.history, q.name);
    && last.Some? && last.value.action.IsExit() && q.psbt.inputs != []
    && q.psbt.inputs[0].outpoint == OutPoint(last.value.txId.GetOr(""), 0)
  }

  // A list is refused in this order: pool; ownership of the inscription, unless
  // the last exit returned it; the seller; the transaction; the base; the price.
  // A transaction without inputs is refused.
  lemma ListRefusals(t: Tables, q: Request, e: Env)
    ensures
      var r := CheckList(t, q, e);
      if !PoolAgrees(t, q) then r == Failure(BadRequest)
      else if q.psbt.inputs == [] then r.Failure?
      else if !Returned(t, q) && e.rune.None? then r == Failure(NotFound)
      else if !Returned(t, q) && e.rune.value.owner != q.caller then r == Failure(Forbidden)
      else if !HoldsInscription(t, q, e) then r == Failure(BadRequest)
      else if q.party != q.caller then r == Failure(Forbidden)
      else if ValidateList(q.psbt, t.pools[q.name]).Success? && PreviousPrice(t, q.name, e).None? then
        r == Failure(Internal)
      else r.Failure? ==> r.error == BadRequest || r.error == Panicked
  {
  }

  // A delist is refused to anyone but the seller.
  lemma DelistRefusals(t: Tables, q: Request)
    ensures
      var r := CheckDelist(t, q);
      if !PoolAgrees(t, q) || q.name !in t.listings then r == Failure(BadRequest)
      else if t.listings[q.name].seller != q.caller then r == Failure(Forbidden)
      else r.Failure? ==> r.error == BadRequest || r.error == Panicked
  {
  }

  // A purchase is refused for another buyer, and for a fee that is not the quoted
  // one.
  ghost predicate RefusedAs(t: Tables, q: Request, r: Result<TradeRecord>) {
    if !PoolAgrees(t, q) then r == Failure(BadRequest)
    else if q.party != q.caller then r == Failure(Forbidden)
    else if q.name !in t.listings then r == Failure(BadRequest)
    else
      var fee := PlatformFee(t, t.listings[q.name], q.caller);
      if fee.Failure? then r == Failure(Panicked)
      else if q.fee != fee.value then r == Failure(BadRequest)
      else r.Failure? ==> r.error == BadRequest || r.error == Panicked
  }

  lemma BuyAndRelistRefused(t: Tables, q: Request, e: Env)
    ensures RefusedAs(t, q, CheckBuyAndRelist(t, q, e))
  {
  }

  lemma BuyAndDelistRefused(t: Tables, q: Request, e: Env)
    ensures RefusedAs(t, q, CheckBuyAndDelist(t, q, e))
  {
  }

  lemma PurchaseRefusals(t: Tables, action: Action, q: Request, e: Env)
    requires action.IsBuy()
    ensures RefusedAs(t, q, Check(t, action, q, e))
  {
    if action.BuyAndRelist? { BuyAndRelistRefused(t, q, e); } else { BuyAndDelistRefused(t, q, e); }
  }

  // A relist is refused for an unlisted name, another's listing or a price out
  // of the band; then the canister decides.
  lemma RelistRefusals(t: Tables, caller: Address, name: Name, newPrice: nat, e: Env)
    ensures
      var r := CheckRelist(t, caller, name, newPrice, e);
      if name !in t.listings || t.listings[name].seller != caller then r == Failure(BadRequest)
      else if ValidatePrice(PreviousPrice(t, name, e).GetOr(t.listings[name].price), newPrice).Failure? then
        r == Failure(BadRequest)
      else r.Success? <==> e.invokeOk
    ensures CheckRelist(t, caller, name, newPrice, e).Failure? ==>
      CheckRelist(t, caller, name, newPrice, e).error == BadRequest ||
      CheckRelist(t, caller, name, newPrice, e).error == Canister
  {
  }
}
