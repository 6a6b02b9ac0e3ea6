/**
 The trading service as an object: it reads the stores, stores a record, calls
 the canister and hands the record to the event service.
 */
module Trading {
  import opened Domain
  import opened Pricing
  import opened EventServices
  import opened PostgresStore
  import opened TradingRules

  class TradingService {
    const events: EventService
    const postgres: Postgres

    constructor (events: EventService)
      ensures this.events == events && this.postgres == events.postgres
    {
      this.events, this.postgres := events, events.postgres;
    }

    ghost predicate Wired() {
      postgres == events.postgres
    }

    // Common end of the four transaction-backed operations.
    method Submit(r: TradeRecord, e: Env) returns (ok: bool)
      requires Wired() && r.txId.Some?
      modifies events, postgres, events.redis
      ensures events.Model() == TradingRules.Submit(old(events.Model()), r, e)
      ensures ok == e.invokeOk
    {
      postgres.AddTradeRecord(r);
      ok := e.invokeOk;
      if ok {
        events.HandlePending(r, e.now);
      } else {
        postgres.DelTradeRecord(r.txId.value);
      }
    }

    method List(q: Request, e: Env) returns (r: Result<TradeResponse>)
      requires Wired()
      modifies events, postgres, events.redis
      ensures (events.Model(), r) == TradingRules.Trade(old(events.Model()), Action.List, q, e)
    {
      var checked := CheckList(postgres.Model(), q, e);
      if checked.Failure? {
        return Failure(checked.error);
      }
      var ok := Submit(checked.value, e);
      r := if ok then Success(ListResponse(q.psbt.txId, q.name, q.price, q.party)) else Failure(Canister);
    }

    method Delist(q: Request, e: Env) returns (r: Result<TradeResponse>)
      requires Wired()
      modifies events, postgres, events.redis
      ensures (events.Model(), r) == TradingRules.Trade(old(events.Model()), Action.Delist, q, e)
    {
      var checked := CheckDelist(postgres.Model(), q);
      if checked.Failure? {
        return Failure(checked.error);
      }
      var ok := Submit(checked.value, e);
      r := if ok then Success(DelistResponse(q.psbt.txId, q.name)) else Failure(Canister);
    }

    method BuyAndRelist(q: Request, e: Env) returns (r: Result<TradeResponse>)
      requires Wired()
      modifies events, postgres, events.redis
      ensures (events.Model(), r) == TradingRules.Trade(old(events.Model()), Action.BuyAndRelist, q, e)
    {
      var checked := CheckBuyAndRelist(postgres.Model(), q, e);
      if checked.Failure? {
        return Failure(checked.error);
      }
      var ok := Submit(checked.value, e);
      r := if ok then Success(ListResponse(q.psbt.txId, q.name, q.price, q.party)) else Failure(Canister);
    }

    method BuyAndDelist(q: Request, e: Env) returns (r: Result<TradeResponse>)
      requires Wired()
      modifies events, postgres, events.redis
      ensures (events.Model(), r) == TradingRules.Trade(old(events.Model()), Action.BuyAndDelist, q, e)
    {
      var checked := CheckBuyAndDelist(postgres.Model(), q, e);
      if checked.Failure? {
        return Failure(checked.error);
      }
      var ok := Submit(checked.value, e);
      r := if ok then Success(ListResponse(q.psbt.txId, q.name, 0, q.party)) else Failure(Canister);
    }

    method Relist(caller: Address, name: Name, newPrice: nat, e: Env) returns (r: Result<nat>)
      requires Wired()
      modifies events, postgres, events.redis
      ensures (events.Model(), r) == TradingRules.RelistName(old(events.Model()), caller, name, newPrice, e)
    {
      if name !in postgres.listings {
        return Failure(BadRequest);
      }
      var before := postgres.listings[name];
      if before.seller != caller {
        return Failure(BadRequest);
      }
      var base := PreviousPrice(postgres.Model(), name, e).GetOr(before.price);
      if ValidatePrice(base, newPrice).Failure? {
        return Failure(ValidatePrice(base, newPrice).error);
      }
      if !e.invokeOk {
        return Failure(Canister);
      }
      var record := TradeRecord(
        name, before.seller, Action.Relist, None, Finalized, Some(before.seller), Some(before.price), Some(newPrice),
        before.utxoSats, None, None);
      postgres.AddTradeRecord(record);
      postgres.UpdateListingPrice(name, newPrice);
      if name in postgres.listings {
        events.UpdateListingRankings(postgres.listings[name], base, false);
      }
      r := Success(newPrice);
    }
  }
}
