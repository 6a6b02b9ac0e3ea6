/**
 The event service as an object over the two stores. Each method is proved to
 do exactly what the function of the same name in `EventHandling` says.
 */
module EventServices {
  import opened Domain
  import opened Rankings
  import opened Tables
  import opened PostgresStore
  import opened EventHandling

  /** The event service over the two stores. */
  class EventService {
    const postgres: Postgres
    const redis: Redis
    var broadcasts: seq<BroadcastEvent>

    constructor (postgres: Postgres, redis: Redis)
      ensures this.postgres == postgres && this.redis == redis && broadcasts == []
    {
      this.postgres, this.redis, broadcasts := postgres, redis, [];
    }

    function Model(): Market
      reads this, postgres, redis
    {
      Market(postgres.Model(), redis.Model(), broadcasts)
    }

    method Broadcast(e: BroadcastEvent)
      modifies this`broadcasts
      ensures broadcasts == old(broadcasts) + [e]
    {
      broadcasts := broadcasts + [e];
    }

    method UpdateListingRankings(l: Listing, previousPrice: nat, isNew: bool)
      modifies this, redis
      ensures Model() == EventHandling.UpdateListingRankings(old(Model()), l, previousPrice, isNew)
    {
      var item := ItemOf(l, previousPrice);
      if isNew {
        redis.AddNewListing(item);
        Broadcast(NewListing(item));
      }
      redis.AddBestDeal(item);
      Broadcast(BestDeal(item));
    }

    method RemoveListingRankings(name: Name)
      modifies this, redis
      ensures Model() == EventHandling.RemoveListingRankings(old(Model()), name)
    {
      redis.RemNewListing(name);
      Broadcast(RemoveNewListing(name));
      redis.RemBestDeal(name);
      Broadcast(RemoveBestDeal(name));
    }

    method UpdateSaleRankings(sold: Listing, buyer: Address)
      modifies this, redis
      ensures Model() == EventHandling.UpdateSaleRankings(old(Model()), sold, buyer)
    {
      var count := TradedCount(postgres.history, sold.name);
      Broadcast(RecentSale(sold.name));
      var traded := MostTradedItem(sold.name, sold.price, sold.seller, buyer, AsU32(count));
      redis.AddMostTraded(traded);
      Broadcast(MostTraded(traded));
      Broadcast(TopSale(sold.name));
      var profit, sales := postgres.GetTopEarner(sold.seller);
      var earner := TopEarnerItem(sold.seller, profit, sales);
      redis.AddTopEarner(earner);
      Broadcast(TopEarner(earner));
    }

    method AddSellerPoints(r: TradeRecord)
      modifies postgres
      ensures postgres.Model() == EventHandling.AddSellerPoints(old(postgres.Model()), r)
    {
      if r.platformFee.Some? {
        var seller := r.seller.GetOr("");
        if seller in postgres.users && postgres.users[seller].Some? {
          postgres.AddNftPoints(postgres.users[seller].value, r.platformFee.value);
        }
      }
    }

    method HandlePending(r: TradeRecord, now: int)
      modifies this, postgres, redis
      ensures Model() == EventHandling.HandlePending(old(Model()), r, now)
    {
      match r.action
      case List => HandleListPending(r, now);
      case Delist => HandleDelistPending(r);
      case BuyAndRelist => HandleBuyAndRelistPending(r);
      case BuyAndDelist => HandleBuyAndDelistPending(r);
      case Relist =>
    }

    method HandleListPending(r: TradeRecord, now: int)
      modifies this, postgres, redis
      ensures Model() == EventHandling.HandleListPending(old(Model()), r, now)
    {
      if r.price.None? || r.seller.None? {
        return;
      }
      var l := Listing(r.name, r.seller.value, r.price.value, r.txId.GetOr(""), r.utxoSats, now);
      postgres.CreateListing(l);
      UpdateListingRankings(l, r.previousPrice.GetOr(0), true);
    }

    method HandleDelistPending(r: TradeRecord)
      modifies this, postgres, redis
      ensures Model() == EventHandling.HandleDelistPending(old(Model()), r)
    {
      postgres.DeleteListingByName(r.name);
      RemoveListingRankings(r.name);
    }

    method HandleBuyAndRelistPending(r: TradeRecord)
      modifies this, postgres, redis
      ensures Model() == EventHandling.HandleBuyAndRelistPending(old(Model()), r)
    {
      if r.buyer.None? || r.price.None? {
        return;
      }
      var name := r.name;
      var before := postgres.listings;
      postgres.UpdateListingSellerPriceTx(name, r.buyer.value, r.price.value, r.txId.GetOr(""));
      ghost var m1 := Model();
      if name in before {
        UpdateSaleRankings(before[name], r.buyer.value);
      }
      ghost var m2 := Model();
      assert m2 == if name in before then EventHandling.UpdateSaleRankings(m1, before[name], r.buyer.value) else m1;
      RemoveListingRankings(name);
      ghost var m3 := Model();
      assert m3 == EventHandling.RemoveListingRankings(m2, name);
      if name in postgres.listings {
        UpdateListingRankings(postgres.listings[name], r.previousPrice.GetOr(0), false);
      }
      ghost var m4 := Model();
      assert m4 == if name in m3.tables.listings
        then EventHandling.UpdateListingRankings(m3, m3.tables.listings[name], r.previousPrice.GetOr(0), false) else m3;
      AddSellerPoints(r);
      assert Model() == m4.(tables := EventHandling.AddSellerPoints(m4.tables, r));
    }

    method HandleBuyAndDelistPending(r: TradeRecord)
      modifies this, postgres, redis
      ensures Model() == EventHandling.HandleBuyAndDelistPending(old(Model()), r)
    {
      if r.buyer.None? {
        return;
      }
      if r.name in postgres.listings {
        UpdateSaleRankings(postgres.listings[r.name], r.buyer.value);
      }
      postgres.DeleteListingByName(r.name);
      RemoveListingRankings(r.name);
      AddSellerPoints(r);
    }

    method HandleRejected(r: TradeRecord, now: int)
      modifies this, postgres, redis
      ensures Model() == EventHandling.HandleRejected(old(Model()), r, now)
    {
      match r.action
      case List => HandleDelistPending(r);
      case Delist => HandleExitRejected(r, now);
      case BuyAndDelist => HandleExitRejected(r, now);
      case BuyAndRelist => HandleBuyAndRelistRejected(r);
      case Relist =>
    }

    method HandleExitRejected(r: TradeRecord, now: int)
      modifies this, postgres, redis
      ensures Model() == EventHandling.HandleExitRejected(old(Model()), r, now)
    {
      var price := r.previousPrice.GetOr(0);
      var l := Listing(r.name, r.seller.GetOr(""), price, r.txId.GetOr(""), r.utxoSats, now);
      postgres.CreateListing(l);
      UpdateListingRankings(l, price, true);
    }

    method HandleBuyAndRelistRejected(r: TradeRecord)
      modifies this, postgres, redis
      ensures Model() == EventHandling.HandleBuyAndRelistRejected(old(Model()), r)
    {
      var price := r.previousPrice.GetOr(0);
      postgres.UpdateListingSellerPriceTx(r.name, r.seller.GetOr(""), price, r.txId.GetOr(""));
      RemoveListingRankings(r.name);
      if r.name in postgres.listings {
        UpdateListingRankings(postgres.listings[r.name], price, true);
      }
      Broadcast(RemoveNewListing(r.name));
    }

    method HandleStatusChange(txId: TxId, s: ReeStatus, now: int)
      modifies this, postgres, redis
      ensures Model() == EventHandling.HandleStatusChange(old(Model()), txId, s, now)
    {
      match s
      case ReePending =>
      case ReeFinalized =>
        var _ := postgres.UpdateTradeStatus(txId, Finalized);
      case ReeConfirmed(_) =>
        var _ := postgres.UpdateTradeStatus(txId, Confirmed);
      case ReeRejected(_) =>
        var row := postgres.UpdateTradeStatus(txId, Rejected);
        if row.Some? {
          HandleRejected(row.value, now);
        }
    }
  }
}
