/**
 The stores as objects updated in place: every method states its whole effect
 through the functions of `Tables`.
 */
module PostgresStore {
  import opened Domain
  import opened Spec = Tables
  import EventHandling

  /** The PostgreSQL client. */
  class Postgres {
    var listings: map<Name, Listing>
    var history: seq<TradeRecord>
    var users: map<Address, Option<Name>>
    var points: map<Name, int>
    var pools: map<Name, Address>
    var eventOffset: Option<nat>

    function Model(): Tables
      reads this
    {
      Tables(listings, history, users, points, pools, eventOffset)
    }

    constructor (users: map<Address, Option<Name>>, pools: map<Name, Address>)
      ensures Model() == Tables(map[], [], users, map[], pools, None)
    {
      listings, history, points, eventOffset := map[], [], map[], None;
      this.users, this.pools := users, pools;
    }

    method CreateListing(l: Listing)
      modifies this`listings
      ensures listings == Spec.CreateListing(old(listings), l)
    {
      if l.name !in listings && !TxTaken(listings, l.name, l.txId) {
        listings := listings[l.name := l];
      }
    }

    method DeleteListingByName(name: Name)
      modifies this`listings
      ensures listings == DeleteListing(old(listings), name)
    {
      listings := listings - {name};
    }

    method UpdateListingPrice(name: Name, price: nat)
      modifies this`listings
      ensures listings == UpdatePrice(old(listings), name, price)
    {
      if name in listings {
        listings := listings[name := listings[name].(price := price)];
      }
    }

    method UpdateListingSellerPriceTx(name: Name, seller: Address, price: nat, txId: TxId)
      modifies this`listings
      ensures listings == UpdateSellerPriceTx(old(listings), name, seller, price, txId)
    {
      if name in listings && !TxTaken(listings, name, txId) {
        listings := listings[name := listings[name].(seller := seller, price := price, txId := txId)];
      }
    }

    method AddTradeRecord(r: TradeRecord)
      modifies this`history
      ensures history == AddRecord(old(history), r)
    {
      history := history + [r];
    }

    method DelTradeRecord(txId: TxId)
      modifies this`history
      ensures history == DelRecord(old(history), txId)
    {
      history := DelRecord(history, txId);
    }

    method UpdateTradeStatus(txId: TxId, status: Status) returns (row: Option<TradeRecord>)
      modifies this`history
      ensures history == SetStatus(old(history), txId, status)
      ensures row == Lookup(history, txId)
    {
      history := SetStatus(history, txId, status);
      row := Lookup(history, txId);
    }

    method AddNftPoints(name: Name, amount: int)
      modifies this`points
      ensures points == AddPoints(old(points), name, amount)
    {
      points := points[name := (if name in points then points[name] else 0) + amount];
    }

    method SetEventOffset(offset: nat)
      modifies this`eventOffset
      ensures eventOffset == Some(offset)
    {
      eventOffset := Some(offset);
    }

    // Row by row over the seller's buy records.
    method GetTopEarner(seller: Address) returns (totalEarn: int, totalTraded: nat)
      ensures totalEarn == Earned(history, seller)
      ensures totalTraded == EventHandling.AsU32(SalesOf(history, seller))
    {
      totalEarn := 0;
      var rows := 0;
      var i := 0;
      assert history[..|history|] == history;
      while i < |history|
        invariant 0 <= i <= |history|
        invariant totalEarn == Earned(history[..i], seller)
        invariant rows == SalesOf(history[..i], seller)
      {
        var r := history[i];
        assert history[..i + 1][..i] == history[..i];
        if SoldBy(r, seller) {
          totalEarn := totalEarn + r.price.GetOr(0) - r.previousPrice.GetOr(0);
          rows := rows + 1;
        }
        i := i + 1;
      }
      totalTraded := EventHandling.AsU32(rows);
    }
  }
}
