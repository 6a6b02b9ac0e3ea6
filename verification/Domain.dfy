/**
 Entities of the name marketplace: listings, trade records, partially signed
 transactions and the results of a request.
 */
module Domain {
  type Name = string
  type Address = string
  type TxId = string

  datatype Option<+T> = None | Some(value: T) {
    function GetOr(default: T): T {
      if Some? then value else default
    }
  }

  // `Panicked` stands for an index out of range or an unwrap of a missing
  // value: the request fails and nothing has been stored.
  datatype Error = BadRequest | Unauthorized | Forbidden | NotFound | Internal | Canister | Panicked

  datatype Result<+T> = Success(value: T) | Failure(error: Error) {
    predicate IsFailure() {
      Failure?
    }

    function PropagateFailure<U>(): Result<U>
      requires Failure?
    {
      Failure(error)
    }

    function Extract(): T
      requires Success?
    {
      value
    }
  }

  function Need(condition: bool, error: Error): Result<()> {
    if condition then Success(()) else Failure(error)
  }

  function Max(a: int, b: int): int {
    if a < b then b else a
  }

  function Min(a: int, b: int): int {
    if a < b then a else b
  }

  // ---------- trading entities ----------

  datatype Listing = Listing(
    name: Name, seller: Address, price: nat, txId: TxId, utxoSats: nat, listedAt: int)

  datatype Action = List | Delist | Relist | BuyAndRelist | BuyAndDelist {
    predicate IsBuy() {
      BuyAndRelist? || BuyAndDelist?
    }

    // The inscription goes back to a wallet.
    predicate IsExit() {
      Delist? || BuyAndDelist?
    }
  }

  datatype Status = Submitted | Pending | Finalized | Confirmed | Rejected

  datatype TradeRecord = TradeRecord(
    name: Name,
    who: Address,
    action: Action,
    txId: Option<TxId>,
    status: Status,
    seller: Option<Address>,
    previousPrice: Option<nat>,
    price: Option<nat>,
    utxoSats: nat,
    buyer: Option<Address>,
    platformFee: Option<nat>)

  // ---------- transactions ----------

  datatype OutPoint = OutPoint(txId: TxId, vout: nat)

  // `address` is None when the script has no address form.
  datatype TxOut = TxOut(address: Option<Address>, value: nat)

  // `witnessUtxo` and `nonWitnessUtxo` are the two ways a PSBT claims what an
  // input spends (BIP 174, section "Specification").
  datatype TxIn = TxIn(
    outpoint: OutPoint, witnessUtxo: Option<nat>, nonWitnessUtxo: Option<seq<TxOut>>, signed: bool)

  datatype Psbt = Psbt(txId: TxId, inputs: seq<TxIn>, outputs: seq<TxOut>)

  // ---------- ranking items and broadcast events ----------

  // `discount` is in thousandths.
  datatype ListingItem = ListingItem(
    name: Name, price: nat, listedAt: int, discount: nat, seller: Address)

  datatype MostTradedItem = MostTradedItem(
    name: Name, price: nat, seller: Address, buyer: Address, tradeCount: nat)

  datatype TopEarnerItem = TopEarnerItem(address: Address, profit: int, tradeCount: nat)

  // Payloads that no property speaks of are left abstract as text.
  datatype BroadcastEvent =
    | NewListing(item: ListingItem)
    | BestDeal(item: ListingItem)
    | TopSale(name: Name)
    | RecentSale(name: Name)
    | MostTraded(traded: MostTradedItem)
    | TopEarner(earner: TopEarnerItem)
    | RemoveNewListing(name: Name)
    | RemoveBestDeal(name: Name)
    | MarketOnlineUpdated(totalOnline: nat)
    | MarketListingsUpdated(listedCount: nat, listedValue: nat)
    | MarketTrades24hUpdated(txs24h: nat, vol24h: nat)
    | UserInventory(user: Address, inventory: string)
    | UserActivities(user: Address, activities: string)
    | UserStars(user: Address, removes: bool, star: string)
}
