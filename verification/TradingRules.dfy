/**
 What the trading service decides: which requests are accepted, the record each
 accepted request creates, and its effect on the market.
 */
module TradingRules {
  import opened Domain
  import opened Tables
  import opened Pricing
  import opened Validators
  import opened EventHandling

  const FINALIZE_THRESHOLD: nat := 3

  datatype RuneInfo = RuneInfo(owner: Address, confirmations: nat, inscriptionId: string)

  // Everything one request reads from outside the stores: the clock, the fee
  // collector, the ord backend's answers, the etching fee and whether the
  // canister call succeeds. `boughtLookupOk` is the outcome of the one query
  // whose failure the service handles by falling back.
  datatype Env = Env(
    now: int,
    collector: Address,
    rune: Option<RuneInfo>,
    inscriptions: Option<set<string>>,
    etchingFee: Option<nat>,
    boughtLookupOk: bool,
    invokeOk: bool)

  // `party` is seller_address of a list and buyer_address of a buy; `price` is
  // the asked price of a list and new_price of a buy_and_relist.
  datatype Request = Request(
    caller: Address,
    intentionPool: Option<Address>,
    psbt: Psbt,
    name: Name,
    party: Address,
    price: nat,
    payment: nat,
    fee: nat)

  datatype TradeResponse =
    | ListResponse(txId: TxId, name: Name, price: nat, seller: Address)
    | DelistResponse(txId: TxId, name: Name)

  // ---------- pieces ----------

  function PoolFor(t: Tables, q: Request): Result<Address> {
    var _ :- Need(q.intentionPool.Some?, BadRequest);
    var _ :- Need(q.name in t.pools, BadRequest);
    var _ :- Need(q.intentionPool.value == t.pools[q.name], BadRequest);
    Success(t.pools[q.name])
  }

  function ListingFor(t: Tables, name: Name): Result<Listing> {
    if name in t.listings then Success(t.listings[name]) else Failure(BadRequest)
  }

  function PreviousPrice(t: Tables, name: Name, e: Env): Option<nat> {
    var bought := if e.boughtLookupOk then LastBoughtPrice(t.history, name) else None;
    if bought.Some? then bought
    else if e.etchingFee.Some? then Some(EtchingPrice(e.etchingFee.value))
    else None
  }

  function VerifyNameOwnership(e: Env, address: Address): Result<()> {
    var _ :- Need(e.rune.Some?, NotFound);
    var _ :- Need(e.rune.value.owner == address, Forbidden);
    Need(e.rune.value.confirmations >= FINALIZE_THRESHOLD, BadRequest)
  }

  // Whether the ord backend places the inscription in the output of input 0.
  function ValidateInscription(e: Env): Result<()> {
    var _ :- Need(e.rune.Some?, BadRequest);
    var _ :- Need(e.inscriptions.Some?, BadRequest);
    Need(e.rune.value.inscriptionId in e.inscriptions.value, BadRequest)
  }

  // Whether input 0 spends output 0 of the trade that last returned the name
  // to a wallet; then the ord lookup is skipped.
  function ReturnedByLastTrade(t: Tables, q: Request): Result<bool> {
    var last := LastRecord(t.history, q.name);
    if last.Some? && last.value.action.IsExit() then
      var input0 :- First(q.psbt.inputs);
      Success(input0.outpoint == OutPoint(last.value.txId.GetOr(""), 0))
    else Success(false)
  }

  function CheckInscription(t: Tables, q: Request, e: Env): Result<()> {
    var skip :- ReturnedByLastTrade(t, q);
    if skip then Success(())
    else
      var _ :- VerifyNameOwnership(e, q.caller);
      var _ :- First(q.psbt.inputs);
      ValidateInscription(e)
  }

  // `get_user(..).unwrap()` and the level of the user's primary name.
  function LevelOf(t: Tables, user: Address): (level: Result<nat>)
    ensures level.Success? ==> level.value <= 5
  {
    var _ :- Need(user in t.users, Panicked);
    var primary := t.users[user];
    if primary.None? then Success(0)
    else
      var points := if primary.value in t.points then t.points[primary.value] else 0;
      Success(PointsToLevel(PointsAsU64(points)))
  }

  function PlatformFee(t: Tables, l: Listing, buyer: Address): Result<nat> {
    var s :- LevelOf(t, l.seller);
    var b :- LevelOf(t, buyer);
    Success(FeeAtLevels(l.price, s, b))
  }

  // fee_sats and payment_sats of the request against the quoted fee.
  function AgreedFee(t: Tables, l: Listing, q: Request): Result<nat> {
    var fee :- PlatformFee(t, l, q.party);
    var _ :- Need(fee == q.fee, BadRequest);
    var _ :- Need(fee <= l.price, Panicked);
    var _ :- Need(q.payment == l.price - fee, BadRequest);
    Success(fee)
  }

  // ---------- acceptance: the record an accepted request writes ----------

  function CheckList(t: Tables, q: Request, e: Env): Result<TradeRecord> {
    var pool :- PoolFor(t, q);
    var _ :- CheckInscription(t, q, e);
    var _ :- Need(q.party == q.caller, Forbidden);
    var _ :- ValidateList(q.psbt, pool);
    var base := PreviousPrice(t, q.name, e);
    var _ :- Need(base.Some?, Internal);
    var _ :- ValidatePrice(base.value, q.price);
    var output0 :- First(q.psbt.outputs);
    Success(TradeRecord(
      q.name, q.party, List, Some(q.psbt.txId), Pending, Some(q.party), base, Some(q.price),
      output0.value, None, None))
  }

  function CheckDelist(t: Tables, q: Request): Result<TradeRecord> {
    var _ :- PoolFor(t, q);
    var l :- ListingFor(t, q.name);
    var _ :- Need(l.seller == q.caller, Forbidden);
    var _ :- ValidateDelist(q.psbt, l);
    var input0 :- First(q.psbt.inputs);
    Success(TradeRecord(
      q.name, l.seller, Delist, Some(q.psbt.txId), Pending, Some(l.seller), Some(l.price), Some(l.price),
      ValueOr0(GetInput0Value(input0)), None, None))
  }

  function ValueOr0(r: Result<nat>): nat {
    if r.Success? then r.value else 0
  }

  function CheckBuyAndRelist(t: Tables, q: Request, e: Env): Result<TradeRecord> {
    var pool :- PoolFor(t, q);
    var _ :- Need(q.party == q.caller, Forbidden);
    var l :- ListingFor(t, q.name);
    var fee :- AgreedFee(t, l, q);
    var _ :- ValidateBuyAndRelist(q.psbt, pool, l, q.payment, q.fee, e.collector);
    var _ :- ValidatePrice(l.price, q.price);
    var output0 :- First(q.psbt.outputs);
    Success(TradeRecord(
      q.name, q.party, BuyAndRelist, Some(q.psbt.txId), Pending, Some(l.seller), Some(l.price), Some(q.price),
      output0.value, Some(q.party), Some(fee)))
  }

  function CheckBuyAndDelist(t: Tables, q: Request, e: Env): Result<TradeRecord> {
    var _ :- PoolFor(t, q);
    var _ :- Need(q.party == q.caller, Forbidden);
    var l :- ListingFor(t, q.name);
    var fee :- AgreedFee(t, l, q);
    var _ :- ValidateBuyAndDelist(q.psbt, q.party, l, q.payment, q.fee, e.collector);
    var input0 :- First(q.psbt.inputs);
    Success(TradeRecord(
      q.name, q.party, BuyAndDelist, Some(q.psbt.txId), Pending, Some(l.seller), Some(l.price), Some(l.price),
      ValueOr0(GetInput0Value(input0)), Some(q.party), Some(fee)))
  }

  function Check(t: Tables, action: Action, q: Request, e: Env): Result<TradeRecord> {
    match action
    case List => CheckList(t, q, e)
    case Delist => CheckDelist(t, q)
    case BuyAndRelist => CheckBuyAndRelist(t, q, e)
    case BuyAndDelist => CheckBuyAndDelist(t, q, e)
    case Relist => Failure(BadRequest)
  }

  // ---------- submission ----------

  // Store the record, call the canister, then apply the pending effect or
  // delete the record again.
  function Submit(m: Market, r: TradeRecord, e: Env): Market {
    var m1 := m.(tables := m.tables.(history := AddRecord(m.tables.history, r)));
    if e.invokeOk then HandlePending(m1, r, e.now)
    else m1.(tables := m1.tables.(history := DelRecord(m1.tables.history, r.txId.GetOr(""))))
  }

  // The price is 0 for a buy_and_delist; a delist answers without one.
  function Response(action: Action, q: Request): TradeResponse {
    if action.Delist? then DelistResponse(q.psbt.txId, q.name)
    else ListResponse(q.psbt.txId, q.name, if action.BuyAndDelist? then 0 else q.price, q.party)
  }

  function Trade(m: Market, action: Action, q: Request, e: Env): (Market, Result<TradeResponse>) {
    var checked := Check(m.tables, action, q, e);
    if checked.Failure? then (m, Failure(checked.error))
    else (Submit(m, checked.value, e), if e.invokeOk then Success(Response(action, q)) else Failure(Canister))
  }

  // ---------- relist: no transaction, effective at once ----------

  function CheckRelist(t: Tables, caller: Address, name: Name, newPrice: nat, e: Env): Result<TradeRecord> {
    var l :- ListingFor(t, name);
    var _ :- Need(l.seller == caller, BadRequest);
    var _ :- ValidatePrice(PreviousPrice(t, name, e).GetOr(l.price), newPrice);
    var _ :- Need(e.invokeOk, Canister);
    Success(TradeRecord(
      name, l.seller, Relist, None, Finalized, Some(l.seller), Some(l.price), Some(newPrice),
      l.utxoSats, None, None))
  }

  function RelistEffect(m: Market, r: TradeRecord, base: nat): Market {
    var t := m.tables;
    var m1 := m.(tables := t.(
      history := AddRecord(t.history, r),
      listings := UpdatePrice(t.listings, r.name, r.price.GetOr(0))));
    if r.name in m1.tables.listings
      then UpdateListingRankings(m1, m1.tables.listings[r.name], base, false) else m1
  }

  function RelistName(
    m: Market, caller: Address, name: Name, newPrice: nat, e: Env
  ): (Market, Result<nat>)
  {
    var checked := CheckRelist(m.tables, caller, name, newPrice, e);
    if checked.Failure? then (m, Failure(checked.error))
    else
      var base := PreviousPrice(m.tables, name, e).GetOr(m.tables.listings[name].price);
      (RelistEffect(m, checked.value, base), Success(newPrice))
  }

  // The utxo to spend when a name that just left the market is listed again.
  function InscriptionUtxo(t: Tables, name: Name): Option<(OutPoint, nat)> {
    var last := LastRecord(t.history, name);
    if last.Some? && last.value.action.IsExit() && last.value.txId.Some?
      then Some((OutPoint(last.value.txId.value, 0), last.value.utxoSats))
    else None
  }
}
