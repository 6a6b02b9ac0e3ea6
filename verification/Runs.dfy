/**
 Runs of the marketplace: one step is one request or one status event, handled
 to its end. A world is the market together with what the proofs remember: the
 outputs of every known transaction and, for each name, the submitted trades
 that have not been rejected, each with the holding it replaced.
 */
module Runs {
  import opened Domain
  import opened Rankings
  import opened Tables
  import opened Validators
  import opened EventHandling
  import opened TradingRules

  // A listing as a rollback is meant to restore it.
  datatype Holding = Holding(seller: Address, price: nat, utxoSats: nat)

  datatype Frame = Frame(record: TradeRecord, before: Option<Holding>, at: nat)

  datatype World = World(
    market: Market,
    chain: map<TxId, seq<TxOut>>,
    stacks: map<Name, seq<Frame>>,
    time: nat)

  datatype Step =
    | Login(user: Address)
    | SetPrimary(user: Address, primary: Name)
    | ClearPrimary(user: Address)
    | CachePool(name: Name, pool: Address)
    | TradeStep(action: Action, q: Request, e: Env)
    | RelistStep(caller: Address, name: Name, newPrice: nat, e: Env)
    | StatusStep(txId: TxId, status: ReeStatus, now: int)

  function HoldingOf(listings: map<Name, Listing>, name: Name): Option<Holding> {
    if name in listings
      then Some(Holding(listings[name].seller, listings[name].price, listings[name].utxoSats))
    else None
  }

  function StackOf(w: World, name: Name): seq<Frame> {
    if name in w.stacks then w.stacks[name] else []
  }

  // ---------- users ----------

  function FindOrCreateUser(users: map<Address, Option<Name>>, user: Address): map<Address, Option<Name>> {
    if user in users then users else users[user := None]
  }

  function UpdatePrimary(users: map<Address, Option<Name>>, user: Address, primary: Option<Name>)
    : map<Address, Option<Name>>
  {
    if user in users then users[user := primary] else users
  }

  // ---------- steps on the market ----------

  function Effect(m: Market, s: Step): Market {
    match s
    case Login(user) => m.(tables := m.tables.(users := FindOrCreateUser(m.tables.users, user)))
    case SetPrimary(user, n) => m.(tables := m.tables.(users := UpdatePrimary(m.tables.users, user, Some(n))))
    case ClearPrimary(user) => m.(tables := m.tables.(users := UpdatePrimary(m.tables.users, user, None)))
    case CachePool(name, pool) => m.(tables := m.tables.(pools := m.tables.pools[name := pool]))
    case TradeStep(action, q, e) => Trade(m, action, q, e).0
    case RelistStep(caller, name, price, e) => RelistName(m, caller, name, price, e).0
    case StatusStep(txId, status, now) => HandleStatusChange(m, txId, status, now)
  }

  // The record of a trade the step submits successfully.
  function TakenTrade(m: Market, s: Step): Option<TradeRecord> {
    if s.TradeStep? && s.e.invokeOk && Check(m.tables, s.action, s.q, s.e).Success?
      then Some(Check(m.tables, s.action, s.q, s.e).value)
    else None
  }

  // The record a status event rejects.
  function RejectedBy(m: Market, s: Step): Option<TradeRecord> {
    if s.StatusStep? && s.status.ReeRejected? then Lookup(m.tables.history, s.txId) else None
  }

  function NextStacks(w: World, s: Step): map<Name, seq<Frame>> {
    var sub, rej := TakenTrade(w.market, s), RejectedBy(w.market, s);
    if sub.Some? then
      var n := sub.value.name;
      w.stacks[n := StackOf(w, n) + [Frame(sub.value, HoldingOf(w.market.tables.listings, n), w.time)]]
    else if rej.Some? && StackOf(w, rej.value.name) != [] then
      var n := rej.value.name;
      w.stacks[n := StackOf(w, n)[..|StackOf(w, n)| - 1]]
    else w.stacks
  }

  function Next(w: World, s: Step): World {
    World(
      Effect(w.market, s),
      if TakenTrade(w.market, s).Some? then w.chain[s.q.psbt.txId := s.q.psbt.outputs] else w.chain,
      NextStacks(w, s),
      w.time + 1)
  }

  // ---------- what the environment guarantees ----------

  // What a PSBT claims input 0 is worth is what the known transaction pays.
  ghost predicate ClaimAgrees(chain: map<TxId, seq<TxOut>>, psbt: Psbt) {
    psbt.inputs != [] && psbt.inputs[0].outpoint.txId in chain ==>
      var o := psbt.inputs[0].outpoint;
      && o.vout < |chain[o.txId]|
      && forall value :: Claims(psbt.inputs[0], value) ==> value == chain[o.txId][o.vout].value
  }

  ghost predicate Admissible(w: World, s: Step) {
    match s
    case TradeStep(action, q, e) =>
      // callers have a session, hence a user row; transaction ids are new
      && q.caller in w.market.tables.users
      && q.psbt.txId !in w.chain
      && ClaimAgrees(w.chain, q.psbt)
      // the canister refuses to list a name twice
      && (action.List? && e.invokeOk ==> q.name !in w.market.tables.listings)
    case StatusStep(txId, status, now) =>
      // rejections of one name arrive newest first, once each
      RejectedBy(w.market, s).Some? ==>
        var st := StackOf(w, RejectedBy(w.market, s).value.name);
        st != [] && st[|st| - 1].record.txId == Some(txId)
    case _ => true
  }

  ghost predicate Initial(w: World) {
    var t := w.market.tables;
    && t.listings == map[] && t.history == [] && t.points == map[]
    && w.market.rankings == EmptyRankings()
    && w.stacks == map[] && w.time == 0
  }

  // worlds[i + 1] is worlds[i] after steps[i].
  ghost predicate IsRun(worlds: seq<World>, steps: seq<Step>) {
    && |worlds| == |steps| + 1
    && Initial(worlds[0])
    && forall i :: 0 <= i < |steps| ==>
         Admissible(worlds[i], steps[i]) && worlds[i + 1] == Next(worlds[i], steps[i])
  }
}
