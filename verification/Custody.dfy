/**
 Where the inscription of each name sits on chain. Sats move first in, first
 out: the sats of the inputs, in order, fill the outputs, in order (the ordinals
 convention). Runs here may interleave transactions the marketplace never sees.
 Of the transactions the canister takes, those in `fails` never reach the chain;
 only they are rejected, some time or never.
 */
module Custody {
  import opened Domain
  import opened Tables
  import opened Queries
  import opened Validators
  import opened EventHandling
  import opened TradingRules
  import opened Runs
  import opened Invariants
  import opened Acceptance
  import opened Reachability
  import opened MarketTheorems

  datatype SatPoint = SatPoint(outpoint: OutPoint, offset: nat)

  // ---------- first in, first out ----------

  function OutputValue(chain: map<TxId, seq<TxOut>>, o: OutPoint): nat {
    if o.txId in chain && o.vout < |chain[o.txId]| then chain[o.txId][o.vout].value else 0
  }

  // Sats of the inputs before index i.
  function SatsBefore(chain: map<TxId, seq<TxOut>>, inputs: seq<OutPoint>, i: nat): nat
    requires i <= |inputs|
  {
    if i == 0 then 0 else SatsBefore(chain, inputs, i - 1) + OutputValue(chain, inputs[i - 1])
  }

  // The output and the offset within it that receive the sat at `position`;
  // None when it is left to the miner.
  function Locate(outs: seq<TxOut>, position: nat): Option<(nat, nat)> {
    if outs == [] then None
    else if position < outs[0].value then Some((0, position))
    else
      match Locate(outs[1..], position - outs[0].value)
      case Some((j, offset)) => Some((j + 1, offset))
      case None => None
  }

  function IndexOf(inputs: seq<OutPoint>, o: OutPoint): Option<nat> {
    if inputs == [] then None
    else if inputs[0] == o then Some(0)
    else
      match IndexOf(inputs[1..], o)
      case Some(i) => Some(i + 1)
      case None => None
  }

  lemma {:induction false} IndexOfFacts(inputs: seq<OutPoint>, o: OutPoint)
    ensures IndexOf(inputs, o).Some? <==> o in inputs
    ensures IndexOf(inputs, o).Some? ==> IndexOf(inputs, o).value < |inputs|
  {
    if inputs != [] {
      IndexOfFacts(inputs[1..], o);
      assert inputs == [inputs[0]] + inputs[1..];
    }
  }

  datatype Tx = Tx(txId: TxId, inputs: seq<OutPoint>, outputs: seq<TxOut>)

  function Move(chain: map<TxId, seq<TxOut>>, tx: Tx, sp: SatPoint): Option<SatPoint> {
    IndexOfFacts(tx.inputs, sp.outpoint);
    var i := IndexOf(tx.inputs, sp.outpoint);
    if i.None? then Some(sp)
    else
      match Locate(tx.outputs, SatsBefore(chain, tx.inputs, i.value) + sp.offset)
      case Some((j, offset)) => Some(SatPoint(OutPoint(tx.txId, j), offset))
      case None => None
  }

  // Every sat of input 0 lands in output 0 at its own offset, because output 0
  // is worth exactly input 0.
  lemma Input0ToOutput0(chain: map<TxId, seq<TxOut>>, tx: Tx, sp: SatPoint)
    requires tx.inputs != [] && tx.outputs != [] && sp.outpoint == tx.inputs[0]
    requires tx.outputs[0].value == OutputValue(chain, tx.inputs[0])
    requires sp.offset < OutputValue(chain, tx.inputs[0])
    ensures Move(chain, tx, sp) == Some(SatPoint(OutPoint(tx.txId, 0), sp.offset))
  {
    assert IndexOf(tx.inputs, sp.outpoint) == Some(0);
    assert SatsBefore(chain, tx.inputs, 0) == 0;
  }

  // ---------- worlds with a chain ----------

  datatype Ledger = Ledger(w: World, sits: map<Name, SatPoint>, spent: set<OutPoint>)

  datatype ChainStep = Served(s: Step) | External(tx: Tx)

  function TxOf(psbt: Psbt): Tx {
    Tx(psbt.txId, seq(|psbt.inputs|, i requires 0 <= i < |psbt.inputs| => psbt.inputs[i].outpoint), psbt.outputs)
  }

  function Confirm(l: Ledger, tx: Tx, w': World): Ledger {
    Ledger(
      w',
      map n | n in l.sits && Move(l.w.chain, tx, l.sits[n]).Some? :: Move(l.w.chain, tx, l.sits[n]).value,
      l.spent + (set o | o in tx.inputs))
  }

  // A trade that reaches the chain.
  ghost predicate Lands(l: Ledger, s: Step, fails: TxId -> bool) {
    TakenTrade(l.w.market, s).Some? && !fails(s.q.psbt.txId)
  }

  ghost function NextLedger(l: Ledger, c: ChainStep, fails: TxId -> bool): Ledger {
    match c
    case Served(s) =>
      if Lands(l, s, fails) then Confirm(l, TxOf(s.q.psbt), Next(l.w, s))
      else l.(w := Next(l.w, s))
    case External(tx) => Confirm(l, tx, l.w.(chain := l.w.chain[tx.txId := tx.outputs]))
  }

  // The pool output that holds a listed name.
  function PoolOutput(t: Tables, n: Name): OutPoint
    requires n in t.listings
  {
    OutPoint(t.listings[n].txId, 0)
  }

  // A transaction reaches the chain only if it is new and its inputs are there
  // and unspent.
  ghost predicate Spendable(l: Ledger, tx: Tx, fails: TxId -> bool) {
    && tx.txId !in l.w.chain && !fails(tx.txId)
    && forall o :: o in tx.inputs ==>
         o !in l.spent && o.txId in l.w.chain && !fails(o.txId) && o.vout < |l.w.chain[o.txId]|
  }

  // Pool outputs move only through a trade of their own name.
  ghost predicate LeavesPoolsAlone(l: Ledger, tx: Tx, except: Option<Name>, fails: TxId -> bool) {
    forall n :: n in l.w.market.tables.listings && !fails(l.w.market.tables.listings[n].txId) && Some(n) != except ==>
      PoolOutput(l.w.market.tables, n) !in tx.inputs
  }

  // The ord backend never reports the inscription where it is not.
  ghost predicate OrdTruthful(l: Ledger, q: Request, e: Env) {
    ValidateInscription(e).Success? && q.psbt.inputs != [] ==>
      q.name in l.sits && l.sits[q.name].outpoint == q.psbt.inputs[0].outpoint
  }

  ghost predicate Permitted(l: Ledger, c: ChainStep, fails: TxId -> bool) {
    match c
    case Served(s) =>
      && Admissible(l.w, s) && (RejectedBy(l.w.market, s).Some? ==> fails(s.txId))
      && (Lands(l, s, fails) ==>
           && Spendable(l, TxOf(s.q.psbt), fails)
           && LeavesPoolsAlone(l, TxOf(s.q.psbt), Some(s.q.name), fails)
           && OrdTruthful(l, s.q, s.e))
    case External(tx) => Spendable(l, tx, fails) && LeavesPoolsAlone(l, tx, None, fails)
  }

  // ---------- what every such run keeps ----------

  // A tracked sat lies in an output on chain.
  ghost predicate SitsInv(l: Ledger, fails: TxId -> bool) {
    forall n :: n in l.sits ==>
      && l.sits[n].outpoint.txId in l.w.chain && !fails(l.sits[n].outpoint.txId)
      && l.sits[n].offset < OutputValue(l.w.chain, l.sits[n].outpoint)
  }

  ghost predicate SpentInv(l: Ledger) {
    forall o :: o in l.spent ==> o.txId in l.w.chain
  }

  // A name listed under a transaction on chain is where the listing says.
  ghost predicate HeldByPool(l: Ledger, n: Name, fails: TxId -> bool) {
    n in l.w.market.tables.listings && !fails(l.w.market.tables.listings[n].txId) ==>
      n in l.sits && l.sits[n].outpoint == PoolOutput(l.w.market.tables, n)
  }

  // After an exit the inscription stays in output 0 of the exit until its
  // owner spends that output.
  ghost predicate ReturnedTo(l: Ledger, n: Name, fails: TxId -> bool) {
    var last := LastRecord(l.w.market.tables.history, n);
    last.Some? && last.value.action.IsExit() && last.value.txId.Some? && !fails(last.value.txId.value) ==>
      var o := OutPoint(last.value.txId.value, 0);
      o in l.spent || (n in l.sits && l.sits[n].outpoint == o)
  }

  ghost predicate NameInv(l: Ledger, n: Name, fails: TxId -> bool) {
    HeldByPool(l, n, fails) && ReturnedTo(l, n, fails)
  }

  // Only trades that fail are ever rejected.
  ghost predicate RejectedFail(h: seq<TradeRecord>, fails: TxId -> bool) {
    forall i :: 0 <= i < |h| && h[i].status.Rejected? ==> h[i].txId.Some? && fails(h[i].txId.value)
  }

  ghost predicate CustodyInv(l: Ledger, fails: TxId -> bool) {
    && Inv(l.w) && SitsInv(l, fails) && SpentInv(l)
    && (forall n :: NameInv(l, n, fails))
    && RejectedFail(l.w.market.tables.history, fails)
  }

  // ---------- confirmations ----------

  lemma {:induction false} LocateFacts(outs: seq<TxOut>, position: nat)
    requires Locate(outs, position).Some?
    ensures
      var (j, offset) := Locate(outs, position).value;
      j < |outs| && offset < outs[j].value
  {
    if position >= outs[0].value { LocateFacts(outs[1..], position - outs[0].value); }
  }

  lemma MoveFacts(chain: map<TxId, seq<TxOut>>, tx: Tx, sp: SatPoint)
    requires Move(chain, tx, sp).Some?
    ensures sp.outpoint !in tx.inputs ==> Move(chain, tx, sp).value == sp
    ensures sp.outpoint in tx.inputs ==>
      var o := Move(chain, tx, sp).value;
      o.outpoint.txId == tx.txId && o.outpoint.vout < |tx.outputs| && o.offset < tx.outputs[o.outpoint.vout].value
  {
    IndexOfFacts(tx.inputs, sp.outpoint);
    if sp.outpoint in tx.inputs {
      var i := IndexOf(tx.inputs, sp.outpoint).value;
      LocateFacts(tx.outputs, SatsBefore(chain, tx.inputs, i) + sp.offset);
    }
  }

  lemma Unmoved(chain: map<TxId, seq<TxOut>>, tx: Tx, sp: SatPoint)
    requires sp.outpoint !in tx.inputs
    ensures Move(chain, tx, sp) == Some(sp)
  {
    IndexOfFacts(tx.inputs, sp.outpoint);
  }

  lemma SitsConfirmed(l: Ledger, tx: Tx, w': World, fails: TxId -> bool)
    requires SitsInv(l, fails) && tx.txId !in l.w.chain && !fails(tx.txId)
    requires w'.chain == l.w.chain[tx.txId := tx.outputs]
    ensures SitsInv(Confirm(l, tx, w'), fails)
  {
    var l' := Confirm(l, tx, w');
    forall n | n in l'.sits
      ensures l'.sits[n].outpoint.txId in w'.chain && !fails(l'.sits[n].outpoint.txId)
      ensures l'.sits[n].offset < OutputValue(w'.chain, l'.sits[n].outpoint)
    {
      MoveFacts(l.w.chain, tx, l.sits[n]);
    }
  }

  // A name whose pool output is not spent keeps its inscription in place, and
  // an exited name keeps it or has had its output spent.
  lemma OthersConfirmed(l: Ledger, tx: Tx, w': World, n: Name, fails: TxId -> bool)
    requires NameInv(l, n, fails)
    requires n in w'.market.tables.listings <==> n in l.w.market.tables.listings
    requires n in w'.market.tables.listings ==>
      && w'.market.tables.listings[n].txId == l.w.market.tables.listings[n].txId
      && (!fails(l.w.market.tables.listings[n].txId) ==> PoolOutput(l.w.market.tables, n) !in tx.inputs)
    requires LastRecord(w'.market.tables.history, n) == LastRecord(l.w.market.tables.history, n)
    ensures NameInv(Confirm(l, tx, w'), n, fails)
  {
    if n in l.sits && l.sits[n].outpoint !in tx.inputs { Unmoved(l.w.chain, tx, l.sits[n]); }
  }

  // ---------- a trade moves its own inscription ----------

  lemma TxOfFacts(psbt: Psbt)
    requires psbt.inputs != []
    ensures TxOf(psbt).inputs != [] && TxOf(psbt).inputs[0] == psbt.inputs[0].outpoint
  {
  }

  // Whichever way a list was checked, the inscription is in the output that
  // input 0 spends: the shortcut after an exit implies the ord lookup.
  lemma ListSpendsInscription(l: Ledger, q: Request, e: Env, fails: TxId -> bool)
    requires CustodyInv(l, fails) && CheckList(l.w.market.tables, q, e).Success?
    requires Spendable(l, TxOf(q.psbt), fails) && OrdTruthful(l, q, e)
    ensures q.psbt.inputs != []
    ensures q.name in l.sits && l.sits[q.name].outpoint == q.psbt.inputs[0].outpoint
    ensures CarriesInput0(q.psbt)
  {
    var t := l.w.market.tables;
    ListAccepted(t, q, e);
    TxOfFacts(q.psbt);
    if ReturnedByLastTrade(t, q) == Success(true) {
      var last := LastRecord(t.history, q.name);
      LastRecordFacts(t.history, q.name);
      assert NameInv(l, q.name, fails);
      assert TxOf(q.psbt).inputs[0] !in l.spent;
    }
  }

  lemma {:induction false} LastRecordFacts(h: seq<TradeRecord>, n: Name)
    requires LastRecord(h, n).Some?
    ensures exists i :: 0 <= i < |h| && h[i] == LastRecord(h, n).value && h[i].name == n
  {
    var rest, last := h[..|h| - 1], h[|h| - 1];
    if last.name != n {
      LastRecordFacts(rest, n);
      var i :| 0 <= i < |rest| && rest[i] == LastRecord(rest, n).value && rest[i].name == n;
      assert h[i] == rest[i];
    }
  }

  lemma ListAccepted(t: Tables, q: Request, e: Env)
    requires CheckList(t, q, e).Success?
    ensures CarriesInput0(q.psbt)
    ensures ReturnedByLastTrade(t, q) == Success(true) || ValidateInscription(e).Success?
  {
  }

  // A delist or purchase that reaches the chain spends the listing's output,
  // so the listing's own transaction is on chain.
  lemma ListedSpendsInscription(l: Ledger, s: Step, fails: TxId -> bool)
    requires CustodyInv(l, fails) && TakenTrade(l.w.market, s).Some? && !s.action.List?
    requires Spendable(l, TxOf(s.q.psbt), fails)
    ensures CarriesInput0(s.q.psbt)
    ensures s.q.name in l.w.market.tables.listings && !fails(l.w.market.tables.listings[s.q.name].txId)
    ensures s.q.psbt.inputs[0].outpoint == PoolOutput(l.w.market.tables, s.q.name)
    ensures s.q.name in l.sits && l.sits[s.q.name].outpoint == s.q.psbt.inputs[0].outpoint
  {
    ExitOrBuySpends(l.w.market.tables, s.action, s.q, s.e);
    TxOfFacts(s.q.psbt);
    assert NameInv(l, s.q.name, fails);
  }

  lemma ExitOrBuySpends(t: Tables, action: Action, q: Request, e: Env)
    requires !action.List? && Check(t, action, q, e).Success?
    ensures CarriesInput0(q.psbt) && q.name in t.listings && Spends(q.psbt, t.listings[q.name])
  {
    var r := Check(t, action, q, e).value;
    if action.Delist? {
      DelistAcceptedIff(t, q, r);
    } else if action.BuyAndRelist? {
      BuyAndRelistAcceptedIff(t, q, e, r);
    } else if action.BuyAndDelist? {
      BuyAndDelistAcceptedIff(t, q, e, r);
    }
  }

  // A trade that reaches the chain spends the output its name's inscription is in.
  lemma TradeSpends(l: Ledger, s: Step, fails: TxId -> bool)
    requires CustodyInv(l, fails) && Permitted(l, Served(s), fails) && Lands(l, s, fails)
    ensures CarriesInput0(s.q.psbt)
    ensures s.q.name in l.sits && l.sits[s.q.name].outpoint == s.q.psbt.inputs[0].outpoint
    ensures s.q.name in l.w.market.tables.listings ==>
      s.q.psbt.inputs[0].outpoint == PoolOutput(l.w.market.tables, s.q.name)
  {
    if s.action.List? {
      ListSpendsInscription(l, s.q, s.e, fails);
    } else {
      ListedSpendsInscription(l, s, fails);
    }
  }

  lemma LandedSits(l: Ledger, psbt: Psbt, w': World, n: Name)
    requires psbt.inputs != [] && psbt.outputs != []
    requires psbt.outputs[0].value == OutputValue(l.w.chain, psbt.inputs[0].outpoint)
    requires n in l.sits && l.sits[n].outpoint == psbt.inputs[0].outpoint
    requires l.sits[n].offset < OutputValue(l.w.chain, l.sits[n].outpoint)
    ensures
      var sits' := Confirm(l, TxOf(psbt), w').sits;
      n in sits' && sits'[n] == SatPoint(OutPoint(psbt.txId, 0), l.sits[n].offset)
  {
    TxOfFacts(psbt);
    Input0ToOutput0(l.w.chain, TxOf(psbt), l.sits[n]);
  }

  lemma ClaimedValue(chain: map<TxId, seq<TxOut>>, psbt: Psbt)
    requires ClaimAgrees(chain, psbt) && CarriesInput0(psbt) && psbt.inputs[0].outpoint.txId in chain
    ensures psbt.outputs[0].value == OutputValue(chain, psbt.inputs[0].outpoint)
  {
  }

  // Every trade that reaches the chain moves the inscription of its name from
  // where it sits to output 0 of the trade, at the same offset.
  lemma TradeMovesInscription(l: Ledger, s: Step, fails: TxId -> bool)
    requires CustodyInv(l, fails) && Permitted(l, Served(s), fails) && Lands(l, s, fails)
    ensures
      var l', n := NextLedger(l, Served(s), fails), s.q.name;
      && s.q.psbt.inputs != []
      && n in l.sits && l.sits[n].outpoint == s.q.psbt.inputs[0].outpoint
      && n in l'.sits && l'.sits[n] == SatPoint(OutPoint(s.q.psbt.txId, 0), l.sits[n].offset)
      && (n in l.w.market.tables.listings ==> s.q.psbt.inputs[0].outpoint == PoolOutput(l.w.market.tables, n))
  {
    TradeSpends(l, s, fails);
    ClaimedValue(l.w.chain, s.q.psbt);
    LandedSits(l, s.q.psbt, Next(l.w, s), s.q.name);
  }

  // ---------- preservation by transactions that reach the chain ----------

  lemma LastRecordAfter(h: seq<TradeRecord>, r: TradeRecord, n: Name)
    ensures LastRecord(AddRecord(h, r), n) == if r.name == n then Some(r) else LastRecord(h, n)
  {
    Snoc(h, r);
  }

  // The custody of one name after a trade, from the effect on its row alone.
  lemma NameAfterTrade(l: Ledger, tx: Tx, w': World, r: TradeRecord, now: int, n: Name, fails: TxId -> bool)
    requires NameInv(l, n, fails)
    requires r.txId == Some(tx.txId)
    requires w'.market.tables.history == AddRecord(l.w.market.tables.history, r)
    requires w'.market.tables.listings == ListingsAfter(l.w.market.tables.listings, r, now)
    requires LeavesPoolsAlone(l, tx, Some(r.name), fails)
    requires !r.action.List? ==> r.name in l.w.market.tables.listings
    requires
      var sits' := Confirm(l, tx, w').sits;
      r.name in sits' && sits'[r.name].outpoint == OutPoint(tx.txId, 0)
    ensures NameInv(Confirm(l, tx, w'), n, fails)
  {
    LastRecordAfter(l.w.market.tables.history, r, n);
    if n != r.name { OthersConfirmed(l, tx, w', n, fails); }
  }

  lemma SpentKnown(l: Ledger, tx: Tx, w': World, fails: TxId -> bool)
    requires SpentInv(l) && Spendable(l, tx, fails) && w'.chain == l.w.chain[tx.txId := tx.outputs]
    ensures SpentInv(Confirm(l, tx, w'))
  {
  }

  lemma AddedFail(h: seq<TradeRecord>, r: TradeRecord, fails: TxId -> bool)
    requires RejectedFail(h, fails) && !r.status.Rejected?
    ensures RejectedFail(AddRecord(h, r), fails)
  {
  }

  lemma TradeKeepsCustody(l: Ledger, s: Step, fails: TxId -> bool)
    requires CustodyInv(l, fails) && Permitted(l, Served(s), fails) && Lands(l, s, fails)
    ensures CustodyInv(NextLedger(l, Served(s), fails), fails)
  {
    StepKeeps(l.w, s);
    TakenTablesOf(l.w, s);
    TradeMovesInscription(l, s, fails);
    ConfirmKeepsCustody(l, TxOf(s.q.psbt), Next(l.w, s), TakenTrade(l.w.market, s).value, s.e.now, fails);
  }

  lemma ConfirmKeepsCustody(l: Ledger, tx: Tx, w': World, r: TradeRecord, now: int, fails: TxId -> bool)
    requires CustodyInv(l, fails) && Inv(w') && r.txId == Some(tx.txId) && Spendable(l, tx, fails)
    requires r.status == Pending
    requires w'.market.tables.history == AddRecord(l.w.market.tables.history, r)
    requires w'.market.tables.listings == ListingsAfter(l.w.market.tables.listings, r, now)
    requires w'.chain == l.w.chain[tx.txId := tx.outputs]
    requires LeavesPoolsAlone(l, tx, Some(r.name), fails)
    requires !r.action.List? ==> r.name in l.w.market.tables.listings
    requires
      var sits' := Confirm(l, tx, w').sits;
      r.name in sits' && sits'[r.name].outpoint == OutPoint(tx.txId, 0)
    ensures CustodyInv(Confirm(l, tx, w'), fails)
  {
    SitsConfirmed(l, tx, w', fails);
    SpentKnown(l, tx, w', fails);
    AddedFail(l.w.market.tables.history, r, fails);
    forall n ensures NameInv(Confirm(l, tx, w'), n, fails) {
      assert NameInv(l, n, fails);
      NameAfterTrade(l, tx, w', r, now, n, fails);
    }
  }

  lemma ExternalKeepsInv(w: World, txId: TxId, outs: seq<TxOut>)
    requires Inv(w) && txId !in w.chain
    ensures Inv(w.(chain := w.chain[txId := outs]))
  {
    var w' := w.(chain := w.chain[txId := outs]);
    forall n ensures StackInvAt(w', n) { assert StackInvAt(w, n); }
  }

  lemma ExternalKeepsCustody(l: Ledger, tx: Tx, fails: TxId -> bool)
    requires CustodyInv(l, fails) && Permitted(l, External(tx), fails)
    ensures CustodyInv(NextLedger(l, External(tx), fails), fails)
  {
    var w' := l.w.(chain := l.w.chain[tx.txId := tx.outputs]);
    ExternalKeepsInv(l.w, tx.txId, tx.outputs);
    SitsConfirmed(l, tx, w', fails);
    SpentKnown(l, tx, w', fails);
    forall n ensures NameInv(Confirm(l, tx, w'), n, fails) {
      assert NameInv(l, n, fails);
      OthersConfirmed(l, tx, w', n, fails);
    }
  }

  // ---------- preservation by steps that move nothing ----------

  // No name gets a row or an exit on chain that it did not have.
  ghost predicate RowsKept(t: Tables, t': Tables, n: Name, fails: TxId -> bool) {
    && (n in t'.listings && !fails(t'.listings[n].txId) ==>
         n in t.listings && t.listings[n].txId == t'.listings[n].txId)
    && var last, last' := LastRecord(t.history, n), LastRecord(t'.history, n);
       last'.Some? && last'.value.action.IsExit() && last'.value.txId.Some? && !fails(last'.value.txId.value) ==>
         last.Some? && SameTrade(last.value, last'.value)
  }

  lemma StatusRows(w: World, s: Step, n: Name, fails: TxId -> bool)
    requires s.StatusStep? && RejectedBy(w.market, s).None?
    ensures RowsKept(w.market.tables, Next(w, s).market.tables, n, fails) && Next(w, s).chain == w.chain
  {
    StatusWithoutRollback(w, s);
    if NewStatus(s.status).Some? {
      StatusKeeps(w.market.tables.history, s.txId, NewStatus(s.status).value, "", n, "");
    }
  }

  lemma RejectedRows(w: World, s: Step, n: Name, fails: TxId -> bool)
    requires Inv(w) && Admissible(w, s) && RejectedBy(w.market, s).Some? && fails(s.txId)
    ensures RowsKept(w.market.tables, Next(w, s).market.tables, n, fails) && Next(w, s).chain == w.chain
  {
    RestoredRow(w, s);
    RejectionChain(w, s);
    StatusKeepsRows(w.market.tables.history, s.txId, Rejected, "", n);
    RestoredRows(w.market.tables, Next(w, s).market.tables, RejectedRow(w, s), s.now, n, fails);
  }

  lemma RejectionChain(w: World, s: Step)
    requires RejectedBy(w.market, s).Some?
    ensures Next(w, s).chain == w.chain
  {
  }

  lemma RestoredRows(t: Tables, t': Tables, r: TradeRecord, now: int, n: Name, fails: TxId -> bool)
    requires r.txId.Some? && fails(r.txId.value)
    requires t'.listings == ListingsRestored(t.listings, r, now)
    requires SameTradeOpt(LastRecord(t.history, n), LastRecord(t'.history, n))
    ensures RowsKept(t, t', n, fails)
  {
  }

  lemma RelistRows(w: World, s: Step, n: Name, fails: TxId -> bool)
    requires s.RelistStep?
    ensures RowsKept(w.market.tables, Next(w, s).market.tables, n, fails) && Next(w, s).chain == w.chain
  {
    var checked := CheckRelist(w.market.tables, s.caller, s.name, s.newPrice, s.e);
    if checked.Success? { LastRecordAfter(w.market.tables.history, checked.value, n); }
  }

  lemma FailingRows(w: World, s: Step, n: Name, fails: TxId -> bool)
    requires Inv(w) && Admissible(w, s) && TakenTrade(w.market, s).Some? && fails(s.q.psbt.txId)
    ensures RowsKept(w.market.tables, Next(w, s).market.tables, n, fails)
    ensures Next(w, s).chain == w.chain[s.q.psbt.txId := s.q.psbt.outputs]
  {
    TakenTablesOf(w, s);
    TakenRows(w.market.tables, Next(w, s).market.tables, TakenTrade(w.market, s).value, s.e.now, n, fails);
  }

  lemma TakenRows(t: Tables, t': Tables, r: TradeRecord, now: int, n: Name, fails: TxId -> bool)
    requires r.txId.Some? && fails(r.txId.value)
    requires t'.listings == ListingsAfter(t.listings, r, now) && t'.history == AddRecord(t.history, r)
    ensures RowsKept(t, t', n, fails)
  {
    LastRecordAfter(t.history, r, n);
  }

  // Known outputs stay known.
  ghost predicate ChainKept(w: World, w': World) {
    forall tx :: tx in w.chain ==> tx in w'.chain && w'.chain[tx] == w.chain[tx]
  }

  lemma StillStep(w: World, s: Step, n: Name, fails: TxId -> bool)
    requires Inv(w) && Admissible(w, s)
    requires (TakenTrade(w.market, s).Some? ==> fails(s.q.psbt.txId)) && (RejectedBy(w.market, s).Some? ==> fails(s.txId))
    ensures RowsKept(w.market.tables, Next(w, s).market.tables, n, fails) && ChainKept(w, Next(w, s))
  {
    if TakenTrade(w.market, s).Some? {
      FailingRows(w, s, n, fails);
    } else if s.TradeStep? {
      FailedInvoke(w, s);
    } else if s.RelistStep? {
      RelistRows(w, s, n, fails);
    } else if RejectedBy(w.market, s).Some? {
      RejectedRows(w, s, n, fails);
    } else if s.StatusStep? {
      StatusRows(w, s, n, fails);
    }
  }

  lemma StillName(l: Ledger, l': Ledger, n: Name, fails: TxId -> bool)
    requires RowsKept(l.w.market.tables, l'.w.market.tables, n, fails) && l'.sits == l.sits && l'.spent == l.spent
    requires NameInv(l, n, fails)
    ensures NameInv(l', n, fails)
  {
  }

  lemma StillSits(l: Ledger, l': Ledger, fails: TxId -> bool)
    requires SitsInv(l, fails) && SpentInv(l) && l'.sits == l.sits && l'.spent == l.spent && ChainKept(l.w, l'.w)
    ensures SitsInv(l', fails) && SpentInv(l')
  {
  }

  lemma StatusFail(h: seq<TradeRecord>, txId: TxId, status: Status, fails: TxId -> bool)
    requires RejectedFail(h, fails) && (status.Rejected? && Lookup(h, txId).Some? ==> fails(txId))
    ensures RejectedFail(SetStatus(h, txId, status), fails)
  {
    var h' := SetStatus(h, txId, status);
    LookupFacts(h, txId);
    StatusKeepsRows(h, txId, status, "", "");
    forall i | 0 <= i < |h'| && h'[i].status.Rejected? ensures h'[i].txId.Some? && fails(h'[i].txId.value) {
      SetStatusAt(h, txId, status, i);
    }
  }

  // Whatever a step does to the history, it rejects only what fails.
  lemma StepFails(w: World, s: Step, fails: TxId -> bool)
    requires Inv(w) && Admissible(w, s) && RejectedFail(w.market.tables.history, fails)
    requires RejectedBy(w.market, s).Some? ==> fails(s.txId)
    ensures RejectedFail(Next(w, s).market.tables.history, fails)
  {
    var h := w.market.tables.history;
    HistoryAfter(w, s);
    if TakenTrade(w.market, s).Some? {
      AddedFail(h, TakenTrade(w.market, s).value, fails);
    } else if s.StatusStep? && NewStatus(s.status).Some? {
      StatusFail(h, s.txId, NewStatus(s.status).value, fails);
    } else if Next(w, s).market.tables.history != h {
      var r: TradeRecord :| r.status.Finalized? && Next(w, s).market.tables.history == AddRecord(h, r);
      AddedFail(h, r, fails);
    }
  }

  lemma StillKeepsCustody(l: Ledger, s: Step, fails: TxId -> bool)
    requires CustodyInv(l, fails) && Permitted(l, Served(s), fails) && !Lands(l, s, fails)
    ensures CustodyInv(NextLedger(l, Served(s), fails), fails)
  {
    var l' := l.(w := Next(l.w, s));
    StepKeeps(l.w, s);
    StepFails(l.w, s, fails);
    StillStep(l.w, s, "", fails);
    StillSits(l, l', fails);
    forall n ensures NameInv(l', n, fails) {
      assert NameInv(l, n, fails);
      StillStep(l.w, s, n, fails);
      StillName(l, l', n, fails);
    }
  }

  // ---------- runs ----------

  ghost predicate IsCustodyRun(ledgers: seq<Ledger>, steps: seq<ChainStep>, fails: TxId -> bool) {
    && |ledgers| == |steps| + 1
    && Initial(ledgers[0].w) && SitsInv(ledgers[0], fails) && SpentInv(ledgers[0])
    && forall i :: 0 <= i < |steps| ==>
         Permitted(ledgers[i], steps[i], fails) && ledgers[i + 1] == NextLedger(ledgers[i], steps[i], fails)
  }

  lemma StepKeepsCustody(l: Ledger, c: ChainStep, fails: TxId -> bool)
    requires CustodyInv(l, fails) && Permitted(l, c, fails)
    ensures CustodyInv(NextLedger(l, c, fails), fails)
  {
    match c
    case External(tx) => ExternalKeepsCustody(l, tx, fails);
    case Served(s) =>
      if Lands(l, s, fails) { TradeKeepsCustody(l, s, fails); } else { StillKeepsCustody(l, s, fails); }
  }

  lemma {:induction false} CustodyKept(ledgers: seq<Ledger>, steps: seq<ChainStep>, fails: TxId -> bool, i: nat)
    requires IsCustodyRun(ledgers, steps, fails) && i < |ledgers|
    ensures CustodyInv(ledgers[i], fails)
  {
    if i == 0 {
      InitialHolds(ledgers[0].w);
    } else {
      CustodyKept(ledgers, steps, fails, i - 1);
      StepKeepsCustody(ledgers[i - 1], steps[i - 1], fails);
    }
  }

  lemma CustodyStep(ledgers: seq<Ledger>, steps: seq<ChainStep>, fails: TxId -> bool, i: nat, l': Ledger)
    requires IsCustodyRun(ledgers, steps, fails) && i < |steps| && l' == ledgers[i + 1]
    ensures CustodyInv(ledgers[i], fails) && Permitted(ledgers[i], steps[i], fails)
    ensures l' == NextLedger(ledgers[i], steps[i], fails)
  {
    CustodyKept(ledgers, steps, fails, i);
  }

  // In every run a listed name's inscription is in output 0 of the listing's
  // transaction if and only if that transaction is on chain; the listing's
  // value column is then the value of that output, however often the name was
  // bought and relisted.
  lemma ListedInscriptionsAreHeld(
    ledgers: seq<Ledger>, steps: seq<ChainStep>, fails: TxId -> bool, i: nat, n: Name)
    requires IsCustodyRun(ledgers, steps, fails) && i < |ledgers|
    requires n in ledgers[i].w.market.tables.listings
    ensures
      var l, row := ledgers[i], ledgers[i].w.market.tables.listings[n];
      && (n in l.sits && l.sits[n].outpoint == OutPoint(row.txId, 0) <==> !fails(row.txId))
      && (!fails(row.txId) ==>
           OutputValue(l.w.chain, l.sits[n].outpoint) == row.utxoSats && l.sits[n].offset < row.utxoSats)
  {
    CustodyKept(ledgers, steps, fails, i);
    assert NameInv(ledgers[i], n, fails);
    BackedValue(ledgers[i].w.market.tables, ledgers[i].w.chain, n);
  }

  // Every trade that fails has been rejected.
  ghost predicate Settled(h: seq<TradeRecord>, fails: TxId -> bool) {
    forall i :: 0 <= i < |h| && h[i].txId.Some? && fails(h[i].txId.value) ==> h[i].status.Rejected?
  }

  // The same in terms of the trade history: a name listed under a rejected
  // transaction is never in that transaction's output, and once all rejections
  // have arrived every other listed name is in its own.
  lemma HeldUnlessRejected(
    ledgers: seq<Ledger>, steps: seq<ChainStep>, fails: TxId -> bool, i: nat, n: Name)
    requires IsCustodyRun(ledgers, steps, fails) && i < |ledgers|
    requires n in ledgers[i].w.market.tables.listings
    ensures
      var l, t := ledgers[i], ledgers[i].w.market.tables;
      var own := Lookup(t.history, t.listings[n].txId);
      && own.Some?
      && (own.value.status.Rejected? ==> !(n in l.sits && l.sits[n].outpoint == OutPoint(t.listings[n].txId, 0)))
      && (Settled(t.history, fails) ==>
           (n in l.sits && l.sits[n].outpoint == OutPoint(t.listings[n].txId, 0) <==> !own.value.status.Rejected?))
  {
    var t := ledgers[i].w.market.tables;
    CustodyKept(ledgers, steps, fails, i);
    ListedInscriptionsAreHeld(ledgers, steps, fails, i, n);
    assert Backed(t, n);
    LookupFacts(t.history, t.listings[n].txId);
    var k :| 0 <= k < |t.history| && t.history[k] == Lookup(t.history, t.listings[n].txId).value;
  }

  // ---------- after a rejection ----------

  // The name is not listed, or listed under a transaction that is not on chain.
  ghost predicate Unbacked(t: Tables, n: Name, fails: TxId -> bool) {
    n in t.listings ==> fails(t.listings[n].txId)
  }

  ghost predicate ListLands(l: Ledger, c: ChainStep, n: Name, fails: TxId -> bool) {
    c.Served? && Lands(l, c.s, fails) && c.s.action.List? && c.s.q.name == n
  }

  // On such a name only a list can reach the chain.
  lemma OnlyListsLand(l: Ledger, s: Step, n: Name, fails: TxId -> bool)
    requires CustodyInv(l, fails) && Permitted(l, Served(s), fails) && Lands(l, s, fails)
    requires Unbacked(l.w.market.tables, n, fails) && !ListLands(l, Served(s), n, fails)
    ensures s.q.name != n
  {
    if !s.action.List? { ListedSpendsInscription(l, s, fails); }
  }

  lemma OtherRowsStay(t: Tables, t': Tables, r: TradeRecord, now: int, n: Name, fails: TxId -> bool)
    requires t'.listings == ListingsAfter(t.listings, r, now) && r.name != n
    ensures Unbacked(t', n, fails) <==> Unbacked(t, n, fails)
  {
  }

  lemma LandingUnbacked(l: Ledger, s: Step, n: Name, fails: TxId -> bool)
    requires CustodyInv(l, fails) && Permitted(l, Served(s), fails) && Lands(l, s, fails)
    requires Unbacked(l.w.market.tables, n, fails) && !ListLands(l, Served(s), n, fails)
    ensures Unbacked(Next(l.w, s).market.tables, n, fails)
  {
    OnlyListsLand(l, s, n, fails);
    TakenTablesOf(l.w, s);
    OtherRowsStay(l.w.market.tables, Next(l.w, s).market.tables, TakenTrade(l.w.market, s).value, s.e.now, n, fails);
  }

  lemma StaysUnbacked(l: Ledger, c: ChainStep, n: Name, fails: TxId -> bool)
    requires CustodyInv(l, fails) && Permitted(l, c, fails) && Unbacked(l.w.market.tables, n, fails)
    requires !ListLands(l, c, n, fails)
    ensures Unbacked(NextLedger(l, c, fails).w.market.tables, n, fails)
  {
    match c
    case External(tx) =>
    case Served(s) =>
      if Lands(l, s, fails) { LandingUnbacked(l, s, n, fails); } else { StillStep(l.w, s, n, fails); }
  }

  lemma RejectedUnbacked(l: Ledger, c: ChainStep, fails: TxId -> bool)
    requires CustodyInv(l, fails) && Permitted(l, c, fails) && c.Served? && RejectedBy(l.w.market, c.s).Some?
    ensures Unbacked(NextLedger(l, c, fails).w.market.tables, RejectedBy(l.w.market, c.s).value.name, fails)
  {
    RestoredRow(l.w, c.s);
    RestoredUnbacked(l.w.market.tables, Next(l.w, c.s).market.tables, RejectedRow(l.w, c.s), c.s.now, fails);
  }

  lemma RestoredUnbacked(t: Tables, t': Tables, r: TradeRecord, now: int, fails: TxId -> bool)
    requires r.txId.Some? && fails(r.txId.value) && !r.action.Relist?
    requires t'.listings == ListingsRestored(t.listings, r, now)
    ensures Unbacked(t', r.name, fails)
  {
  }

  // No list of n reaches the chain in steps j to k - 1.
  ghost predicate NoListLands(
    ledgers: seq<Ledger>, steps: seq<ChainStep>, j: nat, k: nat, n: Name, fails: TxId -> bool)
    requires |ledgers| == |steps| + 1 && k <= |steps|
  {
    forall i :: j <= i < k ==> !ListLands(ledgers[i], steps[i], n, fails)
  }

  lemma UnbackedStep(
    ledgers: seq<Ledger>, steps: seq<ChainStep>, fails: TxId -> bool, k: nat, n: Name)
    requires IsCustodyRun(ledgers, steps, fails) && k < |steps|
    requires Unbacked(ledgers[k].w.market.tables, n, fails) && !ListLands(ledgers[k], steps[k], n, fails)
    ensures Unbacked(ledgers[k + 1].w.market.tables, n, fails)
  {
    CustodyStep(ledgers, steps, fails, k, ledgers[k + 1]);
    StaysUnbacked(ledgers[k], steps[k], n, fails);
  }

  lemma {:induction false} UnbackedStays(
    ledgers: seq<Ledger>, steps: seq<ChainStep>, fails: TxId -> bool, j: nat, k: nat, n: Name)
    requires IsCustodyRun(ledgers, steps, fails) && j <= k <= |steps|
    requires Unbacked(ledgers[j].w.market.tables, n, fails) && NoListLands(ledgers, steps, j, k, n, fails)
    ensures Unbacked(ledgers[k].w.market.tables, n, fails)
    decreases k - j
  {
    if j < k {
      UnbackedStep(ledgers, steps, fails, j, n);
      UnbackedStays(ledgers, steps, fails, j + 1, k, n);
    }
  }

  // After any rejection no trade of the name reaches the chain before a new
  // list of it does: the row names a transaction that is not there.
  lemma StuckAfterRejection(
    ledgers: seq<Ledger>, steps: seq<ChainStep>, fails: TxId -> bool, j: nat, k: nat, n: Name)
    requires IsCustodyRun(ledgers, steps, fails) && j < k < |steps| && steps[j].Served?
    requires RejectedBy(ledgers[j].w.market, steps[j].s).Some?
    requires n == RejectedBy(ledgers[j].w.market, steps[j].s).value.name
    requires NoListLands(ledgers, steps, j + 1, k + 1, n, fails)
    requires steps[k].Served? && Lands(ledgers[k], steps[k].s, fails)
    ensures steps[k].s.q.name != n
  {
    CustodyStep(ledgers, steps, fails, j, ledgers[j + 1]);
    RejectedUnbacked(ledgers[j], steps[j], fails);
    UnbackedStays(ledgers, steps, fails, j + 1, k, n);
    CustodyStep(ledgers, steps, fails, k, ledgers[k + 1]);
    OnlyListsLand(ledgers[k], steps[k].s, n, fails);
  }

  // A utxo is offered if and only if the newest record of the name is an exit:
  // its output 0, at the recorded value.
  lemma UtxoOfferedIff(t: Tables, n: Name, i: int)
    requires 0 <= i < |t.history| && t.history[i].name == n && forall k :: i < k < |t.history| ==> t.history[k].name != n
    ensures
      var r := t.history[i];
      InscriptionUtxo(t, n) ==
        if (r.action == Delist || r.action == BuyAndDelist) && r.txId.Some?
          then Some((OutPoint(r.txId.value, 0), r.utxoSats)) else None
  {
    LastRecordIs(t.history, n, i);
  }

  lemma NoUtxoOffered(t: Tables, n: Name)
    requires forall k :: 0 <= k < |t.history| ==> t.history[k].name != n
    ensures InscriptionUtxo(t, n) == None
  {
    LastRecordIs(t.history, n, 0);
  }

  // The utxo offered for the next listing of an exited name holds the
  // inscription and is worth what is reported, unless the exit fails or the
  // output has been spent.
  lemma InscriptionUtxoIsRight(
    ledgers: seq<Ledger>, steps: seq<ChainStep>, fails: TxId -> bool, i: nat, n: Name)
    requires IsCustodyRun(ledgers, steps, fails) && i < |ledgers|
    requires InscriptionUtxo(ledgers[i].w.market.tables, n).Some?
    ensures
      var l := ledgers[i];
      var (o, sats) := InscriptionUtxo(l.w.market.tables, n).value;
      && (fails(o.txId) || o in l.spent || (n in l.sits && l.sits[n].outpoint == o))
      && (fails(o.txId) ==> !(n in l.sits && l.sits[n].outpoint == o))
      && OutputValue(l.w.chain, o) == sats
  {
    CustodyKept(ledgers, steps, fails, i);
    assert NameInv(ledgers[i], n, fails);
    LastRecordFacts(ledgers[i].w.market.tables.history, n);
  }
}
