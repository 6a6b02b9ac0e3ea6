/**
 The PostgreSQL tables: listings (primary key name, unique tx_id), the trade
 history in creation order, users, NFT points, pool addresses and the stored
 event offset.
 */
module Tables {
  import opened Domain

  datatype Tables = Tables(
    listings: map<Name, Listing>,
    history: seq<TradeRecord>,
    users: map<Address, Option<Name>>,
    points: map<Name, int>,
    pools: map<Name, Address>,
    eventOffset: Option<nat>)

  // ---------- listings ----------

  predicate TxTaken(listings: map<Name, Listing>, name: Name, txId: TxId) {
    exists other | other in listings :: other != name && listings[other].txId == txId
  }

  // INSERT: refused when the name is listed or the transaction id is taken.
  function CreateListing(listings: map<Name, Listing>, l: Listing): map<Name, Listing> {
    if l.name in listings || TxTaken(listings, l.name, l.txId) then listings
    else listings[l.name := l]
  }

  function DeleteListing(listings: map<Name, Listing>, name: Name): map<Name, Listing> {
    listings - {name}
  }

  function UpdatePrice(listings: map<Name, Listing>, name: Name, price: nat): map<Name, Listing> {
    if name in listings then listings[name := listings[name].(price := price)] else listings
  }

  // UPDATE: touches no row when the name is absent, refused when the transaction id is taken.
  function UpdateSellerPriceTx(
    listings: map<Name, Listing>, name: Name, seller: Address, price: nat, txId: TxId
  ): map<Name, Listing>
  {
    if name !in listings || TxTaken(listings, name, txId) then listings
    else listings[name := listings[name].(seller := seller, price := price, txId := txId)]
  }

  // ---------- trade history ----------

  function AddRecord(history: seq<TradeRecord>, r: TradeRecord): seq<TradeRecord> {
    history + [r]
  }

  function DelRecord(history: seq<TradeRecord>, txId: TxId): seq<TradeRecord> {
    if history == [] then []
    else
      var rest, last := history[..|history| - 1], history[|history| - 1];
      DelRecord(rest, txId) + if last.txId == Some(txId) then [] else [last]
  }

  function SetStatus(history: seq<TradeRecord>, txId: TxId, status: Status): seq<TradeRecord> {
    if history == [] then []
    else
      var rest, last := history[..|history| - 1], history[|history| - 1];
      SetStatus(rest, txId, status) + [if last.txId == Some(txId) then last.(status := status) else last]
  }

  function Lookup(history: seq<TradeRecord>, txId: TxId): Option<TradeRecord> {
    if history == [] then None
    else
      var rest, last := history[..|history| - 1], history[|history| - 1];
      if last.txId == Some(txId) then Some(last) else Lookup(rest, txId)
  }

  // The newest record of a name.
  function LastRecord(history: seq<TradeRecord>, name: Name): Option<TradeRecord> {
    if history == [] then None
    else
      var rest, last := history[..|history| - 1], history[|history| - 1];
      if last.name == name then Some(last) else LastRecord(rest, name)
  }

  // The price column of the newest buy of a name.
  function LastBoughtPrice(history: seq<TradeRecord>, name: Name): Option<nat> {
    if history == [] then None
    else
      var rest, last := history[..|history| - 1], history[|history| - 1];
      if last.name == name && last.action.IsBuy() then last.price else LastBoughtPrice(rest, name)
  }

  function RecordCount(history: seq<TradeRecord>, name: Name): nat {
    if history == [] then 0
    else
      var rest, last := history[..|history| - 1], history[|history| - 1];
      RecordCount(rest, name) + if last.name == name then 1 else 0
  }

  function TradedCount(history: seq<TradeRecord>, name: Name): nat {
    if history == [] then 0
    else
      var rest, last := history[..|history| - 1], history[|history| - 1];
      TradedCount(rest, name) + if last.name == name && last.action.IsBuy() then 1 else 0
  }

  predicate SoldBy(r: TradeRecord, seller: Address) {
    r.seller == Some(seller) && r.action.IsBuy()
  }

  function Earned(history: seq<TradeRecord>, seller: Address): int {
    if history == [] then 0
    else
      var rest, last := history[..|history| - 1], history[|history| - 1];
      Earned(rest, seller) +
        if SoldBy(last, seller) then last.price.GetOr(0) - last.previousPrice.GetOr(0) else 0
  }

  function SalesOf(history: seq<TradeRecord>, seller: Address): nat {
    if history == [] then 0
    else
      var rest, last := history[..|history| - 1], history[|history| - 1];
      SalesOf(rest, seller) + if SoldBy(last, seller) then 1 else 0
  }

  // ---------- points ----------

  function AddPoints(points: map<Name, int>, name: Name, amount: int): map<Name, int> {
    points[name := (if name in points then points[name] else 0) + amount]
  }

  // ---------- facts about the history ----------

  ghost predicate Fresh(history: seq<TradeRecord>, txId: TxId) {
    forall i :: 0 <= i < |history| ==> history[i].txId != Some(txId)
  }

  lemma Snoc(history: seq<TradeRecord>, r: TradeRecord)
    ensures AddRecord(history, r)[..|history|] == history
    ensures AddRecord(history, r)[|history|] == r
  {
  }

  lemma Unsnoc(history: seq<TradeRecord>)
    requires history != []
    ensures history == history[..|history| - 1] + [history[|history| - 1]]
  {
  }

  lemma {:induction false} DelFresh(history: seq<TradeRecord>, txId: TxId)
    requires Fresh(history, txId)
    ensures DelRecord(history, txId) == history
  {
    if history != [] {
      Unsnoc(history);
      DelFresh(history[..|history| - 1], txId);
    }
  }

  lemma {:induction false} DelShrinks(history: seq<TradeRecord>, txId: TxId)
    ensures |DelRecord(history, txId)| <= |history|
    ensures |DelRecord(history, txId)| == |history| ==> Fresh(history, txId)
  {
    if history != [] {
      Unsnoc(history);
      DelShrinks(history[..|history| - 1], txId);
    }
  }

  // Deleting removes exactly the records of the transaction: every other record
  // stays, as often as it was there and in its place among the others.
  lemma {:induction false} DelRecordMembers(history: seq<TradeRecord>, txId: TxId)
    ensures Fresh(DelRecord(history, txId), txId)
    ensures forall r :: r in DelRecord(history, txId) <==> r in history && r.txId != Some(txId)
    ensures forall r: TradeRecord :: r.txId != Some(txId) ==>
      multiset(DelRecord(history, txId))[r] == multiset(history)[r]
  {
    if history != [] {
      Unsnoc(history);
      DelRecordMembers(history[..|history| - 1], txId);
    }
  }

  lemma {:induction false} DelRecordConcat(a: seq<TradeRecord>, b: seq<TradeRecord>, txId: TxId)
    ensures DelRecord(a + b, txId) == DelRecord(a, txId) + DelRecord(b, txId)
    decreases |b|
  {
    if b == [] {
      assert a + b == a;
    } else {
      assert (a + b)[..|a + b| - 1] == a + b[..|b| - 1];
      DelRecordConcat(a, b[..|b| - 1], txId);
    }
  }

  // Deleting after a failed invoke undoes the insertion if and only if no
  // earlier record carries the same transaction id.
  lemma DeleteUndoesAddIffFresh(history: seq<TradeRecord>, r: TradeRecord)
    requires r.txId.Some?
    ensures DelRecord(AddRecord(history, r), r.txId.value) == history <==> Fresh(history, r.txId.value)
  {
    Snoc(history, r);
    DelShrinks(history, r.txId.value);
    if Fresh(history, r.txId.value) { DelFresh(history, r.txId.value); }
  }

  lemma {:induction false} LookupFacts(history: seq<TradeRecord>, txId: TxId)
    ensures Lookup(history, txId).None? <==> Fresh(history, txId)
    ensures Lookup(history, txId).Some? ==>
      Lookup(history, txId).value in history && Lookup(history, txId).value.txId == Some(txId)
  {
    if history != [] {
      Unsnoc(history);
      LookupFacts(history[..|history| - 1], txId);
      if Lookup(history, txId).None? {
        forall i | 0 <= i < |history| ensures history[i].txId != Some(txId) {
          if i < |history| - 1 { assert history[i] == history[..|history| - 1][i]; }
        }
      }
    }
  }

  // Two records that differ in status only.
  predicate SameTrade(a: TradeRecord, b: TradeRecord) {
    a.(status := b.status) == b
  }

  predicate SameTradeOpt(a: Option<TradeRecord>, b: Option<TradeRecord>) {
    match (a, b)
    case (Some(x), Some(y)) => SameTrade(x, y)
    case (None, None) => true
    case _ => false
  }

  lemma {:induction false} StatusKeepsRows(history: seq<TradeRecord>, txId: TxId, status: Status, other: TxId, name: Name)
    ensures
      var h := SetStatus(history, txId, status);
      && |h| == |history|
      && (forall i :: 0 <= i < |h| ==> SameTrade(history[i], h[i]))
      && SameTradeOpt(Lookup(history, other), Lookup(h, other))
      && SameTradeOpt(LastRecord(history, name), LastRecord(h, name))
  {
    if history != [] {
      var rest := history[..|history| - 1];
      Unsnoc(history);
      StatusKeepsRows(rest, txId, status, other, name);
      var h := SetStatus(history, txId, status);
      assert h[..|h| - 1] == SetStatus(rest, txId, status);
      forall i | 0 <= i < |h| ensures SameTrade(history[i], h[i]) {
        if i < |h| - 1 { assert h[i] == SetStatus(rest, txId, status)[i]; }
      }
    }
  }

  lemma {:induction false} StatusKeepsTotals(
    history: seq<TradeRecord>, txId: TxId, status: Status, name: Name, seller: Address)
    ensures
      var h := SetStatus(history, txId, status);
      && LastBoughtPrice(h, name) == LastBoughtPrice(history, name)
      && RecordCount(h, name) == RecordCount(history, name)
      && TradedCount(h, name) == TradedCount(history, name)
      && Earned(h, seller) == Earned(history, seller)
      && SalesOf(h, seller) == SalesOf(history, seller)
  {
    if history != [] {
      var rest := history[..|history| - 1];
      StatusKeepsTotals(rest, txId, status, name, seller);
      var h := SetStatus(history, txId, status);
      assert h[..|h| - 1] == SetStatus(rest, txId, status);
    }
  }

  // A status change alters no query the marketplace bases a price, a count or
  // a rollback on.
  lemma StatusKeeps(
    history: seq<TradeRecord>, txId: TxId, status: Status, other: TxId, name: Name, seller: Address)
    ensures
      var h := SetStatus(history, txId, status);
      && |h| == |history|
      && (forall i :: 0 <= i < |h| ==> SameTrade(history[i], h[i]))
      && SameTradeOpt(Lookup(history, other), Lookup(h, other))
      && SameTradeOpt(LastRecord(history, name), LastRecord(h, name))
      && LastBoughtPrice(h, name) == LastBoughtPrice(history, name)
      && RecordCount(h, name) == RecordCount(history, name)
      && TradedCount(h, name) == TradedCount(history, name)
      && Earned(h, seller) == Earned(history, seller)
      && SalesOf(h, seller) == SalesOf(history, seller)
  {
    StatusKeepsRows(history, txId, status, other, name);
    StatusKeepsTotals(history, txId, status, name, seller);
  }

  // The status column after the update, record by record.
  lemma {:induction false} SetStatusAt(history: seq<TradeRecord>, txId: TxId, status: Status, i: nat)
    requires i < |history|
    ensures |SetStatus(history, txId, status)| == |history|
    ensures SetStatus(history, txId, status)[i] ==
      if history[i].txId == Some(txId) then history[i].(status := status) else history[i]
  {
    Unsnoc(history);
    var rest := history[..|history| - 1];
    if i < |rest| {
      SetStatusAt(rest, txId, status, i);
    } else if rest != [] {
      SetStatusAt(rest, txId, status, 0);
    }
  }
}
