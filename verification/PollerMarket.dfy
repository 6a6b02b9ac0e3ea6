/**
 The poller against the market: a batch is the status steps of a run, it rolls
 back exactly the known records it rejects, and nothing else of it reaches the
 listings.
 */
module PollerMarket {
  import opened Domain
  import opened Tables
  import opened EventHandling
  import opened Polling
  import opened Runs
  import opened Reachability
  import opened MarketTheorems
  import opened RollbackLimits

  // ---------- one event ----------

  function StepOf(e: LogEvent, now: int): Runs.Step
    requires e.StatusChanged?
  {
    StatusStep(e.txId, e.status, now)
  }

  // The poller's handling of a status event is the status step of a run; every
  // other event leaves the market alone.
  lemma EventIsStep(m: Market, e: LogEvent, now: int)
    ensures HandleEvent(m, e, now) == if e.StatusChanged? then Effect(m, StepOf(e, now)) else m
  {
  }

  // The status a record has after an event: a status event of its transaction
  // decides, unless it is a pending one.
  lemma EventStatus(m: Market, e: LogEvent, now: int, i: nat)
    requires i < |m.tables.history|
    ensures
      var h, h' := m.tables.history, HandleEvent(m, e, now).tables.history;
      && |h'| == |h|
      && h'[i] ==
           if e.StatusChanged? && h[i].txId == Some(e.txId) then
             match e.status
             case ReePending => h[i]
             case ReeFinalized => h[i].(status := Finalized)
             case ReeConfirmed(_) => h[i].(status := Confirmed)
             case ReeRejected(_) => h[i].(status := Rejected)
           else h[i]
  {
    if e.StatusChanged? && NewStatus(e.status).Some? {
      StatusHistory(m, e.txId, e.status, now);
      SetStatusAt(m.tables.history, e.txId, NewStatus(e.status).value, i);
    }
  }

  // ---------- the listings after a batch ----------

  // What one event does to the listings, given the trade history.
  ghost function EventRows(ls: map<Name, Listing>, h: seq<TradeRecord>, e: LogEvent, now: int): map<Name, Listing> {
    if e.StatusChanged? && e.status.ReeRejected? && Lookup(h, e.txId).Some?
      then RejectedListings(ls, Lookup(h, e.txId).value, now)
    else ls
  }

  ghost function BatchRows(ls: map<Name, Listing>, h: seq<TradeRecord>, batch: seq<LogEvent>, now: int)
    : map<Name, Listing>
  {
    if batch == [] then ls
    else EventRows(BatchRows(ls, h, batch[..|batch| - 1], now), h, batch[|batch| - 1], now)
  }

  // Two histories that differ in statuses only.
  ghost predicate SameRecords(a: seq<TradeRecord>, b: seq<TradeRecord>) {
    forall txId :: SameTradeOpt(Lookup(a, txId), Lookup(b, txId))
  }

  lemma StatusSameRecords(a: seq<TradeRecord>, h: seq<TradeRecord>, txId: TxId, status: Status)
    requires SameRecords(a, h)
    ensures SameRecords(a, SetStatus(h, txId, status))
  {
    forall other ensures SameTradeOpt(Lookup(a, other), Lookup(SetStatus(h, txId, status), other)) {
      StatusKeepsRows(h, txId, status, other, "");
    }
  }

  // The rows a rollback writes do not depend on the status of the record.
  lemma SameRowsWritten(ls: map<Name, Listing>, r: TradeRecord, r': TradeRecord, now: int)
    requires SameTrade(r, r')
    ensures RejectedListings(ls, r, now) == RejectedListings(ls, r', now)
  {
  }

  lemma RejectionRows(m: Market, h: seq<TradeRecord>, txId: TxId, reason: string, now: int)
    requires SameRecords(h, m.tables.history)
    ensures
      var m' := HandleStatusChange(m, txId, ReeRejected(reason), now);
      && m'.tables.listings == EventRows(m.tables.listings, h, StatusChanged(txId, ReeRejected(reason)), now)
      && SameRecords(h, m'.tables.history)
  {
    var m1 := m.(tables := m.tables.(history := SetStatus(m.tables.history, txId, Rejected)));
    StatusSameRecords(h, m.tables.history, txId, Rejected);
    assert SameTradeOpt(Lookup(h, txId), Lookup(m1.tables.history, txId));
    if Lookup(m1.tables.history, txId).Some? {
      var row := Lookup(m1.tables.history, txId).value;
      RejectWrites(m1, row, now);
      RollbackKeepsHistory(m1, row, now);
      SameRowsWritten(m.tables.listings, Lookup(h, txId).value, row, now);
    }
  }

  lemma OneEventRows(m: Market, h: seq<TradeRecord>, e: LogEvent, now: int)
    requires SameRecords(h, m.tables.history)
    ensures HandleEvent(m, e, now).tables.listings == EventRows(m.tables.listings, h, e, now)
    ensures SameRecords(h, HandleEvent(m, e, now).tables.history)
  {
    if e.StatusChanged? && e.status.ReeRejected? {
      RejectionRows(m, h, e.txId, e.status.reason, now);
    } else if e.StatusChanged? && NewStatus(e.status).Some? {
      StatusSameRecords(h, m.tables.history, e.txId, NewStatus(e.status).value);
    }
  }

  lemma {:induction false} BatchWrites(m: Market, h: seq<TradeRecord>, batch: seq<LogEvent>, now: int)
    requires SameRecords(h, m.tables.history)
    ensures HandleAll(m, batch, now).tables.listings == BatchRows(m.tables.listings, h, batch, now)
    ensures SameRecords(h, HandleAll(m, batch, now).tables.history)
  {
    if batch != [] {
      BatchWrites(m, h, batch[..|batch| - 1], now);
      OneEventRows(HandleAll(m, batch[..|batch| - 1], now), h, batch[|batch| - 1], now);
    }
  }

  // For any market: a batch writes the rollbacks of the known records that it
  // rejects, in order, and nothing else into the listings.
  lemma BatchListings(m: Market, batch: seq<LogEvent>, now: int)
    ensures HandleAll(m, batch, now).tables.listings == BatchRows(m.tables.listings, m.tables.history, batch, now)
  {
    forall txId ensures SameTradeOpt(Lookup(m.tables.history, txId), Lookup(m.tables.history, txId)) {
    }
    BatchWrites(m, m.tables.history, batch, now);
  }

  // Event `at` of the batch rejects a record of n, and no other event of the
  // batch rejects one.
  ghost predicate RejectsOnce(h: seq<TradeRecord>, batch: seq<LogEvent>, at: nat, r: TradeRecord) {
    && at < |batch| && batch[at].StatusChanged? && batch[at].status.ReeRejected?
    && Lookup(h, batch[at].txId) == Some(r)
    && forall i :: 0 <= i < |batch| && i != at ==> !RejectsOf(h, batch[i], r.name)
  }

  ghost predicate RejectsOf(h: seq<TradeRecord>, e: LogEvent, n: Name) {
    && e.StatusChanged? && e.status.ReeRejected?
    && Lookup(h, e.txId).Some? && Lookup(h, e.txId).value.name == n
  }

  // Events that reject no record of n leave n's row.
  lemma OtherEventRow(ls: map<Name, Listing>, h: seq<TradeRecord>, e: LogEvent, now: int, n: Name)
    requires !RejectsOf(h, e, n)
    ensures n in EventRows(ls, h, e, now) <==> n in ls
    ensures n in ls ==> EventRows(ls, h, e, now)[n] == ls[n]
  {
  }

  lemma {:induction false} OtherBatchRow(ls: map<Name, Listing>, h: seq<TradeRecord>, batch: seq<LogEvent>, now: int, n: Name)
    requires forall i :: 0 <= i < |batch| ==> !RejectsOf(h, batch[i], n)
    ensures HoldingOf(BatchRows(ls, h, batch, now), n) == HoldingOf(ls, n)
  {
    if batch != [] {
      OtherBatchRow(ls, h, batch[..|batch| - 1], now, n);
      OtherEventRow(BatchRows(ls, h, batch[..|batch| - 1], now), h, batch[|batch| - 1], now, n);
    }
  }

  // A name none of whose records is rejected keeps its listing through a batch.
  lemma UnrejectedStays(m: Market, batch: seq<LogEvent>, now: int, n: Name)
    requires forall i :: 0 <= i < |batch| ==> !RejectsOf(m.tables.history, batch[i], n)
    ensures HoldingOf(HandleAll(m, batch, now).tables.listings, n) == HoldingOf(m.tables.listings, n)
  {
    BatchListings(m, batch, now);
    OtherBatchRow(m.tables.listings, m.tables.history, batch, now, n);
  }

  // ---------- one rejection in a batch ----------

  // Rollbacks of other names never write this record's id.
  lemma EventKeepsOwnId(ls: map<Name, Listing>, h: seq<TradeRecord>, e: LogEvent, now: int, r: TradeRecord)
    requires r.txId.Some? && Lookup(h, r.txId.value) == Some(r)
    requires !TxTaken(ls, r.name, r.txId.value) && !RejectsOf(h, e, r.name)
    ensures !TxTaken(EventRows(ls, h, e, now), r.name, r.txId.value)
  {
    if e.StatusChanged? && e.status.ReeRejected? && Lookup(h, e.txId).Some? {
      LookupFacts(h, e.txId);
      var ls', other := EventRows(ls, h, e, now), Lookup(h, e.txId).value;
      forall n | n in ls' && n != r.name ensures ls'[n].txId != r.txId.value {
        if n != other.name { assert n in ls && ls'[n] == ls[n]; }
      }
    }
  }

  lemma {:induction false} BatchKeepsOwnId(
    ls: map<Name, Listing>, h: seq<TradeRecord>, batch: seq<LogEvent>, now: int, r: TradeRecord)
    requires r.txId.Some? && Lookup(h, r.txId.value) == Some(r)
    requires !TxTaken(ls, r.name, r.txId.value)
    requires forall i :: 0 <= i < |batch| ==> !RejectsOf(h, batch[i], r.name)
    ensures !TxTaken(BatchRows(ls, h, batch, now), r.name, r.txId.value)
  {
    if batch != [] {
      BatchKeepsOwnId(ls, h, batch[..|batch| - 1], now, r);
      EventKeepsOwnId(BatchRows(ls, h, batch[..|batch| - 1], now), h, batch[|batch| - 1], now, r);
    }
  }

  lemma {:induction false} OnceInBatch(
    ls: map<Name, Listing>, h: seq<TradeRecord>, batch: seq<LogEvent>, at: nat, now: int, r: TradeRecord)
    requires RejectsOnce(h, batch, at, r) && !TxTaken(ls, r.name, r.txId.GetOr(""))
    ensures HoldingOf(BatchRows(ls, h, batch, now), r.name) == Rejecting(HoldingOf(ls, r.name), r)
    decreases |batch|
  {
    var rest, last := batch[..|batch| - 1], batch[|batch| - 1];
    LookupFacts(h, batch[at].txId);
    if at < |rest| {
      assert rest[at] == batch[at];
      OnceInBatch(ls, h, rest, at, now, r);
      OtherEventRow(BatchRows(ls, h, rest, now), h, last, now, r.name);
    } else {
      OtherBatchRow(ls, h, rest, now, r.name);
      BatchKeepsOwnId(ls, h, rest, now, r);
      WrittenHolding(BatchRows(ls, h, rest, now), r, now);
    }
  }

  // For any market: a batch that rejects one record of a name leaves that
  // name's holding as the record says it is to be rolled back.
  lemma RejectedInBatch(m: Market, batch: seq<LogEvent>, at: nat, now: int, r: TradeRecord)
    requires RejectsOnce(m.tables.history, batch, at, r) && OwnId(m, r)
    ensures HoldingOf(HandleAll(m, batch, now).tables.listings, r.name) ==
      Rejecting(HoldingOf(m.tables.listings, r.name), r)
  {
    BatchListings(m, batch, now);
    OnceInBatch(m.tables.listings, m.tables.history, batch, at, now, r);
  }

  // ---------- in runs ----------

  // Each status event of the batch meets the guard of a run in its turn.
  ghost predicate BatchAdmissible(w: World, batch: seq<LogEvent>, now: int)
    decreases |batch|
  {
    batch == [] ||
    if batch[0].StatusChanged? then
      Admissible(w, StepOf(batch[0], now)) && BatchAdmissible(Next(w, StepOf(batch[0], now)), batch[1..], now)
    else BatchAdmissible(w, batch[1..], now)
  }

  lemma {:induction false} HandleFirst(m: Market, batch: seq<LogEvent>, now: int)
    requires batch != []
    ensures HandleAll(m, batch, now) == HandleAll(HandleEvent(m, batch[0], now), batch[1..], now)
    decreases |batch|
  {
    if |batch| > 1 {
      var rest := batch[..|batch| - 1];
      HandleFirst(m, rest, now);
      assert rest[1..] == batch[1..][..|batch| - 2];
    } else {
      assert batch[..0] == [];
    }
  }

  // Polling a batch continues the run: what holds of every run holds of the
  // market that the poller leaves.
  lemma {:induction false} PolledRun(worlds: seq<World>, steps: seq<Runs.Step>, batch: seq<LogEvent>, now: int)
    returns (worlds': seq<World>, steps': seq<Runs.Step>)
    requires IsRun(worlds, steps) && BatchAdmissible(worlds[|steps|], batch, now)
    ensures IsRun(worlds', steps') && worlds <= worlds' && steps <= steps'
    ensures worlds'[|steps'|].market == HandleAll(worlds[|steps|].market, batch, now)
    decreases |batch|
  {
    if batch == [] {
      worlds', steps' := worlds, steps;
    } else {
      HandleFirst(worlds[|steps|].market, batch, now);
      EventIsStep(worlds[|steps|].market, batch[0], now);
      if batch[0].StatusChanged? {
        var s := StepOf(batch[0], now);
        Extend(worlds, steps, s);
        worlds', steps' := PolledRun(worlds + [Next(worlds[|steps|], s)], steps + [s], batch[1..], now);
      } else {
        worlds', steps' := PolledRun(worlds, steps, batch[1..], now);
      }
    }
  }

  // In every run: when the poller handles the rejection of the newest trade of
  // a name, the name is back at what it held before that trade was taken.
  lemma PolledRejectionRestores(
    worlds: seq<World>, steps: seq<Runs.Step>, i: nat, j: nat, reason: string, now: int)
    requires IsRun(worlds, steps) && i < j < |worlds|
    requires TakenTrade(worlds[i].market, steps[i]).Some?
    requires
      var s := StatusStep(steps[i].q.psbt.txId, ReeRejected(reason), now);
      Admissible(worlds[j], s) && RejectedBy(worlds[j].market, s).Some?
    ensures
      var n, batch := steps[i].q.name, [StatusChanged(steps[i].q.psbt.txId, ReeRejected(reason))];
      HoldingOf(HandleAll(worlds[j].market, batch, now).tables.listings, n) ==
      HoldingOf(worlds[i].market.tables.listings, n)
  {
    var w, s := worlds[j], StatusStep(steps[i].q.psbt.txId, ReeRejected(reason), now);
    var batch := [StatusChanged(steps[i].q.psbt.txId, ReeRejected(reason))];
    var n := RejectedBy(w.market, s).value.name;
    var f := StackOf(w, n)[|StackOf(w, n)| - 1];
    FrameOfTrade(worlds, steps, i, j, n, f);
    RunKeeps(worlds, steps, j);
    RollbackRestores(w, s, n, f);
    HandleFirst(w.market, batch, now);
    EventIsStep(w.market, batch[0], now);
    assert batch[1..] == [];
  }
}
