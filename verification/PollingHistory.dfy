/**
 The event poller on the trade history: the consumption protocol and the market
 run together, and replays are idempotent on the records.
 */
module PollingHistory {
  import opened Domain
  import opened Tables
  import opened EventHandling
  import opened Polling

  // The trade history after an event.
  function HistoryAfter(h: seq<TradeRecord>, e: LogEvent): seq<TradeRecord> {
    if e.StatusChanged? && NewStatus(e.status).Some? then SetStatus(h, e.txId, NewStatus(e.status).value) else h
  }

  lemma EventHistory(m: Market, e: LogEvent, now: int)
    ensures HandleEvent(m, e, now).tables.history == HistoryAfter(m.tables.history, e)
    ensures HandleEvent(m, e, now).tables.eventOffset == m.tables.eventOffset
  {
    if e.StatusChanged? && e.status.ReeRejected? {
      var m1 := m.(tables := m.tables.(history := SetStatus(m.tables.history, e.txId, Rejected)));
      var row := Lookup(m1.tables.history, e.txId);
      if row.Some? { RollbackKeepsHistory(m1, row.value, now); }
    }
  }

  // ---------- the protocol and the market together ----------

  // The statuses are those of the trade history, the offset the stored one.
  ghost predicate Agrees(c: Consumer, m: Market) {
    && c.persisted == m.tables.eventOffset.GetOr(0)
    && StatusesAgree(c.statuses, m.tables.history)
  }

  ghost predicate RowAgrees(statuses: map<TxId, Status>, r: TradeRecord) {
    r.txId.Some? ==> r.txId.value in statuses && statuses[r.txId.value] == r.status
  }

  ghost predicate StatusesAgree(statuses: map<TxId, Status>, h: seq<TradeRecord>) {
    && (forall i :: 0 <= i < |h| ==> RowAgrees(statuses, h[i]))
    && forall txId :: txId in statuses ==> exists i :: 0 <= i < |h| && h[i].txId == Some(txId)
  }

  lemma {:induction false} SetStatusLength(h: seq<TradeRecord>, txId: TxId, status: Status)
    ensures |SetStatus(h, txId, status)| == |h|
  {
    if h != [] { SetStatusLength(h[..|h| - 1], txId, status); }
  }

  lemma SetStatusAgrees(statuses: map<TxId, Status>, h: seq<TradeRecord>, txId: TxId, status: Status)
    requires StatusesAgree(statuses, h)
    ensures StatusesAgree(
      if txId in statuses then statuses[txId := status] else statuses, SetStatus(h, txId, status))
  {
    var h' := SetStatus(h, txId, status);
    var statuses' := if txId in statuses then statuses[txId := status] else statuses;
    SetStatusLength(h, txId, status);
    forall i | 0 <= i < |h| ensures h'[i].txId == h[i].txId && RowAgrees(statuses', h'[i]) {
      SetStatusAt(h, txId, status, i);
      assert RowAgrees(statuses, h[i]);
    }
    SameIds(statuses, h, h');
  }

  lemma SameIds(statuses: map<TxId, Status>, h: seq<TradeRecord>, h': seq<TradeRecord>)
    requires |h| == |h'| && forall i :: 0 <= i < |h| ==> h'[i].txId == h[i].txId
    requires forall txId :: txId in statuses ==> exists i :: 0 <= i < |h| && h[i].txId == Some(txId)
    ensures forall txId :: txId in statuses ==> exists i :: 0 <= i < |h'| && h'[i].txId == Some(txId)
  {
    forall id | id in statuses ensures exists i :: 0 <= i < |h'| && h'[i].txId == Some(id) {
      var i :| 0 <= i < |h| && h[i].txId == Some(id);
      assert h'[i].txId == Some(id);
    }
  }

  lemma StatusEventAgrees(statuses: map<TxId, Status>, h: seq<TradeRecord>, e: LogEvent)
    requires StatusesAgree(statuses, h)
    ensures StatusesAgree(ApplyStatus(statuses, e), HistoryAfter(h, e))
  {
    if e.StatusChanged? && NewStatus(e.status).Some? {
      SetStatusAgrees(statuses, h, e.txId, NewStatus(e.status).value);
    }
  }

  // One event keeps the agreement, rollbacks included.
  lemma EventAgrees(statuses: map<TxId, Status>, m: Market, e: LogEvent, now: int)
    requires StatusesAgree(statuses, m.tables.history)
    ensures StatusesAgree(ApplyStatus(statuses, e), HandleEvent(m, e, now).tables.history)
    ensures HandleEvent(m, e, now).tables.eventOffset == m.tables.eventOffset
  {
    EventHistory(m, e, now);
    StatusEventAgrees(statuses, m.tables.history, e);
  }

  // ---------- one round of the loop as turns ----------

  function HandleMany(c: Consumer, k: nat): (r: Consumer)
    requires c.process.InBatch? && c.process.cursor + k <= c.process.end
    ensures r.process == c.process.(cursor := c.process.cursor + k)
    ensures r.log == c.log && r.persisted == c.persisted
  {
    if k == 0 then c else Step(HandleMany(c, k - 1), HandleNext)
  }

  function HistoryAll(h: seq<TradeRecord>, batch: seq<LogEvent>): seq<TradeRecord> {
    if batch == [] then h else HistoryAfter(HistoryAll(h, batch[..|batch| - 1]), batch[|batch| - 1])
  }

  lemma {:induction false} HandleAllHistory(m: Market, batch: seq<LogEvent>, now: int)
    ensures HandleAll(m, batch, now).tables.history == HistoryAll(m.tables.history, batch)
    ensures HandleAll(m, batch, now).tables.eventOffset == m.tables.eventOffset
  {
    if batch != [] {
      var before := batch[..|batch| - 1];
      HandleAllHistory(m, before, now);
      EventHistory(HandleAll(m, before, now), batch[|batch| - 1], now);
    }
  }

  function ApplyAll(statuses: map<TxId, Status>, batch: seq<LogEvent>): map<TxId, Status> {
    if batch == [] then statuses
    else ApplyStatus(ApplyAll(statuses, batch[..|batch| - 1]), batch[|batch| - 1])
  }

  lemma {:induction false} ManyApplies(c: Consumer, batch: seq<LogEvent>)
    requires c.process.InBatch? && c.process.cursor + |batch| <= c.process.end <= |c.log|
    requires forall i :: 0 <= i < |batch| ==> batch[i] == c.log[c.process.cursor + i]
    ensures HandleMany(c, |batch|).statuses == ApplyAll(c.statuses, batch)
  {
    if batch != [] { ManyApplies(c, batch[..|batch| - 1]); }
  }

  lemma {:induction false} AllAgree(statuses: map<TxId, Status>, h: seq<TradeRecord>, batch: seq<LogEvent>)
    requires StatusesAgree(statuses, h)
    ensures StatusesAgree(ApplyAll(statuses, batch), HistoryAll(h, batch))
  {
    if batch != [] {
      var before := batch[..|batch| - 1];
      AllAgree(statuses, h, before);
      StatusEventAgrees(ApplyAll(statuses, before), HistoryAll(h, before), batch[|batch| - 1]);
    }
  }

  // A fetched batch, its events one by one and the persisted offset are what a
  // round of the loop does: the same offset, the same stored offset and, record
  // by record, the same statuses in the trade history.
  lemma RoundOfTurns(c: Consumer, m: Market, count: nat, persistOk: bool, now: int)
    requires ProcessInv(c) && Enabled(c, Fetch(count)) && Agrees(c, m)
    ensures
      var from := c.process.offset;
      var c' := Step(HandleMany(Step(c, Fetch(count)), count), Finish(persistOk));
      && c'.process == Idle(from + count)
      && Agrees(c', RoundEffect(m, c.log[from..from + count], from + count, persistOk, now))
  {
    var batch := c.log[c.process.offset..c.process.offset + count];
    ManyApplies(Step(c, Fetch(count)), batch);
    AllAgree(c.statuses, m.tables.history, batch);
    HandleAllHistory(m, batch, now);
  }

  // What is stored after a round: the offset after the batch when there was one
  // and persisting it succeeded, and otherwise what was stored before.
  lemma RoundStores(m: Market, batch: seq<LogEvent>, newOffset: nat, persistOk: bool, now: int)
    ensures
      var stored := RoundEffect(m, batch, newOffset, persistOk, now).tables.eventOffset;
      stored == if batch == [] || !persistOk then m.tables.eventOffset else Some(newOffset)
  {
    HandleAllHistory(m, batch, now);
  }

  // ---------- coupled runs ----------

  // What a turn does to the market, interleaved with other requests: those add
  // pending records, delete them after a failed call, add relist records, and
  // change anything but the history and the stored offset.
  ghost predicate MarketTurn(c: Consumer, t: Turn, m: Market, m': Market, now: int)
    requires Enabled(c, t)
  {
    var h, h' := m.tables.history, m'.tables.history;
    match t
    case HandleNext => m' == HandleEvent(m, LogAt(c.log, c.process.cursor), now)
    case Finish(ok) =>
      m' == if ok then m.(tables := m.tables.(eventOffset := Some(c.process.end))) else m
    case AddTrade(txId) =>
      && m'.tables.eventOffset == m.tables.eventOffset
      && exists r: TradeRecord :: r.txId == Some(txId) && r.status == Pending && h' == AddRecord(h, r)
    case DropTrade(txId) =>
      m'.tables.eventOffset == m.tables.eventOffset && h' == DelRecord(h, txId)
    case _ =>
      && m'.tables.eventOffset == m.tables.eventOffset
      && (h' == h || exists r: TradeRecord :: r.txId.None? && h' == AddRecord(h, r))
  }

  ghost predicate IsCoupled(cs: seq<Consumer>, ms: seq<Market>, turns: seq<Turn>, nows: seq<int>) {
    && IsPolling(cs, turns) && |ms| == |cs| && |nows| == |turns|
    && ms[0].tables.history == [] && ms[0].tables.eventOffset.GetOr(0) == 0
    && forall i :: 0 <= i < |turns| ==> MarketTurn(cs[i], turns[i], ms[i], ms[i + 1], nows[i])
  }

  lemma AddAgrees(statuses: map<TxId, Status>, h: seq<TradeRecord>, r: TradeRecord)
    requires StatusesAgree(statuses, h) && (r.txId.Some? ==> r.txId.value !in statuses)
    ensures StatusesAgree(
      if r.txId.Some? then statuses[r.txId.value := r.status] else statuses, AddRecord(h, r))
  {
    var h' := AddRecord(h, r);
    forall id | id in statuses ensures exists i :: 0 <= i < |h'| && h'[i].txId == Some(id) {
      var i :| 0 <= i < |h| && h[i].txId == Some(id);
      assert h'[i].txId == Some(id);
    }
    assert h'[|h|] == r;
  }

  // Which records a deletion leaves, one at a time.
  lemma LeftIff(h: seq<TradeRecord>, txId: TxId, r: TradeRecord)
    ensures r in DelRecord(h, txId) <==> r in h && r.txId != Some(txId)
  {
    DelRecordMembers(h, txId);
  }

  lemma LeftAgrees(statuses: map<TxId, Status>, h: seq<TradeRecord>, txId: TxId, r: TradeRecord)
    requires StatusesAgree(statuses, h) && r in DelRecord(h, txId)
    ensures RowAgrees(statuses - {txId}, r)
  {
    LeftIff(h, txId, r);
    var j :| 0 <= j < |h| && h[j] == r;
    assert RowAgrees(statuses, h[j]);
  }

  lemma DropAgrees(statuses: map<TxId, Status>, h: seq<TradeRecord>, txId: TxId)
    requires StatusesAgree(statuses, h)
    ensures StatusesAgree(statuses - {txId}, DelRecord(h, txId))
  {
    var h' := DelRecord(h, txId);
    forall i | 0 <= i < |h'| ensures RowAgrees(statuses - {txId}, h'[i]) { LeftAgrees(statuses, h, txId, h'[i]); }
    forall id | id in statuses - {txId} ensures exists i :: 0 <= i < |h'| && h'[i].txId == Some(id) {
      var i :| 0 <= i < |h| && h[i].txId == Some(id);
      LeftIff(h, txId, h[i]);
    }
  }

  lemma TurnAgrees(c: Consumer, t: Turn, m: Market, m': Market, now: int)
    requires Enabled(c, t) && Agrees(c, m) && MarketTurn(c, t, m, m', now)
    ensures Agrees(Step(c, t), m')
  {
    match t
    case HandleNext => EventAgrees(c.statuses, m, LogAt(c.log, c.process.cursor), now);
    case AddTrade(txId) =>
      var r: TradeRecord :| r.txId == Some(txId) && r.status == Pending && m'.tables.history == AddRecord(m.tables.history, r);
      AddAgrees(c.statuses, m.tables.history, r);
    case DropTrade(txId) => DropAgrees(c.statuses, m.tables.history, txId);
    case Finish(ok) =>
    case _ =>
      if m'.tables.history != m.tables.history {
        var r: TradeRecord :| r.txId.None? && m'.tables.history == AddRecord(m.tables.history, r);
        AddAgrees(c.statuses, m.tables.history, r);
      }
  }

  lemma {:induction false} CoupledAgrees(
    cs: seq<Consumer>, ms: seq<Market>, turns: seq<Turn>, nows: seq<int>, i: nat)
    requires IsCoupled(cs, ms, turns, nows) && i < |cs|
    ensures Agrees(cs[i], ms[i])
  {
    if i > 0 {
      CoupledAgrees(cs, ms, turns, nows, i - 1);
      assert Enabled(cs[i - 1], turns[i - 1]) && cs[i - 1 + 1] == Step(cs[i - 1], turns[i - 1]);
      assert MarketTurn(cs[i - 1], turns[i - 1], ms[i - 1], ms[i - 1 + 1], nows[i - 1]);
      TurnAgrees(cs[i - 1], turns[i - 1], ms[i - 1], ms[i], nows[i - 1]);
    }
  }

  // Whenever the poller has caught up with everything ever handled, each record
  // of the trade history has the status of its last event in the log, through
  // fetch and persist failures, crashes, replays and rollbacks.
  lemma HistoryConverges(
    cs: seq<Consumer>, ms: seq<Market>, turns: seq<Turn>, nows: seq<int>, i: nat, k: nat)
    requires IsCoupled(cs, ms, turns, nows) && i < |cs|
    requires forall j :: 0 <= j < i ==> Smooth(cs[j], turns[j])
    requires Position(cs[i].process) == cs[i].high
    requires k < |ms[i].tables.history| && ms[i].tables.history[k].txId.Some?
    ensures
      var r := ms[i].tables.history[k];
      cs[i].high <= |cs[i].log| && r.status == LastStatus(cs[i].log[..cs[i].high], r.txId.value).GetOr(Pending)
  {
    CoupledAgrees(cs, ms, turns, nows, i);
    StatusesConverge(cs, turns, i, ms[i].tables.history[k].txId.value);
  }

  // ---------- replay on the trade history ----------

  function StatusAfter(r: TradeRecord, events: seq<LogEvent>): Status {
    if r.txId.Some? then LastStatus(events, r.txId.value).GetOr(r.status) else r.status
  }

  // Handling a batch gives each record the status of its last event in it and
  // changes nothing else in the history, rollbacks included.
  lemma {:induction false} BatchHistory(m: Market, events: seq<LogEvent>, now: int, i: nat)
    requires i < |m.tables.history|
    ensures
      var h, h' := m.tables.history, HandleAll(m, events, now).tables.history;
      |h'| == |h| && h'[i] == h[i].(status := StatusAfter(h[i], events))
  {
    if events != [] {
      var rest, e := events[..|events| - 1], events[|events| - 1];
      BatchHistory(m, rest, now, i);
      var m1 := HandleAll(m, rest, now);
      EventHistory(m1, e, now);
      if e.StatusChanged? && NewStatus(e.status).Some? {
        SetStatusAt(m1.tables.history, e.txId, NewStatus(e.status).value, i);
      }
    }
  }

  // Handling a log prefix and then any suffix of it again leaves every record
  // with the same status.
  lemma ReplayKeepsHistory(m: Market, log: seq<LogEvent>, from: nat, now: int)
    requires from <= |log|
    ensures
      var once := HandleAll(m, log, now);
      HandleAll(once, log[from..], now).tables.history == once.tables.history
  {
    var once := HandleAll(m, log, now);
    var twice := HandleAll(once, log[from..], now);
    if m.tables.history != [] {
      BatchHistory(m, log, now, 0);
      BatchHistory(once, log[from..], now, 0);
    } else {
      EmptyHistory(m, log, now);
      EmptyHistory(once, log[from..], now);
    }
    forall i | 0 <= i < |once.tables.history| ensures twice.tables.history[i] == once.tables.history[i] {
      BatchHistory(m, log, now, i);
      BatchHistory(once, log[from..], now, i);
      var r := m.tables.history[i];
      if r.txId.Some? {
        LastStatusSplit(log, from, |log|, r.txId.value);
        assert log[..|log|] == log && log[from..|log|] == log[from..];
      }
    }
  }

  // Resuming past unhandled events: a record still ends with the right status
  // if and only if a later event sets it anyway, the skipped range does not
  // touch it, or the skipped range would have left it as it was.
  lemma SkippedRangeHarmlessIff(m: Market, log: seq<LogEvent>, from: nat, to: nat, now: int, i: nat)
    requires from <= to <= |log| && i < |m.tables.history| && m.tables.history[i].txId.Some?
    ensures
      var resumed := HandleAll(HandleAll(m, log[..from], now), log[to..], now).tables.history;
      var complete := HandleAll(m, log, now).tables.history;
      var before := HandleAll(m, log[..from], now).tables.history;
      var id := m.tables.history[i].txId.value;
      && |resumed| == |complete| == |before| == |m.tables.history|
      && (resumed[i] == complete[i] <==>
           || LastStatus(log[to..], id).Some?
           || LastStatus(log[from..to], id).None?
           || LastStatus(log[from..to], id) == Some(before[i].status))
  {
    var id := m.tables.history[i].txId.value;
    BatchHistory(m, log[..from], now, i);
    BatchHistory(HandleAll(m, log[..from], now), log[to..], now, i);
    BatchHistory(m, log, now, i);
    assert log[..|log|] == log && log[to..|log|] == log[to..];
    LastStatusSplit(log, from, to, id);
    LastStatusSplit(log, to, |log|, id);
  }

  lemma {:induction false} EmptyHistory(m: Market, events: seq<LogEvent>, now: int)
    requires m.tables.history == []
    ensures HandleAll(m, events, now).tables.history == []
  {
    if events != [] {
      EmptyHistory(m, events[..|events| - 1], now);
      EventHistory(HandleAll(m, events[..|events| - 1], now), events[|events| - 1], now);
    }
  }
}
