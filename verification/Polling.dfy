/**
 The event poller: an offset-driven consumer of the canister's append-only log
 whose offset is persisted after each batch, which may fail to fetch, fail to
 persist, die inside a batch and come back from an older offset.
 */
module Polling {
  import opened Domain
  import opened EventHandling
  import opened EventServices

  datatype LogEvent = StatusChanged(txId: TxId, status: ReeStatus) | OtherEvent

  const BATCH_LIMIT: nat := 10

  // ---------- the effect of events on the market ----------

  function HandleEvent(m: Market, e: LogEvent, now: int): Market {
    match e
    case StatusChanged(txId, status) => HandleStatusChange(m, txId, status, now)
    case OtherEvent => m
  }

  function HandleAll(m: Market, events: seq<LogEvent>, now: int): Market {
    if events == [] then m
    else HandleEvent(HandleAll(m, events[..|events| - 1], now), events[|events| - 1], now)
  }

  // One turn of the endless loop on the market: the batch, then the offset.
  function RoundEffect(m: Market, batch: seq<LogEvent>, newOffset: nat, persistOk: bool, now: int): Market {
    var handled := HandleAll(m, batch, now);
    if batch != [] && persistOk
      then handled.(tables := handled.tables.(eventOffset := Some(newOffset))) else handled
  }

  /** The polling loop's state and one round of it. */
  class Poller {
    const events: EventService
    var lastEventOffset: nat

    // The offset is read once; without a stored one, or when the read fails, it is 0.
    constructor (events: EventService, loadOk: bool)
      ensures this.events == events
      ensures lastEventOffset == if loadOk then events.postgres.eventOffset.GetOr(0) else 0
    {
      this.events := events;
      lastEventOffset := if loadOk then events.postgres.eventOffset.GetOr(0) else 0;
    }

    // None when nothing was fetched; otherwise the offset after the batch.
    method PollOnce(fetched: Option<seq<LogEvent>>, now: int) returns (newOffset: Option<nat>)
      modifies events, events.postgres, events.redis
      ensures fetched.None? || fetched.value == [] ==>
        newOffset == None && events.Model() == old(events.Model())
      ensures fetched.Some? && fetched.value != [] ==>
        && newOffset == Some(lastEventOffset + |fetched.value|)
        && events.Model() == HandleAll(old(events.Model()), fetched.value, now)
    {
      if fetched.None? || fetched.value == [] {
        return None;
      }
      var batch := fetched.value;
      var offset := lastEventOffset;
      ghost var start := events.Model();
      var i := 0;
      while i < |batch|
        invariant 0 <= i <= |batch|
        invariant offset == lastEventOffset + i
        invariant events.Model() == HandleAll(start, batch[..i], now)
      {
        assert batch[..i + 1][..i] == batch[..i];
        offset := offset + 1;
        if batch[i].StatusChanged? {
          events.HandleStatusChange(batch[i].txId, batch[i].status, now);
        }
        i := i + 1;
      }
      assert batch[..i] == batch;
      newOffset := Some(offset);
    }

    // One turn of the endless loop: poll, then persist a larger offset.
    method Round(fetched: Option<seq<LogEvent>>, persistOk: bool, now: int)
      requires fetched.Some? ==> |fetched.value| <= BATCH_LIMIT
      modifies this`lastEventOffset, events, events.postgres, events.redis
      ensures lastEventOffset == old(lastEventOffset) + |fetched.GetOr([])|
      ensures events.Model() ==
        RoundEffect(old(events.Model()), fetched.GetOr([]), lastEventOffset, persistOk, now)
    {
      var newOffset := PollOnce(fetched, now);
      if newOffset.Some? && newOffset.value > lastEventOffset {
        lastEventOffset := newOffset.value;
        if persistOk {
          events.postgres.SetEventOffset(lastEventOffset);
        }
      }
    }
  }

  // ---------- the consumption protocol ----------

  // A process that is down remembers where handling stopped.
  datatype Process = Down(frontier: nat) | Idle(offset: nat) | InBatch(offset: nat, cursor: nat, end: nat)

  // `seen` is every index handled in the current life, in order; `high` is one
  // past the highest index handled in any life.
  datatype Consumer = Consumer(
    log: seq<LogEvent>,
    persisted: nat,
    process: Process,
    statuses: map<TxId, Status>,
    start: nat,
    seen: seq<nat>,
    everSeen: set<nat>,
    high: nat)

  datatype Turn =
    | Emit(e: LogEvent)
    | AddTrade(txId: TxId)
    | DropTrade(txId: TxId)
    | Fetch(count: nat)
    | FetchFails
    | HandleNext
    | Finish(persistOk: bool)
    | Crash
    | Restart(loadOk: bool)

  function ApplyStatus(statuses: map<TxId, Status>, e: LogEvent): map<TxId, Status> {
    if e.StatusChanged? && NewStatus(e.status).Some? && e.txId in statuses
      then statuses[e.txId := NewStatus(e.status).value] else statuses
  }

  ghost predicate Enabled(c: Consumer, t: Turn) {
    match t
    case Emit(e) => true
    // a record is stored before the canister can emit anything about it
    case AddTrade(txId) => txId !in c.statuses && LastStatus(c.log, txId).None?
    case DropTrade(txId) => true
    case Fetch(count) =>
      c.process.Idle? && 0 < count <= BATCH_LIMIT && c.process.offset + count <= |c.log|
    case FetchFails => c.process.Idle?
    case HandleNext => c.process.InBatch? && c.process.cursor < c.process.end
    case Finish(ok) => c.process.InBatch? && c.process.cursor == c.process.end
    case Crash => true
    case Restart(ok) => c.process.Down?
  }

  function LogAt(log: seq<LogEvent>, i: nat): LogEvent {
    if i < |log| then log[i] else OtherEvent
  }

  function Step(c: Consumer, t: Turn): Consumer
    requires Enabled(c, t)
  {
    match t
    case Emit(e) => c.(log := c.log + [e])
    case AddTrade(txId) => c.(statuses := c.statuses[txId := Pending])
    case DropTrade(txId) => c.(statuses := c.statuses - {txId})
    case Fetch(count) => c.(process := InBatch(c.process.offset, c.process.offset, c.process.offset + count))
    case FetchFails => c
    case HandleNext =>
      var i := c.process.cursor;
      c.(
        process := c.process.(cursor := i + 1),
        statuses := ApplyStatus(c.statuses, LogAt(c.log, i)),
        seen := c.seen + [i],
        everSeen := c.everSeen + {i},
        high := Max(c.high, i + 1))
    case Finish(ok) =>
      c.(process := Idle(c.process.end), persisted := if ok then c.process.end else c.persisted)
    case Crash => c.(process := Down(Position(c.process)))
    case Restart(ok) =>
      var offset := if ok then c.persisted else 0;
      c.(process := Idle(offset), start := offset, seen := [])
  }

  function Position(p: Process): nat {
    match p
    case Down(frontier) => frontier
    case Idle(offset) => offset
    case InBatch(offset, cursor, end) => cursor
  }

  // ---------- consumption invariants ----------

  ghost predicate ProcessInv(c: Consumer) {
    && c.persisted <= c.high <= |c.log|
    && (match c.process
        case Down(frontier) => frontier <= c.high
        case Idle(offset) => offset <= c.high
        case InBatch(offset, cursor, end) => offset <= cursor <= end <= |c.log| && cursor <= c.high)
  }

  ghost predicate CoverageInv(c: Consumer) {
    && (forall i :: 0 <= i < c.high ==> i in c.everSeen)
    && (forall i :: i in c.everSeen ==> 0 <= i < c.high)
  }

  // Within one life the handled indexes are consecutive from the start offset.
  ghost predicate LifeInv(c: Consumer) {
    !c.process.Down? ==>
      && c.start <= Position(c.process)
      && |c.seen| == Position(c.process) - c.start
      && forall k :: 0 <= k < |c.seen| ==> c.seen[k] == c.start + k
  }

  // The last status an event log assigns to a transaction.
  function LastStatus(log: seq<LogEvent>, txId: TxId): Option<Status> {
    if log == [] then None
    else
      var last := log[|log| - 1];
      if last.StatusChanged? && last.txId == txId && NewStatus(last.status).Some?
        then NewStatus(last.status) else LastStatus(log[..|log| - 1], txId)
  }

  lemma {:induction false} LastStatusConcat(a: seq<LogEvent>, b: seq<LogEvent>, txId: TxId)
    ensures LastStatus(a + b, txId) ==
      if LastStatus(b, txId).Some? then LastStatus(b, txId) else LastStatus(a, txId)
  {
    if b == [] {
      assert a + b == a;
    } else {
      assert (a + b)[..|a + b| - 1] == a + b[..|b| - 1];
      LastStatusConcat(a, b[..|b| - 1], txId);
    }
  }

  lemma LastStatusSplit(log: seq<LogEvent>, i: nat, j: nat, txId: TxId)
    requires i <= j <= |log|
    ensures LastStatus(log[..j], txId) ==
      if LastStatus(log[i..j], txId).Some? then LastStatus(log[i..j], txId) else LastStatus(log[..i], txId)
  {
    assert log[..j] == log[..i] + log[i..j];
    LastStatusConcat(log[..i], log[i..j], txId);
  }

  lemma LastStatusHead(log: seq<LogEvent>, i: nat, j: nat, txId: TxId)
    requires i < j <= |log|
    ensures LastStatus(log[i..j], txId) ==
      if LastStatus(log[i + 1..j], txId).Some? then LastStatus(log[i + 1..j], txId) else LastStatus([log[i]], txId)
  {
    assert log[i..j] == [log[i]] + log[i + 1..j];
    LastStatusConcat([log[i]], log[i + 1..j], txId);
  }

  // Either handling still has an event of the transaction ahead of it, or the
  // stored status is already the final one for everything handled so far.
  ghost predicate StatusInvAt(c: Consumer, from: nat, txId: TxId)
    requires from <= c.high <= |c.log| && txId in c.statuses
  {
    || LastStatus(c.log[from..c.high], txId).Some?
    || c.statuses[txId] == LastStatus(c.log[..c.high], txId).GetOr(Pending)
  }

  ghost predicate StatusInv(c: Consumer)
    requires ProcessInv(c)
  {
    forall txId :: txId in c.statuses ==> StatusInvAt(c, Position(c.process), txId)
  }

  // ---------- every turn keeps them ----------

  lemma ConsumptionStep(c: Consumer, t: Turn)
    requires ProcessInv(c) && CoverageInv(c) && LifeInv(c) && Enabled(c, t)
    ensures ProcessInv(Step(c, t)) && CoverageInv(Step(c, t)) && LifeInv(Step(c, t))
  {
  }

  // A restart never resumes past the point where handling had stopped.
  ghost predicate Smooth(c: Consumer, t: Turn) {
    t == Restart(true) && c.process.Down? ==> c.persisted <= c.process.frontier
  }

  lemma StatusStep(c: Consumer, t: Turn)
    requires ProcessInv(c) && StatusInv(c) && Enabled(c, t) && Smooth(c, t)
    ensures ProcessInv(Step(c, t)) && StatusInv(Step(c, t))
  {
    var c' := Step(c, t);
    forall txId | txId in c'.statuses ensures StatusInvAt(c', Position(c'.process), txId) {
      if t.AddTrade? && txId == t.txId {
        LastStatusSplit(c.log, c.high, |c.log|, txId);
        assert c.log[..|c.log|] == c.log;
      } else {
        assert StatusInvAt(c, Position(c.process), txId);
        match t
        case Emit(e) =>
          assert c'.log[..c.high] == c.log[..c.high];
          assert c'.log[Position(c.process)..c.high] == c.log[Position(c.process)..c.high];
        case HandleNext => HandledStatus(c, txId);
        case Restart(ok) => EarlierPoint(c, Position(c'.process), Position(c.process), txId);
        case _ =>
      }
    }
  }

  // Resuming earlier only puts more events ahead.
  lemma EarlierPoint(c: Consumer, earlier: nat, from: nat, txId: TxId)
    requires earlier <= from <= c.high <= |c.log| && txId in c.statuses && StatusInvAt(c, from, txId)
    ensures StatusInvAt(c, earlier, txId)
  {
    assert c.log[earlier..c.high] == c.log[earlier..from] + c.log[from..c.high];
    LastStatusConcat(c.log[earlier..from], c.log[from..c.high], txId);
  }

  lemma HandledStatus(c: Consumer, txId: TxId)
    requires ProcessInv(c) && Enabled(c, HandleNext) && txId in c.statuses
    requires StatusInvAt(c, c.process.cursor, txId)
    ensures
      var c' := Step(c, HandleNext);
      txId in c'.statuses && StatusInvAt(c', c.process.cursor + 1, txId)
  {
    var i := c.process.cursor;
    var c' := Step(c, HandleNext);
    assert LastStatus([c.log[i]], txId) ==
      (if c.log[i].StatusChanged? && c.log[i].txId == txId then NewStatus(c.log[i].status) else None)
    by {
      assert [c.log[i]][..0] == [];
    }
    LastStatusSplit(c.log, i, c'.high, txId);
    LastStatusHead(c.log, i, c'.high, txId);
    if i == c.high {
      assert c.log[i..c.high] == [];
      assert c'.high == i + 1 && c.log[i + 1..i + 1] == [];
    }
  }

  // ---------- runs of the protocol ----------

  ghost predicate Fresh(c: Consumer) {
    && c.log == [] && c.persisted == 0 && c.process == Down(0) && c.high == 0
    && c.everSeen == {} && c.statuses == map[] && c.seen == []
  }

  ghost predicate IsPolling(cs: seq<Consumer>, turns: seq<Turn>) {
    && |cs| == |turns| + 1 && Fresh(cs[0])
    && forall i :: 0 <= i < |turns| ==>
         Enabled(cs[i], turns[i]) && cs[i + 1] == Step(cs[i], turns[i])
  }

  lemma {:induction false} ConsumptionKept(cs: seq<Consumer>, turns: seq<Turn>, i: nat)
    requires IsPolling(cs, turns) && i < |cs|
    ensures ProcessInv(cs[i]) && CoverageInv(cs[i]) && LifeInv(cs[i])
  {
    if i > 0 {
      ConsumptionKept(cs, turns, i - 1);
      ConsumptionStep(cs[i - 1], turns[i - 1]);
    }
  }

  // Through fetch failures, persist failures and crashes, every index below
  // the stored offset, the in-memory offset or the place in the current batch
  // has been handled at least once; and in the current life the handled indexes
  // run on from the loaded offset without gap or repeat.
  lemma NothingIsSkipped(cs: seq<Consumer>, turns: seq<Turn>, i: nat, index: nat)
    requires IsPolling(cs, turns) && i < |cs|
    ensures index < cs[i].persisted ==> index in cs[i].everSeen
    ensures cs[i].process.Idle? || cs[i].process.InBatch? ==>
      cs[i].process.offset <= Position(cs[i].process)
    ensures index < Position(cs[i].process) ==> index in cs[i].everSeen
    ensures !cs[i].process.Down? && cs[i].start <= index < Position(cs[i].process) ==>
      |cs[i].seen| == Position(cs[i].process) - cs[i].start && cs[i].seen[index - cs[i].start] == index
  {
    ConsumptionKept(cs, turns, i);
  }

  lemma {:induction false} StoredIs(cs: seq<Consumer>, turns: seq<Turn>, i: nat, j: nat)
    requires IsPolling(cs, turns) && i <= j < |cs|
    requires forall k :: i <= k < j ==> turns[k] != Finish(true)
    ensures cs[j].persisted == cs[i].persisted
    decreases j
  {
    if i < j { StoredIs(cs, turns, i, j - 1); }
  }

  // A restart resumes at the end of the last batch whose offset was persisted,
  // at 0 when there is none or the stored offset cannot be read.
  lemma ResumesWhereStored(cs: seq<Consumer>, turns: seq<Turn>, i: nat, j: nat)
    requires IsPolling(cs, turns) && i <= j < |turns| && turns[j].Restart?
    requires forall k :: i < k < j ==> turns[k] != Finish(true)
    ensures turns[i] == Finish(true) ==>
      cs[i].process.InBatch? && cs[j + 1].process == Idle(if turns[j].loadOk then cs[i].process.end else 0)
    ensures i == 0 && turns[i] != Finish(true) ==> cs[j + 1].process == Idle(0)
  {
    if i < j { StoredIs(cs, turns, i + 1, j); }
    if i == 0 && turns[i] != Finish(true) { StoredIs(cs, turns, 0, j); }
  }

  lemma {:induction false} StatusesKept(cs: seq<Consumer>, turns: seq<Turn>, i: nat)
    requires IsPolling(cs, turns) && i < |cs|
    requires forall k :: 0 <= k < i ==> Smooth(cs[k], turns[k])
    ensures ProcessInv(cs[i]) && StatusInv(cs[i])
  {
    if i > 0 {
      StatusesKept(cs, turns, i - 1);
      StatusStep(cs[i - 1], turns[i - 1]);
    }
  }

  // Whenever the poller has caught up with everything ever handled, each
  // record has the status of its last event, whatever was replayed before.
  lemma StatusesConverge(cs: seq<Consumer>, turns: seq<Turn>, i: nat, txId: TxId)
    requires IsPolling(cs, turns) && i < |cs|
    requires forall k :: 0 <= k < i ==> Smooth(cs[k], turns[k])
    requires Position(cs[i].process) == cs[i].high && txId in cs[i].statuses
    ensures cs[i].high <= |cs[i].log|
    ensures cs[i].statuses[txId] == LastStatus(cs[i].log[..cs[i].high], txId).GetOr(Pending)
  {
    StatusesKept(cs, turns, i);
    assert StatusInvAt(cs[i], cs[i].high, txId);
    assert cs[i].log[cs[i].high..cs[i].high] == [];
  }

  // When the stored offset can always be read, every restart is smooth.
  lemma {:induction false} LoadedRestartsAreSmooth(cs: seq<Consumer>, turns: seq<Turn>, i: nat)
    requires IsPolling(cs, turns) && i < |cs|
    requires forall k :: 0 <= k < i ==> turns[k] != Restart(false)
    ensures cs[i].persisted <= Position(cs[i].process)
    ensures forall k :: 0 <= k < i ==> Smooth(cs[k], turns[k])
  {
    if i > 0 {
      LoadedRestartsAreSmooth(cs, turns, i - 1);
      ConsumptionKept(cs, turns, i - 1);
    }
  }
}
