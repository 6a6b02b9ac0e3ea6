/**
 A concrete run of the event poller that ends with an outdated status.
 */
module PollingExamples {
  import opened Domain
  import opened EventHandling
  import opened Polling

  const TX: TxId := "t"

  function Log(): seq<LogEvent> {
    [StatusChanged(TX, ReeFinalized), StatusChanged(TX, ReeConfirmed(1))]
  }

  lemma OneMore(cs: seq<Consumer>, turns: seq<Turn>, t: Turn) returns (cs': seq<Consumer>, turns': seq<Turn>)
    requires IsPolling(cs, turns) && Enabled(cs[|turns|], t)
    ensures IsPolling(cs', turns') && |turns'| == |turns| + 1 && turns' == turns + [t]
    ensures cs'[|turns'|] == Step(cs[|turns|], t)
  {
    cs', turns' := cs + [Step(cs[|turns|], t)], turns + [t];
    forall i | 0 <= i < |turns'| ensures Enabled(cs'[i], turns'[i]) && cs'[i + 1] == Step(cs'[i], turns'[i]) {
      if i < |turns| { assert cs'[i] == cs[i] && cs'[i + 1] == cs[i + 1] && turns'[i] == turns[i]; }
    }
  }

  function Start(): Consumer {
    Consumer([], 0, Down(0), map[], 0, [], {}, 0)
  }

  // One record, and two events about it in the log.
  lemma EmittedRun() returns (cs: seq<Consumer>, turns: seq<Turn>)
    ensures IsPolling(cs, turns) && |turns| == 3
    ensures cs[3] == Start().(log := Log(), statuses := map[TX := Pending])
  {
    assert IsPolling([Start()], []);
    var cs1, turns1 := OneMore([Start()], [], AddTrade(TX));
    var cs2, turns2 := OneMore(cs1, turns1, Emit(Log()[0]));
    cs, turns := OneMore(cs2, turns2, Emit(Log()[1]));
  }

  // Both handled and the offset stored.
  lemma HandledRun() returns (cs: seq<Consumer>, turns: seq<Turn>)
    ensures IsPolling(cs, turns) && |turns| == 9
    ensures cs[9] == Consumer(Log(), 2, Down(2), map[TX := Confirmed], 0, [0, 1], {0, 1}, 2)
  {
    var cs3, turns3 := EmittedRun();
    var cs4, turns4 := OneMore(cs3, turns3, Restart(true));
    var cs5, turns5 := OneMore(cs4, turns4, Fetch(2));
    var cs6, turns6 := OneMore(cs5, turns5, HandleNext);
    assert cs6[6] == Consumer(Log(), 0, InBatch(0, 1, 2), map[TX := Finalized], 0, [0], {0}, 1);
    var cs7, turns7 := OneMore(cs6, turns6, HandleNext);
    assert cs7[7] == Consumer(Log(), 0, InBatch(0, 2, 2), map[TX := Confirmed], 0, [0, 1], {0, 1}, 2);
    var cs8, turns8 := OneMore(cs7, turns7, Finish(true));
    cs, turns := OneMore(cs8, turns8, Crash);
  }

  // The stored offset cannot be read, the process dies inside the replay, and
  // the next one resumes from the stored offset: it has caught up, yet the
  // record keeps the status of an earlier event.
  lemma SkippedReplayLeavesOldStatus() returns (cs: seq<Consumer>, turns: seq<Turn>)
    ensures IsPolling(cs, turns) && |turns| == 14
    ensures turns[9..] == [Restart(false), Fetch(2), HandleNext, Crash, Restart(true)]
    ensures cs[14].process == Idle(2) && cs[14].high == 2 && cs[14].log == Log()
    ensures TX in cs[14].statuses && cs[14].statuses[TX] == Finalized
    ensures LastStatus(cs[14].log[..cs[14].high], TX) == Some(Confirmed)
  {
    var cs0, turns0 := HandledRun();
    var cs1, turns1 := OneMore(cs0, turns0, Restart(false));
    var cs2, turns2 := OneMore(cs1, turns1, Fetch(2));
    var cs3, turns3 := OneMore(cs2, turns2, HandleNext);
    var cs4, turns4 := OneMore(cs3, turns3, Crash);
    cs, turns := OneMore(cs4, turns4, Restart(true));
    assert Log()[..2] == Log();
  }
}
