/** Runs of the pipeline, step by step: a reorg that resets the state, a state root sync that
    meets a nil batch, and one whose check halts the node. */
module PipelineExample {
  import opened Wrappers
  import opened Pipeline
  import opened PipelineSafety

  datatype Action =
    | DoCloseBegin | DoCloseAdd | DoCloseSend | DoCloseEnd
    | DoNewBatch(root: Root) | DoSyncBegin | DoSyncProcessed | DoSyncEnd
    | DoReorgBegin | DoReorgProcessed | DoReorgStored | DoReorgClose | DoReorgReset
    | DoReceive | DoCheckFlag | DoExecute(end: Root) | DoFail | DoFlagReorg
    | DoForwardAdd | DoForwardSend | DoProcessDone
    | DoTake | DoStore | DoRelease

  ghost predicate Does(s: State, a: Action, s': State) {
    match a
    case DoCloseBegin => CloseBegin(s, s')
    case DoCloseAdd => CloseAdd(s, s')
    case DoCloseSend => CloseSend(s, s')
    case DoCloseEnd => CloseEnd(s, s')
    case DoNewBatch(root) => NewBatch(s, s', root)
    case DoSyncBegin => SyncBegin(s, s')
    case DoSyncProcessed => SyncProcessed(s, s')
    case DoSyncEnd => SyncEnd(s, s')
    case DoReorgBegin => ReorgBegin(s, s')
    case DoReorgProcessed => ReorgProcessed(s, s')
    case DoReorgStored => ReorgStored(s, s')
    case DoReorgClose => ReorgCloseSip(s, s', Commits)
    case DoReorgReset => ReorgReset(s, s')
    case DoReceive => Receive(s, s')
    case DoCheckFlag => CheckFlag(s, s')
    case DoExecute(end) => ExecuteOk(s, s', end)
    case DoFail => ExecuteFail(s, s')
    case DoFlagReorg => FlagReorg(s, s')
    case DoForwardAdd => ForwardAdd(s, s')
    case DoForwardSend => ForwardSend(s, s')
    case DoProcessDone => ProcessDone(s, s')
    case DoTake => TakeForStore(s, s')
    case DoStore => Store(s, s')
    case DoRelease => StoreReleased(s, s')
  }

  /** One more step of a run. */
  lemma Extend(run: seq<State>, a: Action, s: State)
    requires IsRun(run) && Does(run[|run| - 1], a, s)
    ensures IsRun(run + [s])
  {
    var all := run + [s];
    assert Next(run[|run| - 1], s);
    hide Next, InitState, DbOk, CanInit, Does;
    forall i: nat | i + 1 < |all| ensures StepAt(all, i) {
      if i + 1 < |run| { assert StepAt(run, i); }
    }
  }

  const GENESIS := DbBatch(0, 0, 0, false, [])
  const ROW := DbBatch(1, 0, 7, true, [StoredBlock(0, 1, 0, 7)])

  /** Nothing in flight, without and with a reorg flagged. */
  const QUIET := Control(Running, ProcIdle, StoreIdle, [], 0, [], 0, false, false)
  const FLAGGED := QUIET.(reorg := true, lastWasReorg := true)

  function Seen(executed: nat, stored: nat, failed: Option<nat>): History {
    History([], false, 0, executed, stored, failed)
  }

  const START := State(QUIET, Memory([Batch(1, 0, 0, 0)], [], None, None, 0), [GENESIS], Seen(0, 0, None))

  /** One block closed, then executed from root 0 to root 7, then stored. */
  const CLOSED := Memory([Batch(1, 0, 0, 1)], [L2Block(0, 0, 0, 0)], None, None, 1)
  const EXECUTED := Memory([Batch(1, 0, 7, 1)], [L2Block(0, 0, 0, 7)], Some(0), None, 1)
  const STORED := State(QUIET, EXECUTED.(sip := Some(0)), [GENESIS, ROW], Seen(1, 1, None))

  /** The memory after one more block is closed. */
  function OneMore(m: Memory): Memory
    requires m.heap != []
  {
    var wip := m.heap[m.Wip()];
    m.(heap := m.heap[m.Wip() := wip.(blocks := wip.blocks + 1)],
       blocks := m.blocks + [L2Block(m.counter, m.Wip(), 0, 0)],
       counter := m.counter + 1)
  }

  /** From between two blocks to the processor holding the one just closed. */
  lemma CloseAndReceive(run: seq<State>, s: State) returns (run': seq<State>)
    requires IsRun(run) && run[|run| - 1] == s && s.mem.heap != []
    requires s.ctl == QUIET || s.ctl == FLAGGED
    ensures IsRun(run')
    ensures run'[|run'| - 1]
         == s.(ctl := s.ctl.(fin := Closed, proc := Received(|s.mem.blocks|), toProcessWG := 1), mem := OneMore(s.mem))
  {
    hide IsRun;
    var c, m, b := s.ctl, OneMore(s.mem), |s.mem.blocks|;
    var s1 := s.(ctl := c.(fin := Closing), mem := s.mem.(heap := m.heap));
    Extend(run, DoCloseBegin, s1);
    var s2 := s.(ctl := c.(fin := Sending(b), toProcessWG := 1), mem := m);
    Extend(run + [s1], DoCloseAdd, s2);
    var s3 := s2.(ctl := c.(fin := Closed, toProcess := [b], toProcessWG := 1));
    Extend(run + [s1] + [s2], DoCloseSend, s3);
    var s4 := s2.(ctl := c.(fin := Closed, proc := Received(b), toProcessWG := 1));
    Extend(run + [s1] + [s2] + [s3], DoReceive, s4);
    run' := run + [s1] + [s2] + [s3] + [s4];
  }

  /** The processor discards the block it holds because a reorg is flagged. */
  lemma Flush(run: seq<State>, s: State) returns (run': seq<State>)
    requires IsRun(run) && run[|run| - 1] == s && s.ctl.proc.Received?
    requires s.ctl == FLAGGED.(fin := Closed, proc := s.ctl.proc, toProcessWG := 1)
    ensures IsRun(run') && run'[|run'| - 1] == s.(ctl := FLAGGED.(fin := Closed))
  {
    hide IsRun;
    var s1 := s.(ctl := FLAGGED.(fin := Closed, proc := ProcDone, toProcessWG := 1));
    Extend(run, DoCheckFlag, s1);
    var s2 := s.(ctl := FLAGGED.(fin := Closed));
    Extend(run + [s1], DoProcessDone, s2);
    run' := run + [s1] + [s2];
  }

  /** The processor starts on the block it holds. */
  lemma Accept(run: seq<State>, s: State, b: nat) returns (run': seq<State>)
    requires IsRun(run) && run[|run| - 1] == s && s.ctl == QUIET.(fin := Closed, proc := Received(b), toProcessWG := 1)
    ensures IsRun(run') && run'[|run'| - 1] == s.(ctl := QUIET.(fin := Closed, proc := Executing(b), toProcessWG := 1))
  {
    hide IsRun;
    var s1 := s.(ctl := QUIET.(fin := Closed, proc := Executing(b), toProcessWG := 1));
    Extend(run, DoCheckFlag, s1);
    run' := run + [s1];
  }

  /** The block the processor is on fails, and the reorg is flagged. */
  lemma Fail(run: seq<State>, s: State, b: nat) returns (run': seq<State>)
    requires IsRun(run) && run[|run| - 1] == s && b < |s.mem.blocks| && s.mem.blocks[b].batch < |s.mem.heap|
    requires s.mem.pip.Some? ==> s.mem.pip.value < |s.mem.heap|
    requires s.ctl == QUIET.(fin := s.ctl.fin, proc := Executing(b), toProcessWG := 1)
    ensures IsRun(run')
    ensures run'[|run'| - 1] == s.(ctl := FLAGGED.(fin := s.ctl.fin), mem := Propagate(s.mem, s.mem.blocks[b].batch),
                                   hist := s.hist.(failed := Some(b)))
  {
    hide IsRun, Propagate;
    var c := QUIET.(fin := s.ctl.fin, toProcessWG := 1);
    var s1 := s.(ctl := c.(proc := ProcPhase.Failed), mem := Propagate(s.mem, s.mem.blocks[b].batch),
                 hist := s.hist.(failed := Some(b)));
    Extend(run, DoFail, s1);
    var s2 := s1.(ctl := c.(proc := ProcDone, reorg := true, lastWasReorg := true));
    Extend(run + [s1], DoFlagReorg, s2);
    var s3 := s1.(ctl := FLAGGED.(fin := s.ctl.fin));
    Extend(run + [s1] + [s2], DoProcessDone, s3);
    run' := run + [s1] + [s2] + [s3];
  }

  /** The first block is executed and forwarded ... */
  lemma ExecuteAndForward(run: seq<State>) returns (run': seq<State>)
    requires IsRun(run)
    requires run[|run| - 1]
          == State(QUIET.(fin := Closed, proc := Executing(0), toProcessWG := 1), CLOSED, [GENESIS], Seen(0, 0, None))
    ensures IsRun(run')
    ensures run'[|run'| - 1]
         == State(QUIET.(fin := Closed, toStore := [0], toStoreWG := 1), EXECUTED, [GENESIS], Seen(1, 0, None))
  {
    hide IsRun;
    var c := QUIET.(fin := Closed, toProcessWG := 1);
    var s1 := State(c.(proc := WaitingStore(0)), EXECUTED, [GENESIS], Seen(1, 0, None));
    Extend(run, DoExecute(7), s1);
    var s2 := s1.(ctl := c.(proc := Forwarding(0), toStoreWG := 1));
    Extend(run + [s1], DoForwardAdd, s2);
    var s3 := s1.(ctl := c.(proc := ProcDone, toStore := [0], toStoreWG := 1));
    Extend(run + [s1] + [s2], DoForwardSend, s3);
    var s4 := s1.(ctl := QUIET.(fin := Closed, toStore := [0], toStoreWG := 1));
    Extend(run + [s1] + [s2] + [s3], DoProcessDone, s4);
    run' := run + [s1] + [s2] + [s3] + [s4];
  }

  /** ... and stored. */
  lemma StoreIt(run: seq<State>) returns (run': seq<State>)
    requires IsRun(run)
    requires run[|run| - 1]
          == State(QUIET.(fin := Closed, toStore := [0], toStoreWG := 1), EXECUTED, [GENESIS], Seen(1, 0, None))
    ensures IsRun(run') && run'[|run'| - 1] == STORED
  {
    hide IsRun;
    var c := QUIET.(fin := Closed, toStoreWG := 1);
    var s1 := State(c.(sto := Storing(0)), EXECUTED, [GENESIS], Seen(1, 0, None));
    Extend(run, DoTake, s1);
    var s2 := STORED.(ctl := c.(sto := StoreDone));
    assert [] + ROW.blocks == ROW.blocks;
    assert InsertBatch([GENESIS], 1, 0) == [GENESIS, DbBatch(1, 0, 0, true, [])];
    assert StoreWrites(EXECUTED, [GENESIS], EXECUTED.blocks[0]) == [GENESIS, ROW];
    Extend(run + [s1], DoStore, s2);
    var s3 := STORED.(ctl := QUIET.(fin := Closed));
    Extend(run + [s1] + [s2], DoRelease, s3);
    Extend(run + [s1] + [s2] + [s3], DoCloseEnd, STORED);
    run' := run + [s1] + [s2] + [s3] + [STORED];
  }

  lemma FirstBlockStored() returns (run: seq<State>)
    ensures IsRun(run) && run[|run| - 1] == STORED
  {
    StartIsRun();
    hide IsRun;
    run := CloseAndAccept([START], START);
    assert OneMore(START.mem) == CLOSED;
    run := ExecuteAndForward(run);
    run := StoreIt(run);
  }

  /** From between two blocks to the processor being on the one just closed. */
  lemma CloseAndAccept(run: seq<State>, s: State) returns (run': seq<State>)
    requires IsRun(run) && run[|run| - 1] == s && s.mem.heap != [] && s.ctl == QUIET
    ensures IsRun(run')
    ensures run'[|run'| - 1]
         == s.(ctl := QUIET.(fin := Closed, proc := Executing(|s.mem.blocks|), toProcessWG := 1), mem := OneMore(s.mem))
  {
    hide OneMore;
    run' := CloseAndReceive(run, s);
    run' := Accept(run', run'[|run'| - 1], |s.mem.blocks|);
  }

  lemma StartIsRun()
    ensures IsRun([START])
  {
    assert [GENESIS][..0] == [] && Flat([GENESIS]) == [];
  }

  /** The finalizer handles the reorg up to the reset. */
  lemma Reset(run: seq<State>, s: State) returns (run': seq<State>)
    requires IsRun(run) && run[|run| - 1] == s && s.ctl == FLAGGED.(fin := Closed)
    requires s.mem.heap != [] && s.mem.sip == Some(s.mem.Wip()) && CanInit(s.db)
    ensures IsRun(run') && |run'| >= 2 && ReorgReset(run'[|run'| - 2], run'[|run'| - 1])
    ensures run'[|run'| - 2].hist == s.hist
  {
    hide IsRun, InitState, Flat;
    var s0 := s.(ctl := FLAGGED);
    Extend(run, DoCloseEnd, s0);
    var s1 := s.(ctl := FLAGGED.(fin := ReorgProcess));
    Extend(run + [s0], DoReorgBegin, s1);
    var s2 := s.(ctl := FLAGGED.(fin := ReorgStore));
    Extend(run + [s0] + [s1], DoReorgProcessed, s2);
    var s3 := s.(ctl := FLAGGED.(fin := ReorgClose));
    Extend(run + [s0] + [s1] + [s2], DoReorgStored, s3);
    var s4 := s.(ctl := FLAGGED.(fin := ReorgInit));
    Extend(run + [s0] + [s1] + [s2] + [s3], DoReorgClose, s4);
    var s5 := InitState(s4.db, s4.mem.counter, true);
    Extend(run + [s0] + [s1] + [s2] + [s3] + [s4], DoReorgReset, s5);
    run' := run + [s0] + [s1] + [s2] + [s3] + [s4] + [s5];
  }

  /** From a database with only the genesis batch one L2 block is stored, the next one fails,
      and the reorg handling resets the state with the first one in the store. */
  lemma ReorgIsReachable() returns (run: seq<State>, i: nat)
    ensures IsRun(run) && i + 1 < |run| && ReorgReset(run[i], run[i + 1])
    ensures run[i].hist.failed == Some(1) && run[i].hist.stored == 1
  {
    run := FirstBlockStored();
    run := CloseAndAccept(run, STORED);
    run := Fail(run, run[|run| - 1], 1);
    run := Reset(run, run[|run| - 1]);
    i := |run| - 2;
  }

  lemma StartDb(db: seq<DbBatch>, counter: nat)
    requires CanInit(db)
    ensures InitState(db, counter, true).db == db
  {
  }

  /** The finalizer handles a reorg with a sip batch that is not the wip batch. */
  lemma CloseAndReset(run: seq<State>, s: State) returns (run': seq<State>)
    requires IsRun(run) && run[|run| - 1] == s && s.ctl == FLAGGED && SipInHeap(s.mem) && s.mem.sip.Some?
    requires s.mem.heap[s.mem.sip.value].number != s.mem.heap[s.mem.Wip()].number
    requires s.mem.heap[s.mem.sip.value].blocks > 0 && s.db != [] && CanInit(CloseLast(s.db))
    ensures IsRun(run') && |run'| >= 2 && ReorgReset(run'[|run'| - 2], run'[|run'| - 1])
    ensures run'[|run'| - 2].hist == s.hist && run'[|run'| - 2].mem == s.mem.(sip := None)
    ensures run'[|run'| - 1].db == CloseLast(s.db)
  {
    hide IsRun, InitState, Flat, CloseLast;
    var s1 := s.(ctl := FLAGGED.(fin := ReorgProcess));
    Extend(run, DoReorgBegin, s1);
    var s2 := s.(ctl := FLAGGED.(fin := ReorgStore));
    Extend(run + [s1], DoReorgProcessed, s2);
    var s3 := s.(ctl := FLAGGED.(fin := ReorgClose));
    Extend(run + [s1] + [s2], DoReorgStored, s3);
    var s4 := s.(ctl := FLAGGED.(fin := ReorgInit), mem := s.mem.(sip := None), db := CloseLast(s.db));
    Extend(run + [s1] + [s2] + [s3], DoReorgClose, s4);
    var s5 := InitState(s4.db, s4.mem.counter, true);
    StartDb(s4.db, s4.mem.counter);
    Extend(run + [s1] + [s2] + [s3] + [s4], DoReorgReset, s5);
    run' := run + [s1] + [s2] + [s3] + [s4] + [s5];
  }

  /** The second block of batch 1 fails when batch 2 is already the wip batch: batch 1 is closed
      without it, and the node goes on with batch 2. */
  lemma EarlyCloseIsReachable() returns (run: seq<State>, i: nat)
    ensures IsRun(run) && i + 1 < |run| && ReorgReset(run[i], run[i + 1])
    ensures var s, s' := run[i], run[i + 1];
      && s.hist.failed == Some(1) && |s.mem.blocks| == 2 && s.mem.blocks[1].batch == 0 && |s.mem.heap| == 2
      && s.mem.heap[0].number == 1
      && s'.db == [GENESIS, ROW.(open := false)] && |s'.mem.heap| == 1 && s'.mem.heap[0].number == 2
  {
    run := FirstBlockStored();
    run := CloseAndAccept(run, STORED);
    var s := run[|run| - 1];
    var s1 := s.(ctl := s.ctl.(fin := Running));
    Extend(run, DoCloseEnd, s1);
    var s2 := s1.(mem := s1.mem.(heap := s1.mem.heap + [Batch(2, 7, 7, 0)]));
    Extend(run + [s1], DoNewBatch(7), s2);
    hide IsRun;
    run := Fail(run + [s1] + [s2], s2, 1);
    assert Propagate(s2.mem, 0) == s2.mem;
    assert CloseLast([GENESIS, ROW]) == [GENESIS, ROW.(open := false)];
    run := CloseAndReset(run, run[|run| - 1]);
    i := |run| - 2;
  }

  /** The finalizer comes to the check of the state root sync. */
  lemma Sync(run: seq<State>, s: State) returns (run': seq<State>)
    requires IsRun(run) && run[|run| - 1] == s && s.ctl == FLAGGED.(fin := Closed)
    ensures IsRun(run') && run'[|run'| - 1] == s.(ctl := FLAGGED.(fin := SyncStore))
  {
    hide IsRun;
    var s1 := s.(ctl := FLAGGED.(fin := SyncProcess));
    Extend(run, DoSyncBegin, s1);
    var s2 := s.(ctl := FLAGGED.(fin := SyncStore));
    Extend(run + [s1], DoSyncProcessed, s2);
    run' := run + [s1] + [s2];
  }

  /** The very first L2 block fails, and the sync that follows it looks at a nil sip batch. */
  lemma NilSipIsReachable() returns (run: seq<State>)
    ensures IsRun(run)
    ensures var s := run[|run| - 1];
      s.ctl.fin.SyncStore? && s.ctl.toStoreWG == 0 && s.mem.sip.None?
  {
    StartIsRun();
    run := CloseAndAccept([START], START);
    run := Fail(run, run[|run| - 1], 0);
    run := Sync(run, run[|run| - 1]);
  }

  /** The second block is the first of a second batch and fails. */
  const SECOND := Memory([Batch(1, 0, 7, 1), Batch(2, 7, 7, 1)], [L2Block(0, 0, 0, 7), L2Block(1, 1, 0, 0)],
                         Some(1), Some(0), 2)

  lemma SecondBatchFails() returns (run: seq<State>)
    ensures IsRun(run)
    ensures run[|run| - 1] == State(FLAGGED.(fin := Closed), SECOND, [GENESIS, ROW], Seen(1, 1, Some(1)))
  {
    run := FirstBlockStored();
    var s := STORED.(mem := STORED.mem.(heap := STORED.mem.heap + [Batch(2, 7, 7, 0)]));
    Extend(run, DoNewBatch(7), s);
    hide IsRun;
    run := CloseAndAccept(run + [s], s);
    var m := SECOND.(pip := Some(0));
    assert OneMore(s.mem) == m;
    run := Fail(run, s.(ctl := QUIET.(fin := Closed, proc := Executing(1), toProcessWG := 1), mem := m), 1);
    assert Propagate(m, 1) == SECOND;
  }

  /** With the reorg flagged the finalizer closes one more block, which is discarded. */
  lemma CloseAndFlush(run: seq<State>, s: State) returns (run': seq<State>)
    requires IsRun(run) && run[|run| - 1] == s && s.ctl == FLAGGED.(fin := Closed) && s.mem.heap != []
    ensures IsRun(run') && run'[|run'| - 1] == s.(mem := OneMore(s.mem))
  {
    var s1 := s.(ctl := FLAGGED);
    Extend(run, DoCloseEnd, s1);
    hide OneMore;
    run' := CloseAndReceive(run + [s1], s1);
    run' := Flush(run', run'[|run'| - 1]);
  }

  /** Before the finalizer looks at the flag it closes two more blocks of the second batch, and
      the check of the sync after the last one halts the node. */
  lemma HaltIsReachable() returns (run: seq<State>)
    ensures IsRun(run) && run[|run| - 1].ctl.fin.FinHalted?
    ensures |run| >= 2 && SyncEnd(run[|run| - 2], run[|run| - 1])
  {
    run := SecondBatchFails();
    run := CloseAndFlush(run, run[|run| - 1]);
    run := CloseAndFlush(run, run[|run| - 1]);
    run := Sync(run, run[|run| - 1]);
    var s := run[|run| - 1].(ctl := FLAGGED.(fin := FinHalted));
    Extend(run, DoSyncEnd, s);
    run := run + [s];
  }
}
