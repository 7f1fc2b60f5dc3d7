/** The properties of the pipeline, for every run. */
module PipelineTheorems {
  import opened Wrappers
  import opened Pipeline
  import opened PipelineSafety

  // ---- reorgs ----

  /** The step does not start a new period: no reorg reset and no restart. */
  ghost predicate SamePeriod(run: seq<State>, i: nat)
    requires i + 1 < |run|
  {
    || (FinalizerStep(run[i], run[i + 1]) && !ReorgReset(run[i], run[i + 1]))
    || ProcessorStep(run[i], run[i + 1])
    || StorerStep(run[i], run[i + 1])
  }

  lemma FinalizerAfterFailure(s: State, s': State)
    requires s.mem.heap != [] && FinalizerStep(s, s') && !ReorgReset(s, s')
    ensures s'.hist == s.hist && s.mem.blocks <= s'.mem.blocks
    ensures s'.mem.heap != [] && s'.mem.heap[0].number == s.mem.heap[0].number
  {
  }

  lemma OthersAfterFailure(s: State, s': State)
    requires !s.ctl.proc.Executing? && (ProcessorStep(s, s') || StorerStep(s, s'))
    ensures s'.hist == s.hist.(stored := s'.hist.stored)
    ensures s'.mem.heap == s.mem.heap && s'.mem.blocks == s.mem.blocks
  {
  }

  /** What a failed block leaves: everything before it executed, nothing from it on. */
  ghost predicate Frozen(s: State) {
    && s.hist.failed.Some? && !s.ctl.proc.Executing? && s.mem.heap != []
    && s.hist.stored <= s.hist.executed == s.hist.failed.value < |s.mem.blocks|
    && Flat(s.db) == s.hist.base + Rows(s.mem.heap[0].number, s.mem.blocks[..s.hist.stored])
  }

  lemma FailedIsFrozen(run: seq<State>, i: nat)
    requires IsRun(run) && i < |run| && run[i].hist.failed.Some?
    ensures Frozen(run[i])
  {
    RunKeeps(run, i);
  }

  lemma StepKeepsFrozen(run: seq<State>, k: nat)
    requires IsRun(run) && k + 1 < |run| && Frozen(run[k]) && SamePeriod(run, k)
    ensures run[k + 1].hist == run[k].hist.(stored := run[k + 1].hist.stored)
    ensures Frozen(run[k + 1]) && run[k].mem.blocks <= run[k + 1].mem.blocks
    ensures run[k + 1].mem.heap[0].number == run[k].mem.heap[0].number
  {
    if ProcessorStep(run[k], run[k + 1]) || StorerStep(run[k], run[k + 1]) {
      OthersAfterFailure(run[k], run[k + 1]);
    } else {
      FinalizerAfterFailure(run[k], run[k + 1]);
    }
    FailedIsFrozen(run, k + 1);
  }

  /** Once an L2 block has failed, until the reorg handling resets the state no block is
      executed any more, and only blocks closed before the failing one get stored,
      whatever the finalizer still closes and however the goroutines interleave. */
  lemma {:induction false} FailureFreezes(run: seq<State>, i: nat, k: nat)
    requires IsRun(run) && i <= k < |run| && run[i].hist.failed.Some?
    requires forall t: nat | i <= t < k :: SamePeriod(run, t)
    ensures run[k].hist == run[i].hist.(stored := run[k].hist.stored)
    ensures Frozen(run[i]) && Frozen(run[k]) && run[i].mem.blocks <= run[k].mem.blocks
    ensures run[i].mem.heap[0].number == run[k].mem.heap[0].number
    ensures Flat(run[k].db) ==
            run[i].hist.base + Rows(run[i].mem.heap[0].number, run[i].mem.blocks[..run[k].hist.stored])
    decreases k
  {
    hide IsRun, SamePeriod, Flat, Rows;
    FailedIsFrozen(run, i);
    if i < k {
      FailureFreezes(run, i, k - 1);
      assert SamePeriod(run, k - 1);
      StepKeepsFrozen(run, k - 1);
      assert run[k].mem.blocks[..run[k].hist.stored] == run[i].mem.blocks[..run[k].hist.stored];
    }
  }

  /** The reorg handling closes the sip batch exactly when the block before the failing one is of
      an earlier batch than the wip one. If the database refuses, nothing changes and the handling
      is started again; a batch without blocks never halts it. */
  lemma ReorgCloseIsExact(run: seq<State>, i: nat, outcome: DbOutcome)
    requires IsRun(run) && i + 1 < |run| && ReorgCloseSip(run[i], run[i + 1], outcome)
    ensures var s, s' := run[i], run[i + 1];
            && s.hist.failed.Some? && s.hist.failed.value < |s.mem.blocks| && s'.db != []
            && s'.mem.blocks == s.mem.blocks && s'.mem.heap == s.mem.heap && s'.hist == s.hist
            && var before := BatchBefore(s.mem.blocks, s.hist.failed.value, s.hist.baseOpen);
            && (s'.ctl.fin.ReorgInit? ==> (Last(s'.db).open <==> before == s.mem.Wip()))
            && (s'.ctl.fin.Running? <==> outcome == CloseFails && 0 <= before < s.mem.Wip())
            && (s'.ctl.fin.Running? ==> s' == s.(ctl := s.ctl.(fin := Running)) && s'.ctl.reorg)
            && (s'.ctl.fin.Running? || s'.ctl.fin.ReorgInit?)
  {
    RunKeeps(run, i);
    var s := run[i];
    SipHasBlocks(s);
    hide DbOk, Flat, BlockChain, BatchStarts, Rows, Roots, Numbering, IsRun;
    assert s.hist.stored == s.hist.executed == s.hist.failed.value;
    if s.mem.sip.Some? { SameNumber(s.mem.heap, s.mem.Wip(), s.mem.sip.value); }
  }

  /** With both wait groups at zero the processor and the storer cannot move. */
  lemma NobodyMoves(s: State, s': State)
    requires Flow(s.ctl) && s.ctl.toProcessWG == 0 && s.ctl.toStoreWG == 0
    ensures !ProcessorStep(s, s') && !StorerStep(s, s')
  {
  }

  /** Of the steps of the finalizer only closing the sip batch leads to the reset. */
  lemma OnlyCloseLeadsToReset(s: State, s': State)
    requires FinalizerStep(s, s') && s'.ctl.fin.ReorgInit?
    ensures exists outcome :: ReorgCloseSip(s, s', outcome)
  {
    hide Flat, CloseLast, SyncCheckFails;
  }

  /** The reset follows the closing of the sip batch at once. */
  lemma ResetFollowsClose(run: seq<State>, i: nat) returns (outcome: DbOutcome)
    requires IsRun(run) && i < |run| && run[i].ctl.fin.ReorgInit?
    ensures i > 0 && ReorgCloseSip(run[i - 1], run[i], outcome)
  {
    assert i > 0;
    assert StepAt(run, i - 1);
    RunKeeps(run, i - 1);
    var s, s' := run[i - 1], run[i];
    hide IsRun, DbOk, Roots, Numbering, Store', Sip, Storage, Processing, HeapOk;
    hide FinalizerStep, ProcessorStep, StorerStep;
    assert !ProcessorStep(s, s') by {
      if ProcessorStep(s, s') { ProcessorWorks(s, s'); NobodyMoves(s, s'); }
    }
    assert !StorerStep(s, s') by {
      if StorerStep(s, s') { StorerWorks(s, s'); NobodyMoves(s, s'); }
    }
    OnlyCloseLeadsToReset(s, s');
    outcome :| ReorgCloseSip(s, s', outcome);
  }

  /** What is in the store when the state is about to be reset. */
  lemma StoredAtReset(run: seq<State>, i: nat)
    requires IsRun(run) && i < |run| && run[i].ctl.fin.ReorgInit?
    ensures var s := run[i];
            && s.hist.failed.Some? && s.hist.failed.value < |s.mem.blocks| && s.mem.heap != [] && CanInit(s.db)
            && Flat(s.db) == s.hist.base + Rows(s.mem.heap[0].number, s.mem.blocks[..s.hist.failed.value])
            && Last(s.db).number
               == s.mem.heap[0].number + BatchBefore(s.mem.blocks, s.hist.failed.value, s.hist.baseOpen)
            && Last(s.db).root == RootAfter(s.mem.blocks, s.hist.failed.value, s.hist.baseRoot)
  {
    RunKeeps(run, i);
    var s := run[i];
    InitKeeps(s.db, 0, false);
    hide DbOk, Flat, Rows, Roots, Numbering, IsRun, InitState, Sip;
    assert s.hist.stored == s.hist.executed;
  }

  /** When the reorg handling resets the state, the store holds exactly what it held before this
      period plus the blocks closed before the failing one, in order. It goes on with the wip batch
      if it holds one of them, and with the batch after the last of them otherwise, from the root
      of the last of them. */
  lemma ResetIsExact(run: seq<State>, i: nat)
    requires IsRun(run) && i + 1 < |run| && ReorgReset(run[i], run[i + 1])
    ensures var s, s' := run[i], run[i + 1];
            && s.hist.failed.Some? && s.hist.failed.value < |s.mem.blocks| && s.mem.heap != [] && s'.db != []
            && Flat(s'.db) == s.hist.base + Rows(s.mem.heap[0].number, s.mem.blocks[..s.hist.failed.value])
            && var before := BatchBefore(s.mem.blocks, s.hist.failed.value, s.hist.baseOpen);
            && (Last(s'.db).open <==> before == s.mem.Wip())
            && |s'.mem.heap| == 1 && s'.mem.blocks == [] && !s'.ctl.reorg
            && s'.mem.heap[0].number == s.mem.heap[0].number + (if before == s.mem.Wip() then before else before + 1)
            && s'.mem.heap[0].finalRoot == RootAfter(s.mem.blocks, s.hist.failed.value, s.hist.baseRoot)
  {
    StoredAtReset(run, i);
    var outcome := ResetFollowsClose(run, i);
    ReorgCloseIsExact(run, i - 1, outcome);
    hide Flat, Rows, IsRun, ReorgCloseSip, BatchBefore, RootAfter;
  }

  /** So it goes on with the batch of the failing block, unless that is not the first of its batch
      and the wip batch is a later one. */
  lemma ResetsToFailingBatch(run: seq<State>, i: nat)
    requires IsRun(run) && i + 1 < |run| && ReorgReset(run[i], run[i + 1])
    ensures var s, s' := run[i], run[i + 1];
            && s.hist.failed.Some? && s.hist.failed.value < |s.mem.blocks| && |s'.mem.heap| == 1
            && var b := s.mem.blocks[s.hist.failed.value].batch;
            && b < |s.mem.heap|
            && (s'.mem.heap[0].number == s.mem.heap[b].number <==>
                  b == s.mem.Wip() || b > BatchBefore(s.mem.blocks, s.hist.failed.value, s.hist.baseOpen))
  {
    ResetIsExact(run, i);
    RunKeeps(run, i);
    hide DbOk, Flat, BlockChain, BatchStarts, Rows, Roots, IsRun, ReorgReset, Store', Sip;
    var s := run[i];
    var b := s.mem.blocks[s.hist.failed.value].batch;
    assert s.mem.heap[b].number == s.mem.heap[0].number + b;
  }

  /** A start loads what the store holds: an open last batch is gone on with, as it was when its
      last block was stored, and a closed one is followed by a new one. */
  lemma StartLoads(db: seq<DbBatch>, counter: nat, lastWasReorg: bool)
    requires DbOk(db)
    ensures CanInit(db)
    ensures var s, last := InitState(db, counter, lastWasReorg), Last(db);
            && s.db == db && s.mem.blocks == [] && s.mem.counter == counter && s.mem.pip == s.mem.sip
            && s.ctl == Control(Running, ProcIdle, StoreIdle, [], 0, [], 0, false, lastWasReorg)
            && s.mem.heap == [if last.open
                              then Batch(last.number, last.initialRoot, EndRoot(last.blocks, last.initialRoot),
                                         |last.blocks|)
                              else Batch(last.number + 1, last.root, last.root, 0)]
            && s.mem.sip == if last.open then Some(0) else None
  {
  }

  /** When the node halts on a batch number, the sip batch is closed and the store holds
      exactly every block closed, up to a failing one. */
  lemma HaltIsExact(run: seq<State>, i: nat)
    requires IsRun(run) && i + 1 < |run| && HaltCloseSip(run[i], run[i + 1], Commits) && run[i].mem.sip.Some?
    ensures var s, s' := run[i], run[i + 1];
            var n := if s.hist.failed.Some? then s.hist.failed.value else |s.mem.blocks|;
            && s.mem.heap != [] && n <= |s.mem.blocks|
            && s'.db != [] && !Last(s'.db).open
            && Flat(s'.db) == s.hist.base + Rows(s.mem.heap[0].number, s.mem.blocks[..n])
  {
    hide DbOk, Flat, BlockChain, BatchStarts, Rows, Roots, Numbering, IsRun;
    RunKeeps(run, i);
    SipHasBlocks(run[i]);
    DbClose(run[i].db);
    assert run[i].hist.stored == run[i].hist.executed;
  }

  // ---- the store ----

  lemma {:induction false} FlatChains(db: seq<DbBatch>)
    requires DbOk(db)
    ensures Chained(Flat(db[1..]), db[0].root) && EndRoot(Flat(db[1..]), db[0].root) == Last(db).root
    decreases |db|
  {
    if |db| > 1 {
      var prev := db[..|db| - 1];
      assert forall i | 0 < i < |prev| :: BatchOk(prev[i]) by {
        forall i | 0 < i < |prev| ensures BatchOk(prev[i]) { assert BatchOk(db[i]); }
      }
      FlatChains(prev);
      assert db[1..][..|db| - 2] == prev[1..];
      var last := db[|db| - 1];
      assert BatchOk(last) && last.initialRoot == db[|db| - 2].root;
      ChainsJoin(Flat(prev[1..]), last.blocks, db[0].root);
    }
  }

  lemma {:induction false} ChainsJoin(a: seq<StoredBlock>, b: seq<StoredBlock>, start: Root)
    requires Chained(a, start) && Chained(b, EndRoot(a, start))
    ensures Chained(a + b, start) && EndRoot(a + b, start) == EndRoot(b, EndRoot(a, start))
  {
    var c := a + b;
    forall i | 0 < i < |c| ensures c[i].start == c[i - 1].end {
      if i == |a| { assert c[i] == b[0]; }
      else if i > |a| { assert c[i] == b[i - |a|] && c[i - 1] == b[i - |a| - 1]; }
    }
  }

  /** In every state of every run, through reorgs and restarts: the stored blocks form one
      chain, each executed from the root its predecessor produced, also across batches;
      batches carry consecutive numbers, each starts from the final root of the one
      before it, and at most the last one is open. */
  lemma StoreIsOneChain(run: seq<State>, i: nat)
    requires IsRun(run) && i < |run|
    ensures var db := run[i].db;
            && DbOk(db)
            && Chained(Flat(db[1..]), db[0].root) && EndRoot(Flat(db[1..]), db[0].root) == Last(db).root
  {
    RunKeeps(run, i);
    FlatChains(run[i].db);
  }

  // ---- the gates ----

  /** The finalizer is about to make the check of the state root sync. */
  ghost predicate AtSync(s: State) {
    s.ctl.fin.SyncStore? && s.ctl.toStoreWG == 0
  }

  /** Every L2 block up to a failing one is stored at the sync, and all of them without one. */
  lemma StoredAtSync(run: seq<State>, i: nat)
    requires IsRun(run) && i < |run| && AtSync(run[i])
    ensures Inv(run[i]) && run[i].hist.stored == run[i].hist.executed
    ensures run[i].ctl.reorg || run[i].ctl.proc.ProcHalted? <==> run[i].hist.failed.Some?
    ensures run[i].hist.executed
         == if run[i].hist.failed.Some? then run[i].hist.failed.value else |run[i].mem.blocks|
  {
    RunKeeps(run, i);
  }

  /** At the state root sync the sip batch is nil, so that looking at it ends the process,
      exactly when nothing was stored since a start without an open batch. Only a reorg leads
      there. */
  lemma SyncMeetsNil(run: seq<State>, i: nat)
    requires IsRun(run) && i < |run| && AtSync(run[i])
    ensures var s := run[i];
      && (s.mem.sip.None? <==> s.hist.stored == 0 && !s.hist.baseOpen)
      && (s.mem.sip.None? ==> s.ctl.reorg)
  {
    StoredAtSync(run, i);
    hide DbOk, Flat, BlockChain, BatchStarts, Rows, Roots, Numbering;
  }

  /** The check halts the node exactly when a reorg is flagged, the wip batch has more than
      two L2 blocks, and the block before the failing one is of an earlier batch. */
  lemma SyncCheckIsExact(run: seq<State>, i: nat)
    requires IsRun(run) && i < |run| && AtSync(run[i]) && run[i].mem.sip.Some?
    ensures var s := run[i];
      && SipInHeap(s.mem)
      && (s.ctl.reorg ==> s.hist.failed.Some? && s.hist.failed.value <= |s.mem.blocks|)
      && (SyncCheckFails(s) <==>
            && s.ctl.reorg && s.mem.heap[s.mem.Wip()].blocks > 2
            && BatchBefore(s.mem.blocks, s.hist.failed.value, s.hist.baseOpen) < s.mem.Wip())
  {
    StoredAtSync(run, i);
    var s := run[i];
    hide DbOk, Flat, BlockChain, BatchStarts, Rows, Roots, Numbering;
    SameNumber(s.mem.heap, s.mem.Wip(), s.mem.sip.value);
  }

  /** So much for the check; the step that makes it halts the finalizer or lets it go on. */
  lemma SyncEndIsExact(run: seq<State>, i: nat)
    requires IsRun(run) && i + 1 < |run| && SyncEnd(run[i], run[i + 1])
    ensures var s := run[i];
      && s.mem.heap != [] && (s.ctl.reorg ==> s.hist.failed.Some? && s.hist.failed.value <= |s.mem.blocks|)
      && run[i + 1] == s.(ctl := s.ctl.(
           fin := if s.ctl.reorg && s.mem.heap[s.mem.Wip()].blocks > 2
                     && BatchBefore(s.mem.blocks, s.hist.failed.value, s.hist.baseOpen) < s.mem.Wip()
                  then FinHalted else Running))
  {
    SyncCheckIsExact(run, i);
    hide IsRun, SyncCheckFails, BatchBefore;
  }

  /** Without a reorg flagged the sip batch is the wip batch and the root the finalizer
      continues from is the root in the store. */
  lemma SyncFindsItsBatch(run: seq<State>, i: nat)
    requires IsRun(run) && i < |run| && AtSync(run[i]) && !run[i].ctl.reorg
    ensures var s := run[i];
            && s.db != [] && SipInHeap(s.mem) && s.mem.sip == Some(|s.mem.heap| - 1) && !SyncCheckFails(s)
            && s.mem.heap[s.mem.Wip()].finalRoot == Last(s.db).root
  {
    hide DbOk, Flat, BlockChain, BatchStarts, Rows, IsRun;
    RunKeeps(run, i);
    var s := run[i];
    assert s.hist.failed.None? && s.hist.stored == s.hist.executed == |s.mem.blocks|;
    hide Flow, Processing, Storage, HeapOk, Numbering;
    assert s.mem.pip.Some?;
  }

  /** Whoever waits for a wait group is served: as long as the processor has not halted,
      a block in processing leaves the processor or the storer able to move, and a
      block in storing leaves the storer able to move. */
  lemma WaitersAreServed(run: seq<State>, i: nat)
    requires IsRun(run) && i < |run| && !run[i].ctl.proc.ProcHalted?
    ensures run[i].ctl.toStoreWG > 0 && !run[i].ctl.proc.Forwarding? ==> exists s' :: StorerStep(run[i], s')
    ensures run[i].ctl.toProcessWG > 0 && !run[i].ctl.fin.Sending? ==>
              exists s' :: ProcessorStep(run[i], s') || StorerStep(run[i], s')
    ensures run[i].ctl.fin.Sending? ==> exists s' :: CloseSend(run[i], s')
  {
    RunKeeps(run, i);
    var s := run[i];
    if s.ctl.toStoreWG > 0 && !s.ctl.proc.Forwarding? {
      var s' := StorerMoves(s);
    }
    if s.ctl.toProcessWG > 0 && !s.ctl.fin.Sending? {
      var s' := ProcessorMoves(s);
    }
    if s.ctl.fin.Sending? {
      var s' := s.(ctl := s.ctl.(fin := Closed, toProcess := s.ctl.toProcess + [s.ctl.fin.block]));
      assert CloseSend(s, s');
    }
  }

  /** How many steps the processor and the storer can still take on their own. */
  function Work(c: Control): nat {
    10 * |c.toProcess| + ProcWork(c.proc) + 3 * |c.toStore|
    + (match c.sto case StoreIdle => 0 case Storing(_) => 2 case StoreDone => 1)
  }

  function ProcWork(p: ProcPhase): nat {
    match p
    case Received(_) => 9
    case Executing(_) => 8
    case WaitingStore(_) => 7
    case Forwarding(_) => 6
    case Failed => 2
    case ProcDone => 1
    case ProcIdle => 0
    case ProcHalted => 0
  }

  /** The finalizer waits: only the processor or the storer moves. */
  ghost predicate OthersMove(run: seq<State>, i: nat)
    requires i + 1 < |run|
  {
    ProcessorStep(run[i], run[i + 1]) || StorerStep(run[i], run[i + 1])
  }

  ghost predicate Stuck(s: State) {
    !exists s' :: ProcessorStep(s, s') || StorerStep(s, s')
  }

  lemma ProcessorWorks(s: State, s': State)
    requires ProcessorStep(s, s')
    ensures Work(s'.ctl) < Work(s.ctl) && s'.ctl.fin == s.ctl.fin
  {
    hide Run, Propagate;
  }

  lemma StorerWorks(s: State, s': State)
    requires StorerStep(s, s')
    ensures Work(s'.ctl) < Work(s.ctl) && s'.ctl.fin == s.ctl.fin
  {
    hide StoreWrites, InSip;
  }

  /** Waiting comes to an end: while the finalizer waits the others take at most Work steps,
      and when they can take no more nothing is pending, unless the processor halted. */
  lemma {:induction false} WaitEnds(run: seq<State>, i: nat, k: nat)
    requires IsRun(run) && i <= k < |run| && !run[i].ctl.fin.Sending?
    requires forall t: nat | i <= t < k :: OthersMove(run, t)
    ensures k - i + Work(run[k].ctl) <= Work(run[i].ctl)
    ensures run[k].ctl.fin == run[i].ctl.fin
    ensures Stuck(run[k]) && !run[k].ctl.proc.ProcHalted? ==> run[k].ctl.toProcessWG == 0 && run[k].ctl.toStoreWG == 0
    decreases k
  {
    hide IsRun, Work, Stuck, ProcessorStep, StorerStep;
    if i < k {
      WaitEnds(run, i, k - 1);
      assert OthersMove(run, k - 1);
      if ProcessorStep(run[k - 1], run[k]) {
        ProcessorWorks(run[k - 1], run[k]);
      } else {
        StorerWorks(run[k - 1], run[k]);
      }
    }
    if Stuck(run[k]) && !run[k].ctl.proc.ProcHalted? { NothingPending(run, k); }
  }

  lemma NothingPending(run: seq<State>, i: nat)
    requires IsRun(run) && i < |run| && !run[i].ctl.proc.ProcHalted? && !run[i].ctl.fin.Sending?
    requires Stuck(run[i])
    ensures run[i].ctl.toProcessWG == 0 && run[i].ctl.toStoreWG == 0
  {
    WaitersAreServed(run, i);
    RunKeeps(run, i);
    hide ProcessorStep, StorerStep, Roots, Numbering, Store', Sip, Storage, Processing, HeapOk;
  }

  lemma StorerMoves(s: State) returns (s': State)
    requires Inv(s) && s.ctl.toStoreWG > 0 && !s.ctl.proc.Forwarding?
    ensures StorerStep(s, s')
  {
    match s.ctl.sto {
      case StoreIdle =>
        s' := s.(ctl := s.ctl.(sto := Storing(s.ctl.toStore[0]), toStore := s.ctl.toStore[1..]));
        assert TakeForStore(s, s');
      case Storing(block) =>
        StoringAdvances(s.ctl, |s.mem.blocks|, s.hist);
        NextToStore(s.mem, s.hist, s.ctl.fin.Closing?);
        SipHasBlocks(s);
        var b := s.mem.blocks[block];
        s' := State(s.ctl.(sto := StoreDone),
                    s.mem.(sip := if InSip(s.mem, b.batch) then s.mem.sip else Some(b.batch)),
                    StoreWrites(s.mem, s.db, b),
                    s.hist.(stored := s.hist.stored + 1));
        assert Store(s, s');
      case StoreDone =>
        s' := s.(ctl := s.ctl.(sto := StoreIdle, toStoreWG := s.ctl.toStoreWG - 1));
        assert StoreReleased(s, s');
    }
  }

  /** The sip batch is never empty, so closing it never halts the node. */
  lemma SipHasBlocks(s: State)
    requires Inv(s)
    ensures SipInHeap(s.mem) && (s.mem.sip.Some? ==> s.mem.heap[s.mem.sip.value].blocks > 0)
  {
    if s.mem.sip.Some? && s.hist.stored > 0 {
      var last := s.mem.blocks[s.hist.stored - 1];
      assert last.batch < |s.mem.heap| && s.mem.heap[last.batch].blocks > 0;
    }
  }

  lemma ProcessorMoves(s: State) returns (s': State)
    requires Inv(s) && s.ctl.toProcessWG > 0 && !s.ctl.fin.Sending? && !s.ctl.proc.ProcHalted?
    ensures ProcessorStep(s, s') || StorerStep(s, s')
  {
    var c := s.ctl;
    match c.proc {
      case ProcIdle =>
        s' := s.(ctl := c.(proc := Received(c.toProcess[0]), toProcess := c.toProcess[1..]));
        assert Receive(s, s');
      case Received(block) =>
        s' := s.(ctl := c.(proc := if c.reorg then ProcDone else Executing(block)));
        assert CheckFlag(s, s');
      case Executing(block) =>
        ExecutingIsNext(c, |s.mem.blocks|, s.hist);
        assert s.mem.blocks[block].batch < |s.mem.heap|;
        s' := s.(ctl := c.(proc := WaitingStore(block)), mem := Run(s.mem, block, 0),
                 hist := s.hist.(executed := s.hist.executed + 1));
        assert ExecuteOk(s, s', 0);
      case Failed =>
        s' := s.(ctl := if c.lastWasReorg then c.(proc := ProcHalted)
                        else c.(proc := ProcDone, reorg := true, lastWasReorg := true));
        assert FlagReorg(s, s');
      case WaitingStore(block) =>
        if c.toStoreWG > 0 {
          s' := StorerMoves(s);
        } else {
          s' := s.(ctl := c.(proc := Forwarding(block), toStoreWG := c.toStoreWG + 1));
          assert ForwardAdd(s, s');
        }
      case Forwarding(block) =>
        s' := s.(ctl := c.(proc := ProcDone, toStore := c.toStore + [block], lastWasReorg := false));
        assert ForwardSend(s, s');
      case ProcDone =>
        s' := s.(ctl := c.(proc := ProcIdle, toProcessWG := c.toProcessWG - 1));
        assert ProcessDone(s, s');
    }
  }
}
