/** More that holds in every run of the pipeline: when two failures in a row halt it, and what the
    batches and blocks are numbered and counted by. */
module PipelineLaws {
  import opened Wrappers
  import opened Pipeline
  import opened PipelineSafety

  // ---- failures in a row ----

  /** Since the last failure no block has been handed to the storer and the node was not started. */
  ghost predicate FailedLast(run: seq<State>, k: nat)
    requires k < |run|
  {
    exists i: nat :: i < k && FailedAt(run, i, k)
  }

  ghost predicate FailedAt(run: seq<State>, i: nat, k: nat)
    requires i < k < |run|
  {
    && FlagReorg(run[i], run[i + 1])
    && forall t: nat | i < t < k :: !Forgives(run, t)
  }

  ghost predicate Forgives(run: seq<State>, t: nat)
    requires t + 1 < |run|
  {
    ForwardSend(run[t], run[t + 1]) || Restart(run[t], run[t + 1])
  }

  lemma FinalizerKeepsNote(s: State, s': State)
    requires FinalizerStep(s, s')
    ensures s'.ctl.lastWasReorg == s.ctl.lastWasReorg
  {
    hide Flat, CloseLast, SyncCheckFails;
  }

  lemma OthersKeepNote(s: State, s': State)
    requires ProcessorStep(s, s') || StorerStep(s, s')
    requires !FlagReorg(s, s') && !ForwardSend(s, s')
    ensures s'.ctl.lastWasReorg == s.ctl.lastWasReorg
  {
    hide Run, Propagate, StoreWrites, InSip;
  }

  lemma FailureNoted(s: State, s': State)
    requires Next(s, s')
    ensures FlagReorg(s, s') ==> s'.ctl.lastWasReorg && !ForwardSend(s, s') && !Restart(s, s')
    ensures ForwardSend(s, s') || Restart(s, s') ==> !s'.ctl.lastWasReorg
    ensures !FlagReorg(s, s') && !ForwardSend(s, s') && !Restart(s, s') ==> s'.ctl.lastWasReorg == s.ctl.lastWasReorg
  {
    hide FinalizerStep, ProcessorStep, StorerStep, Flat;
    if FinalizerStep(s, s') {
      FinalizerKeepsNote(s, s');
    } else if !FlagReorg(s, s') && !ForwardSend(s, s') && !Restart(s, s') {
      OthersKeepNote(s, s');
    }
  }

  lemma FailedBefore(run: seq<State>, k: nat)
    requires 0 < k < |run| && FailedLast(run, k) && !FlagReorg(run[k - 1], run[k])
    ensures FailedLast(run, k - 1) && !Forgives(run, k - 1)
  {
    hide FlagReorg, Forgives;
    var i: nat :| i < k && FailedAt(run, i, k);
    assert FailedAt(run, i, k - 1);
  }

  lemma {:induction false} LastFailureIsKept(run: seq<State>, k: nat)
    requires IsRun(run) && k < |run|
    ensures run[k].ctl.lastWasReorg <==> FailedLast(run, k)
  {
    if k > 0 {
      LastFailureIsKept(run, k - 1);
      assert StepAt(run, k - 1);
      FailureNoted(run[k - 1], run[k]);
      hide IsRun, Next, FlagReorg, ForwardSend, Restart;
      if FlagReorg(run[k - 1], run[k]) {
        assert FailedAt(run, k - 1, k);
      } else if run[k].ctl.lastWasReorg {
        var i: nat :| i < k - 1 && FailedAt(run, i, k - 1);
        assert FailedAt(run, i, k);
      } else if FailedLast(run, k) {
        FailedBefore(run, k);
      }
    }
  }

  /** A failing block halts the processor if and only if the last block it finished, since the node
      was started, failed too; otherwise the reorg is flagged. */
  lemma SecondFailureHalts(run: seq<State>, k: nat)
    requires IsRun(run) && k + 1 < |run| && FlagReorg(run[k], run[k + 1])
    ensures run[k + 1].ctl.proc.ProcHalted? <==> FailedLast(run, k)
    ensures run[k + 1].ctl.reorg <==> !FailedLast(run, k)
  {
    LastFailureIsKept(run, k);
    RunKeeps(run, k);
    hide FailedLast, IsRun, DbOk, Flat, Rows, Roots, Numbering, Store', Sip, HeapOk;
  }

  // ---- counting ----

  /** How many of the blocks are of a batch. */
  function CountIn(blocks: seq<L2Block>, batch: nat): nat {
    if blocks == [] then 0
    else CountIn(blocks[..|blocks| - 1], batch) + One(blocks[|blocks| - 1].batch == batch)
  }

  /** Every batch opened since the start counts its closed blocks, the wip one also the one being
      closed, and the blocks are numbered in the order they were closed. */
  ghost predicate Counted(s: State) {
    && (forall b: nat | b < |s.mem.heap| && (b > 0 || !s.hist.baseOpen) ::
          s.mem.heap[b].blocks == CountIn(s.mem.blocks, b) + One(s.ctl.fin.Closing? && b == s.mem.Wip()))
    && (forall k: nat | k < |s.mem.blocks| :: s.mem.blocks[k].id + |s.mem.blocks| == s.mem.counter + k)
  }

  lemma {:induction false} SameCounts(blocks: seq<L2Block>, blocks': seq<L2Block>, b: nat)
    requires |blocks'| == |blocks| && forall k: nat | k < |blocks| :: blocks'[k].batch == blocks[k].batch
    ensures CountIn(blocks', b) == CountIn(blocks, b)
  {
    if blocks != [] { SameCounts(blocks[..|blocks| - 1], blocks'[..|blocks| - 1], b); }
  }

  lemma {:induction false} NoneIn(blocks: seq<L2Block>, b: nat)
    requires forall k: nat | k < |blocks| :: blocks[k].batch < b
    ensures CountIn(blocks, b) == 0
  {
    if blocks != [] { NoneIn(blocks[..|blocks| - 1], b); }
  }

  /** The step closes no block, opens no batch and starts nothing. */
  ghost predicate SameCount(s: State, s': State) {
    && |s'.mem.heap| == |s.mem.heap| && |s'.mem.blocks| == |s.mem.blocks| && s'.mem.counter == s.mem.counter
    && (forall b: nat | b < |s.mem.heap| :: s'.mem.heap[b].blocks == s.mem.heap[b].blocks)
    && (forall k: nat | k < |s.mem.blocks| ::
          s'.mem.blocks[k].batch == s.mem.blocks[k].batch && s'.mem.blocks[k].id == s.mem.blocks[k].id)
    && s'.ctl.fin.Closing? == s.ctl.fin.Closing? && s'.hist.baseOpen == s.hist.baseOpen
  }

  lemma ProcessorCounts(s: State, s': State)
    requires ProcessorStep(s, s')
    ensures SameCount(s, s')
  {
    if CanExecute(s) {
      PropagateCounts(s.mem, s.mem.blocks[s.ctl.proc.block].batch);
      hide Propagate;
    }
  }

  lemma PropagateCounts(m: Memory, batch: nat)
    requires batch < |m.heap| && (m.pip.Some? ==> m.pip.value < |m.heap|)
    ensures var m' := Propagate(m, batch);
            && m'.blocks == m.blocks && m'.counter == m.counter
            && forall b: nat | b < |m.heap| :: m'.heap[b].blocks == m.heap[b].blocks
  {
  }

  lemma StorerCounts(s: State, s': State)
    requires StorerStep(s, s')
    ensures SameCount(s, s')
  {
    hide StoreWrites, InSip;
  }

  lemma FinalizerCounts(s: State, s': State)
    requires FinalizerStep(s, s') && !CloseBegin(s, s') && !CloseAdd(s, s') && !ReorgReset(s, s')
    requires forall root :: !NewBatch(s, s', root)
    ensures SameCount(s, s')
  {
    hide Flat, CloseLast, SyncCheckFails;
  }

  lemma SameCountKeeps(s: State, s': State)
    requires Counted(s) && SameCount(s, s')
    ensures Counted(s')
  {
    forall b: nat ensures CountIn(s'.mem.blocks, b) == CountIn(s.mem.blocks, b) {
      SameCounts(s.mem.blocks, s'.mem.blocks, b);
    }
    hide CountIn;
  }

  lemma CloseBeginCounts(s: State, s': State)
    requires Counted(s) && CloseBegin(s, s')
    ensures Counted(s')
  {
    hide CountIn;
  }

  lemma CloseAddCounts(s: State, s': State)
    requires Counted(s) && CloseAdd(s, s')
    ensures Counted(s')
  {
    forall b: nat
      ensures CountIn(s'.mem.blocks, b) == CountIn(s.mem.blocks, b) + One(b == s.mem.Wip())
    {
      assert s'.mem.blocks[..|s.mem.blocks|] == s.mem.blocks;
    }
    hide CountIn;
  }

  lemma NewBatchCounts(s: State, s': State, root: Root)
    requires Counted(s) && NewBatch(s, s', root)
    requires forall k: nat | k < |s.mem.blocks| :: s.mem.blocks[k].batch < |s.mem.heap|
    ensures Counted(s')
  {
    NoneIn(s.mem.blocks, |s.mem.heap|);
    hide CountIn;
  }

  lemma StepCounts(s: State, s': State)
    requires Inv(s) && Counted(s) && Next(s, s')
    ensures Counted(s')
  {
    BatchesAllocated(s.mem.heap, s.mem.blocks, s.hist.baseOpen, s.ctl.fin.Closing?);
    hide Inv, Counted, FinalizerStep, ProcessorStep, StorerStep, CloseBegin, CloseAdd, NewBatch;
    if ProcessorStep(s, s') {
      ProcessorCounts(s, s');
      SameCountKeeps(s, s');
    } else if StorerStep(s, s') {
      StorerCounts(s, s');
      SameCountKeeps(s, s');
    } else if CloseBegin(s, s') {
      CloseBeginCounts(s, s');
    } else if CloseAdd(s, s') {
      CloseAddCounts(s, s');
    } else if root :| NewBatch(s, s', root) {
      NewBatchCounts(s, s', root);
    } else if ReorgReset(s, s') || Restart(s, s') {
      StartCounts(s');
    } else {
      FinalizerCounts(s, s');
      SameCountKeeps(s, s');
    }
  }

  lemma StartCounts(s: State)
    requires CanInit(s.db) && s == InitState(s.db, s.mem.counter, s.ctl.lastWasReorg)
    ensures Counted(s)
  {
    hide Flat;
  }

  /** Going on to the next batch halts the finalizer exactly when the wip batch has no block. */
  lemma EmptyBatchHalts(run: seq<State>, i: nat, root: Root)
    requires IsRun(run) && i + 1 < |run| && NewBatch(run[i], run[i + 1], root)
    ensures var s, s' := run[i], run[i + 1];
            && s.mem.heap != []
            && (s'.ctl.fin.FinHalted? <==>
                  CountIn(s.mem.blocks, s.mem.Wip()) == 0 && !(s.mem.Wip() == 0 && s.hist.baseOpen))
            && (!s'.ctl.fin.FinHalted? ==>
                  && |s'.mem.heap| == |s.mem.heap| + 1
                  && s'.mem.heap[s'.mem.Wip()].number == s.mem.heap[s.mem.Wip()].number + 1)
  {
    BlocksAreCounted(run, i);
    RunKeeps(run, i);
    hide IsRun, DbOk, Flat, Rows, Roots, Store', Sip, CountIn;
  }

  /** The node halts on a batch number only after a wip batch with blocks. */
  lemma {:induction false} HaltingHasBlocks(run: seq<State>, i: nat)
    requires IsRun(run) && i < |run| && run[i].mem.heap != []
    requires run[i].ctl.fin.HaltProcess? || run[i].ctl.fin.HaltStore? || run[i].ctl.fin.HaltClose?
    ensures run[i].mem.heap[run[i].mem.Wip()].blocks > 0
  {
    assert i > 0;
    assert StepAt(run, i - 1);
    var s, s' := run[i - 1], run[i];
    hide IsRun;
    HaltingStep(s, s');
    if !HaltBegin(s, s') { HaltingHasBlocks(run, i - 1); }
  }

  lemma HaltingStep(s: State, s': State)
    requires Next(s, s') && s'.mem.heap != []
    requires s'.ctl.fin.HaltProcess? || s'.ctl.fin.HaltStore? || s'.ctl.fin.HaltClose?
    ensures |s.mem.heap| == |s'.mem.heap| && s'.mem.heap[s'.mem.Wip()].blocks == s.mem.heap[s.mem.Wip()].blocks
    ensures HaltBegin(s, s') || s.ctl.fin.HaltProcess? || s.ctl.fin.HaltStore? || s.ctl.fin.HaltClose?
  {
    hide FinalizerStep, ProcessorStep, StorerStep, HaltBegin, Flat;
    if ProcessorStep(s, s') {
      ProcessorCounts(s, s');
      ProcessorKeepsPhase(s, s');
    } else if StorerStep(s, s') {
      StorerCounts(s, s');
      StorerKeepsPhase(s, s');
    } else {
      assert !Restart(s, s');
      FinalizerHalting(s, s');
    }
  }

  lemma FinalizerHalting(s: State, s': State)
    requires FinalizerStep(s, s')
    requires s'.ctl.fin.HaltProcess? || s'.ctl.fin.HaltStore? || s'.ctl.fin.HaltClose?
    ensures s.mem == s'.mem
    ensures HaltBegin(s, s') || s.ctl.fin.HaltProcess? || s.ctl.fin.HaltStore?
  {
    hide Flat, CloseLast, SyncCheckFails;
  }

  lemma ProcessorKeepsPhase(s: State, s': State)
    requires ProcessorStep(s, s')
    ensures s'.ctl.fin == s.ctl.fin
  {
    hide Run, Propagate;
  }

  lemma StorerKeepsPhase(s: State, s': State)
    requires StorerStep(s, s')
    ensures s'.ctl.fin == s.ctl.fin
  {
    hide StoreWrites, InSip;
  }

  /** In every state of every run. */
  lemma {:induction false} BlocksAreCounted(run: seq<State>, i: nat)
    requires IsRun(run) && i < |run|
    ensures Counted(run[i])
  {
    if i == 0 {
      StartCounts(run[0]);
    } else {
      BlocksAreCounted(run, i - 1);
      RunKeeps(run, i - 1);
      assert StepAt(run, i - 1);
      hide Inv, Counted, Next;
      StepCounts(run[i - 1], run[i]);
    }
  }
}
