/** What every interleaving of the pipeline keeps. */
module PipelineSafety {
  import opened Wrappers
  import opened Pipeline

  // ---- the database ----

  /** The blocks of a batch start at `start`, each where the one before it ended. */
  ghost predicate Chained(blocks: seq<StoredBlock>, start: Root) {
    && (blocks != [] ==> blocks[0].start == start)
    && forall i | 0 < i < |blocks| :: blocks[i].start == blocks[i - 1].end
  }

  function EndRoot(blocks: seq<StoredBlock>, start: Root): Root {
    if blocks == [] then start else blocks[|blocks| - 1].end
  }

  ghost predicate BatchOk(b: DbBatch) {
    && b.blocks != []
    && (forall i | 0 <= i < |b.blocks| :: b.blocks[i].batchNumber == b.number)
    && Chained(b.blocks, b.initialRoot)
    && b.root == EndRoot(b.blocks, b.initialRoot)
  }

  /** Consecutive numbers, only the last batch may be open, every batch starts from the
      root the one before it ended in. The first row is the genesis batch. */
  ghost predicate DbOk(db: seq<DbBatch>) {
    && db != [] && !db[0].open
    && (forall i | 0 < i < |db| :: BatchOk(db[i]) && db[i].number == db[i - 1].number + 1
                                   && db[i].initialRoot == db[i - 1].root)
    && (forall i | 0 <= i < |db| - 1 :: !db[i].open)
  }

  lemma {:induction false} DbClose(db: seq<DbBatch>)
    requires DbOk(db)
    ensures DbOk(CloseLast(db)) && Flat(CloseLast(db)) == Flat(db)
  {
    var db' := CloseLast(db);
    assert db'[..|db| - 1] == db[..|db| - 1];
    assert forall i | 0 < i < |db'| :: BatchOk(db'[i]) by {
      forall i | 0 < i < |db'| ensures BatchOk(db'[i]) { assert BatchOk(db[i]); }
    }
  }

  lemma {:induction false} BatchAppend(b: DbBatch, row: StoredBlock)
    requires b.blocks == [] ==> b.root == b.initialRoot
    requires b.blocks != [] ==> BatchOk(b)
    requires row.batchNumber == b.number && row.start == b.root
    ensures BatchOk(b.(blocks := b.blocks + [row], root := row.end))
  {
    var blocks := b.blocks + [row];
    assert Chained(blocks, b.initialRoot);
  }

  lemma {:induction false} DbAppend(db: seq<DbBatch>, row: StoredBlock)
    requires DbOk(db) && |db| > 1
    requires row.batchNumber == Last(db).number && row.start == Last(db).root
    ensures var db' := AppendBlock(db, row);
            && DbOk(db') && Flat(db') == Flat(db) + [row]
            && Last(db').number == row.batchNumber && Last(db').root == row.end && Last(db').open == Last(db).open
  {
    var db' := AppendBlock(db, row);
    BatchAppend(db[|db| - 1], row);
    assert db'[..|db| - 1] == db[..|db| - 1];
    forall i | 0 < i < |db'| - 1 ensures BatchOk(db'[i]) { assert BatchOk(db[i]); }
  }

  lemma {:induction false} DbInsert(db: seq<DbBatch>, row: StoredBlock)
    requires DbOk(db) && !Last(db).open
    requires row.batchNumber == Last(db).number + 1 && row.start == Last(db).root
    ensures var db' := AppendBlock(InsertBatch(db, row.batchNumber, row.start), row);
            && DbOk(db') && Flat(db') == Flat(db) + [row]
            && Last(db').number == row.batchNumber && Last(db').root == row.end && Last(db').open
  {
    var db' := AppendBlock(InsertBatch(db, row.batchNumber, row.start), row);
    BatchAppend(DbBatch(row.batchNumber, row.start, row.start, true, []), row);
    hide BatchOk;
    assert db'[..|db|] == db;
    assert forall i | 0 <= i < |db| :: db'[i] == db[i];
  }

  // ---- the pipeline ----

  function One(b: bool): nat { if b then 1 else 0 }

  predicate HoldsUnexecuted(p: ProcPhase) { p.Received? || p.Executing? }

  predicate HoldsExecuted(p: ProcPhase) { p.WaitingStore? || p.Forwarding? }

  /** The wait groups count exactly what is in flight, and never more than one block. */
  ghost predicate Flow(c: Control) {
    && c.toProcessWG == |c.toProcess| + One(c.fin.Sending?) + One(!c.proc.ProcIdle?) <= 1
    && c.toStoreWG == |c.toStore| + One(c.proc.Forwarding?) + One(!c.sto.StoreIdle?) <= 1
    && (c.fin.ReorgStore? || c.fin.ReorgClose? || c.fin.ReorgInit? || c.fin.SyncStore? ==> c.toProcessWG == 0)
    && (c.fin.HaltStore? || c.fin.HaltClose? ==> c.toProcessWG == 0)
    && (c.fin.ReorgClose? || c.fin.ReorgInit? || c.fin.HaltClose? ==> c.toStoreWG == 0)
  }

  /** Of `closed` blocks the first h.executed are executed; unless one failed, what is
      left is what the processing side has in flight. Nothing is executed once a block
      has failed. */
  ghost predicate Processing(c: Control, closed: nat, h: History) {
    && h.executed <= closed
    && (c.fin.Sending? ==> c.fin.block == closed - 1)
    && (c.toProcess != [] ==> c.toProcess[0] == closed - 1)
    && (HoldsUnexecuted(c.proc) ==> c.proc.block == closed - 1)
    && (h.failed.None? ==> closed == h.executed + |c.toProcess| + One(c.fin.Sending?) + One(HoldsUnexecuted(c.proc)))
    && (h.failed.Some? ==> h.failed.value == h.executed < closed && !c.proc.Executing?)
    && (c.reorg ==> h.failed.Some?)
    && (h.failed.Some? ==> c.reorg || c.proc.Failed? || c.proc.ProcHalted?)
    && (c.proc.Failed? || c.proc.ProcHalted? ==> h.failed.Some? && !c.reorg)
    && (c.fin.ReorgProcess? || c.fin.ReorgStore? || c.fin.ReorgClose? || c.fin.ReorgInit? ==> c.reorg)
  }

  /** Of the executed blocks the first h.stored are stored; the rest is in flight. */
  ghost predicate Storage(c: Control, h: History) {
    && h.executed == h.stored + |c.toStore| + One(HoldsExecuted(c.proc)) + One(c.sto.Storing?)
    && (HoldsExecuted(c.proc) ==> c.proc.block == h.executed - 1)
    && (c.toStore != [] ==> c.toStore[0] == h.stored)
    && (c.sto.Storing? ==> c.sto.block == h.stored)
  }

  /** The block being executed is the last one closed and the first not yet executed. */
  lemma ExecutingIsNext(c: Control, closed: nat, h: History)
    requires Flow(c) && Processing(c, closed, h) && c.proc.Executing?
    ensures c.proc.block == h.executed == closed - 1 && h.failed.None?
    ensures c.toProcess == [] && !c.fin.Sending? && !c.reorg
  {
  }

  ghost predicate HeapOk(heap: seq<Batch>) {
    heap != [] && forall i | 0 <= i < |heap| :: heap[i].number == heap[0].number + i
  }

  lemma SameNumber(heap: seq<Batch>, i: nat, j: nat)
    requires HeapOk(heap) && i < |heap| && j < |heap|
    ensures heap[i].number == heap[j].number <==> i == j
    ensures heap[i].number == heap[0].number + i
  {
  }

  /** The batch of the block before the i-th one; -1 when that is not in the heap. */
  function BatchBefore(blocks: seq<L2Block>, i: nat, baseOpen: bool): int
    requires i <= |blocks|
  {
    if i > 0 then blocks[i - 1].batch else if baseOpen then 0 else -1
  }

  /** Batches follow one another without a gap in the order of the closed blocks, and
      every batch before the wip one has L2 blocks. */
  ghost predicate Numbering(heap: seq<Batch>, blocks: seq<L2Block>, baseOpen: bool, closing: bool) {
    && (forall i: nat | i < |blocks| ::
          BatchBefore(blocks, i, baseOpen) <= blocks[i].batch <= BatchBefore(blocks, i, baseOpen) + 1)
    && (forall i: nat | i < |blocks| :: blocks[i].batch < |heap| && heap[blocks[i].batch].blocks > 0)
    && BatchBefore(blocks, |blocks|, baseOpen) <= |heap| - 1 <= BatchBefore(blocks, |blocks|, baseOpen) + 1
    && (|heap| - 1 == BatchBefore(blocks, |blocks|, baseOpen) + 1 && heap != [] ==>
          heap[|heap| - 1].blocks == One(closing))
    && (baseOpen && heap != [] ==> heap[0].blocks > 0)
  }

  lemma {:induction false} BatchesAscend(heap: seq<Batch>, blocks: seq<L2Block>, baseOpen: bool, closing: bool,
                                         i: nat, j: nat)
    requires Numbering(heap, blocks, baseOpen, closing) && i < j <= |blocks|
    ensures blocks[i].batch <= BatchBefore(blocks, j, baseOpen)
    decreases j
  {
    if i < j - 1 {
      BatchesAscend(heap, blocks, baseOpen, closing, i, j - 1);
      assert BatchBefore(blocks, j - 1, baseOpen) <= blocks[j - 1].batch;
    }
  }

  /** The root after the first i blocks. */
  function RootAfter(blocks: seq<L2Block>, i: nat, baseRoot: Root): Root
    requires i <= |blocks|
  {
    if i == 0 then baseRoot else blocks[i - 1].end
  }

  /** The first n blocks were executed one from the other's end. */
  ghost predicate BlockChain(blocks: seq<L2Block>, n: nat, baseRoot: Root) {
    && n <= |blocks|
    && forall i: nat | i < n :: blocks[i].start == RootAfter(blocks, i, baseRoot)
  }

  /** A batch that begins with one of the first n blocks has that block's root as its own. */
  ghost predicate BatchStarts(heap: seq<Batch>, blocks: seq<L2Block>, n: nat, baseOpen: bool) {
    && n <= |blocks|
    && forall i: nat | i < n && BatchBefore(blocks, i, baseOpen) < blocks[i].batch ::
         blocks[i].batch < |heap| && heap[blocks[i].batch].initialRoot == blocks[i].start
  }

  /** The pip batch holds the root of the last executed block. */
  ghost predicate PipOk(m: Memory, h: History) {
    && m.heap != [] && h.executed <= |m.blocks|
    && match m.pip
       case None =>
         && h.executed == 0 && h.failed.None? && !h.baseOpen
         && m.heap[0].finalRoot == m.heap[0].initialRoot == h.baseRoot
       case Some(p) =>
         && p < |m.heap|
         && m.heap[p].finalRoot == RootAfter(m.blocks, h.executed, h.baseRoot)
         && (h.failed.None? ==> p == BatchBefore(m.blocks, h.executed, h.baseOpen))
  }

  /** Every executed block started from the root its predecessor produced, also across
      batches, and so did every batch. */
  ghost predicate Roots(m: Memory, h: History) {
    && BlockChain(m.blocks, h.executed, h.baseRoot)
    && BatchStarts(m.heap, m.blocks, h.executed, h.baseOpen)
    && PipOk(m, h)
  }

  function Row(first: nat, b: L2Block): StoredBlock {
    StoredBlock(b.id, first + b.batch, b.start, b.end)
  }

  function Rows(first: nat, blocks: seq<L2Block>): seq<StoredBlock> {
    seq(|blocks|, i requires 0 <= i < |blocks| => Row(first, blocks[i]))
  }

  /** The store holds what it held before plus the first h.stored blocks, in order.
      `first` is the number of the first batch of the heap. */
  ghost predicate Store'(db: seq<DbBatch>, first: nat, blocks: seq<L2Block>, h: History) {
    && DbOk(db) && h.stored <= |blocks|
    && Flat(db) == h.base + Rows(first, blocks[..h.stored])
    && Last(db).number == first + BatchBefore(blocks, h.stored, h.baseOpen)
    && Last(db).root == RootAfter(blocks, h.stored, h.baseRoot)
  }

  /** sipBatch is nil before the first block of a fresh batch is stored, or when nothing is in
      flight and it has just been closed by a reorg handling or before a halt. */
  ghost predicate Sip(c: Control, m: Memory, db: seq<DbBatch>, h: History) {
    && h.stored <= |m.blocks| && db != []
    && match m.sip
       case Some(sip) => Last(db).open && sip == BatchBefore(m.blocks, h.stored, h.baseOpen)
       case None => || (h.stored == 0 && !h.baseOpen && !Last(db).open)
                    || ((c.fin.ReorgInit? || c.fin.FinHalted?) && c.toProcessWG == 0 && c.toStoreWG == 0)
  }

  /** From closing a block to the end of the state root sync the wip batch is the
      batch of the last closed block. */
  ghost predicate JustClosed(fin: FinPhase, batches: nat, blocks: seq<L2Block>) {
    fin.Sending? || fin.Closed? || fin.SyncProcess? || fin.SyncStore? ==>
      blocks != [] && blocks[|blocks| - 1].batch == batches - 1
  }

  ghost predicate Inv(s: State) {
    && Flow(s.ctl)
    && Processing(s.ctl, |s.mem.blocks|, s.hist)
    && Storage(s.ctl, s.hist)
    && HeapOk(s.mem.heap)
    && Numbering(s.mem.heap, s.mem.blocks, s.hist.baseOpen, s.ctl.fin.Closing?)
    && Roots(s.mem, s.hist)
    && Store'(s.db, s.mem.heap[0].number, s.mem.blocks, s.hist)
    && Sip(s.ctl, s.mem, s.db, s.hist)
    && JustClosed(s.ctl.fin, |s.mem.heap|, s.mem.blocks)
  }

  /** Batches may change their counts without touching the roots. */
  lemma RootsKept(m: Memory, m': Memory, h: History)
    requires Roots(m, h)
    requires m'.blocks == m.blocks && m'.pip == m.pip && |m'.heap| >= |m.heap|
    requires forall i | 0 <= i < |m.heap| :: m'.heap[i].initialRoot == m.heap[i].initialRoot
                                             && m'.heap[i].finalRoot == m.heap[i].finalRoot
    requires forall i: nat | i < |m.blocks| :: m.blocks[i].batch < |m.heap|
    ensures Roots(m', h)
  {
  }

  lemma CountBlock(heap: seq<Batch>, heap': seq<Batch>, blocks: seq<L2Block>, baseOpen: bool)
    requires HeapOk(heap) && Numbering(heap, blocks, baseOpen, false)
    requires var wip := heap[|heap| - 1];
             heap' == heap[|heap| - 1 := wip.(blocks := wip.blocks + 1)]
    ensures HeapOk(heap') && heap'[0].number == heap[0].number && Numbering(heap', blocks, baseOpen, true)
  {
    assert forall i | 0 <= i < |heap| :: heap'[i].number == heap[i].number;
  }

  lemma BatchesAllocated(heap: seq<Batch>, blocks: seq<L2Block>, baseOpen: bool, closing: bool)
    requires Numbering(heap, blocks, baseOpen, closing)
    ensures forall i: nat | i < |blocks| :: blocks[i].batch < |heap|
  {
  }

  lemma CloseBeginMemory(m: Memory, m': Memory, h: History)
    requires HeapOk(m.heap) && Numbering(m.heap, m.blocks, h.baseOpen, false) && Roots(m, h)
    requires var wip := m.heap[m.Wip()];
             m' == m.(heap := m.heap[m.Wip() := wip.(blocks := wip.blocks + 1)])
    ensures HeapOk(m'.heap) && m'.heap[0].number == m.heap[0].number
    ensures Numbering(m'.heap, m'.blocks, h.baseOpen, true) && Roots(m', h)
  {
    hide Numbering, Roots;
    CountBlock(m.heap, m'.heap, m.blocks, h.baseOpen);
    BatchesAllocated(m.heap, m.blocks, h.baseOpen, false);
    RootsKept(m, m', h);
  }

  lemma CloseBeginKeeps(s: State, s': State)
    requires Inv(s) && CloseBegin(s, s')
    ensures Inv(s')
  {
    CloseBeginMemory(s.mem, s'.mem, s.hist);
  }

  /** While a block is being closed its batch counts it. */
  lemma WipHasBlocks(heap: seq<Batch>, blocks: seq<L2Block>, baseOpen: bool)
    requires HeapOk(heap) && Numbering(heap, blocks, baseOpen, true)
    ensures heap[|heap| - 1].blocks > 0
  {
    if |heap| - 1 == BatchBefore(blocks, |blocks|, baseOpen) && blocks != [] {
      assert heap[blocks[|blocks| - 1].batch].blocks > 0;
    }
  }

  lemma AddBlock(heap: seq<Batch>, blocks: seq<L2Block>, blocks': seq<L2Block>, baseOpen: bool)
    requires HeapOk(heap) && Numbering(heap, blocks, baseOpen, true)
    requires |blocks'| == |blocks| + 1 && blocks' == blocks + [blocks'[|blocks|]]
    requires blocks'[|blocks|].batch == |heap| - 1
    ensures Numbering(heap, blocks', baseOpen, false)
  {
    WipHasBlocks(heap, blocks, baseOpen);
    forall i: nat | i < |blocks'|
      ensures BatchBefore(blocks', i, baseOpen) <= blocks'[i].batch <= BatchBefore(blocks', i, baseOpen) + 1
    {
      assert BatchBefore(blocks', i, baseOpen) == BatchBefore(blocks, i, baseOpen);
    }
  }

  /** What was executed and stored does not depend on blocks closed later. */
  lemma RootsWithMore(m: Memory, m': Memory, h: History)
    requires Roots(m, h)
    requires m'.heap == m.heap && m'.pip == m.pip && m.blocks <= m'.blocks
    ensures Roots(m', h)
  {
    forall i: nat | i <= |m.blocks|
      ensures RootAfter(m'.blocks, i, h.baseRoot) == RootAfter(m.blocks, i, h.baseRoot)
      ensures BatchBefore(m'.blocks, i, h.baseOpen) == BatchBefore(m.blocks, i, h.baseOpen)
    {
    }
  }

  lemma StoreWithMore(db: seq<DbBatch>, first: nat, blocks: seq<L2Block>, blocks': seq<L2Block>, h: History)
    requires Store'(db, first, blocks, h) && blocks <= blocks'
    ensures Store'(db, first, blocks', h)
  {
    assert blocks'[..h.stored] == blocks[..h.stored];
  }

  lemma CloseAddControl(c: Control, closed: nat, h: History)
    requires Flow(c) && Processing(c, closed, h) && Storage(c, h) && c.fin.Closing? && c.toProcessWG == 0
    ensures var c' := c.(fin := Sending(closed), toProcessWG := c.toProcessWG + 1);
            Flow(c') && Processing(c', closed + 1, h) && Storage(c', h)
  {
  }

  lemma SipWithMore(c: Control, c': Control, m: Memory, m': Memory, db: seq<DbBatch>, h: History)
    requires Sip(c, m, db, h)
    requires m'.sip == m.sip && m.blocks <= m'.blocks && !c.fin.ReorgInit? && !c.fin.FinHalted?
    ensures Sip(c', m', db, h)
  {
  }

  lemma CloseAddKeeps(s: State, s': State)
    requires Inv(s) && CloseAdd(s, s')
    ensures Inv(s')
  {
    hide Flow, Processing, Storage, Numbering, Roots, Store', Sip;
    CloseAddControl(s.ctl, |s.mem.blocks|, s.hist);
    AddBlock(s.mem.heap, s.mem.blocks, s'.mem.blocks, s.hist.baseOpen);
    RootsWithMore(s.mem, s'.mem, s.hist);
    StoreWithMore(s.db, s.mem.heap[0].number, s.mem.blocks, s'.mem.blocks, s.hist);
    SipWithMore(s.ctl, s'.ctl, s.mem, s'.mem, s.db, s.hist);
  }

  lemma CloseSendKeeps(s: State, s': State)
    requires Inv(s) && CloseSend(s, s')
    ensures Inv(s')
  {
    hide HeapOk, Numbering, Roots, Store';
  }

  lemma CloseEndKeeps(s: State, s': State)
    requires Inv(s) && CloseEnd(s, s')
    ensures Inv(s')
  {
    hide HeapOk, Numbering, Roots, Store';
  }

  lemma SyncBeginKeeps(s: State, s': State)
    requires Inv(s) && SyncBegin(s, s')
    ensures Inv(s')
  {
    hide HeapOk, Numbering, Roots, Store';
  }

  lemma SyncProcessedKeeps(s: State, s': State)
    requires Inv(s) && SyncProcessed(s, s')
    ensures Inv(s')
  {
    hide HeapOk, Numbering, Roots, Store';
  }

  lemma SyncEndKeeps(s: State, s': State)
    requires Inv(s) && SyncEnd(s, s')
    ensures Inv(s')
  {
    hide HeapOk, Numbering, Roots, Store';
  }

  lemma FinalizerHaltsKeeps(s: State, s': State)
    requires Inv(s) && FinalizerHalts(s, s')
    ensures Inv(s')
  {
    hide HeapOk, Numbering, Roots, Store';
  }

  lemma ReorgBeginKeeps(s: State, s': State)
    requires Inv(s) && ReorgBegin(s, s')
    ensures Inv(s')
  {
    hide HeapOk, Numbering, Roots, Store';
  }

  lemma ReorgProcessedKeeps(s: State, s': State)
    requires Inv(s) && ReorgProcessed(s, s')
    ensures Inv(s')
  {
    hide HeapOk, Numbering, Roots, Store';
  }

  lemma ReorgStoredKeeps(s: State, s': State)
    requires Inv(s) && ReorgStored(s, s')
    ensures Inv(s')
  {
    hide HeapOk, Numbering, Roots, Store';
  }

  lemma ReceiveKeeps(s: State, s': State)
    requires Inv(s) && Receive(s, s')
    ensures Inv(s')
  {
    hide HeapOk, Numbering, Roots, Store';
  }

  lemma CheckFlagKeeps(s: State, s': State)
    requires Inv(s) && CheckFlag(s, s')
    ensures Inv(s')
  {
    hide HeapOk, Numbering, Roots, Store';
  }

  /** Numbering looks only at numbers and counts. */
  lemma NumberingKept(heap: seq<Batch>, heap': seq<Batch>, blocks: seq<L2Block>, blocks': seq<L2Block>,
                      baseOpen: bool, closing: bool)
    requires HeapOk(heap) && Numbering(heap, blocks, baseOpen, closing)
    requires |heap'| == |heap| && |blocks'| == |blocks|
    requires forall i | 0 <= i < |heap| :: heap'[i].number == heap[i].number && heap'[i].blocks == heap[i].blocks
    requires forall i | 0 <= i < |blocks| :: blocks'[i].batch == blocks[i].batch
    ensures HeapOk(heap') && heap'[0].number == heap[0].number && Numbering(heap', blocks', baseOpen, closing)
  {
    forall i: nat | i <= |blocks|
      ensures BatchBefore(blocks', i, baseOpen) == BatchBefore(blocks, i, baseOpen)
    {
    }
    forall i: nat | i < |blocks'|
      ensures BatchBefore(blocks', i, baseOpen) <= blocks'[i].batch <= BatchBefore(blocks', i, baseOpen) + 1
    {
      assert BatchBefore(blocks, i, baseOpen) <= blocks[i].batch <= BatchBefore(blocks, i, baseOpen) + 1;
    }
  }

  /** Batches that the first n blocks belong to keep their initial roots. */
  lemma StartsKept(heap: seq<Batch>, heap': seq<Batch>, blocks: seq<L2Block>, n: nat, baseOpen: bool, closing: bool)
    requires Numbering(heap, blocks, baseOpen, closing) && BatchStarts(heap, blocks, n, baseOpen)
    requires |heap'| == |heap|
    requires forall k: nat | k < |heap| && k <= BatchBefore(blocks, n, baseOpen) ::
               heap'[k].initialRoot == heap[k].initialRoot
    ensures BatchStarts(heap', blocks, n, baseOpen)
  {
    forall i: nat | i < n && BatchBefore(blocks, i, baseOpen) < blocks[i].batch
      ensures heap'[blocks[i].batch].initialRoot == blocks[i].start
    {
      BatchesAscend(heap, blocks, baseOpen, closing, i, n);
    }
  }

  /** The next block finds its batch holding the root that its predecessor produced. */
  lemma PropagateMemory(m: Memory, m': Memory, h: History, closing: bool)
    requires HeapOk(m.heap) && Numbering(m.heap, m.blocks, h.baseOpen, closing) && Roots(m, h)
    requires h.failed.None? && h.executed < |m.blocks|
    requires m' == Propagate(m, m.blocks[h.executed].batch)
    ensures HeapOk(m'.heap) && m'.heap[0].number == m.heap[0].number
    ensures Numbering(m'.heap, m'.blocks, h.baseOpen, closing)
    ensures Roots(m', h.(failed := Some(h.executed)))
    ensures m'.pip == Some(m.blocks[h.executed].batch) && m'.blocks == m.blocks && m'.sip == m.sip
    ensures var b := m.blocks[h.executed].batch;
            b > BatchBefore(m.blocks, h.executed, h.baseOpen) ==> m'.heap[b].initialRoot == m'.heap[b].finalRoot
  {
    var b := m.blocks[h.executed].batch;
    var before := BatchBefore(m.blocks, h.executed, h.baseOpen);
    assert before <= b <= before + 1 && b < |m.heap|;
    assert m.pip.Some? ==> m.pip.value == before;
    if m.pip.Some? { SameNumber(m.heap, before, b); }
    hide BlockChain, BatchStarts, Numbering, HeapOk;
    if b == before + 1 && m.pip.Some? {
      NumberingKept(m.heap, m'.heap, m.blocks, m.blocks, h.baseOpen, closing);
      StartsKept(m.heap, m'.heap, m.blocks, h.executed, h.baseOpen, closing);
    }
  }

  lemma FlagReorgKeeps(s: State, s': State)
    requires Inv(s) && FlagReorg(s, s')
    ensures Inv(s')
  {
    hide HeapOk, Numbering, Roots, Store';
  }

  lemma ForwardAddKeeps(s: State, s': State)
    requires Inv(s) && ForwardAdd(s, s')
    ensures Inv(s')
  {
    hide HeapOk, Numbering, Roots, Store';
  }

  lemma ForwardSendKeeps(s: State, s': State)
    requires Inv(s) && ForwardSend(s, s')
    ensures Inv(s')
  {
    hide HeapOk, Numbering, Roots, Store';
  }

  lemma ProcessDoneKeeps(s: State, s': State)
    requires Inv(s) && ProcessDone(s, s')
    ensures Inv(s')
  {
    hide HeapOk, Numbering, Roots, Store';
  }

  lemma TakeForStoreKeeps(s: State, s': State)
    requires Inv(s) && TakeForStore(s, s')
    ensures Inv(s')
  {
    hide HeapOk, Numbering, Roots, Store';
  }

  lemma RowsExtend(first: nat, blocks: seq<L2Block>, n: nat)
    requires n < |blocks|
    ensures Rows(first, blocks[..n + 1]) == Rows(first, blocks[..n]) + [Row(first, blocks[n])]
  {
  }

  lemma StoreExtends(db: seq<DbBatch>, db': seq<DbBatch>, first: nat, blocks: seq<L2Block>, h: History)
    requires Store'(db, first, blocks, h) && h.stored < |blocks|
    requires var row := Row(first, blocks[h.stored]);
             && DbOk(db') && Flat(db') == Flat(db) + [row]
             && Last(db').number == row.batchNumber && Last(db').root == row.end
    ensures Store'(db', first, blocks, h.(stored := h.stored + 1))
  {
    RowsExtend(first, blocks, h.stored);
  }

  lemma NextToStore(m: Memory, h: History, closing: bool)
    requires HeapOk(m.heap) && Numbering(m.heap, m.blocks, h.baseOpen, closing) && Roots(m, h)
    requires h.stored < h.executed
    ensures var b := m.blocks[h.stored];
            var before := BatchBefore(m.blocks, h.stored, h.baseOpen);
            && before <= b.batch <= before + 1 && b.batch < |m.heap|
            && m.heap[b.batch].number == m.heap[0].number + b.batch
            && b.start == RootAfter(m.blocks, h.stored, h.baseRoot)
            && (b.batch == before + 1 ==> m.heap[b.batch].initialRoot == b.start)
  {
  }

  /** The next block goes into the open batch ... */
  lemma StoreInOpen(db: seq<DbBatch>, first: nat, blocks: seq<L2Block>, h: History)
    requires Store'(db, first, blocks, h) && h.stored < |blocks| && Last(db).open
    requires blocks[h.stored].batch == BatchBefore(blocks, h.stored, h.baseOpen)
    requires blocks[h.stored].start == RootAfter(blocks, h.stored, h.baseRoot)
    ensures var db' := AppendBlock(db, Row(first, blocks[h.stored]));
            Store'(db', first, blocks, h.(stored := h.stored + 1)) && Last(db').open
  {
    DbAppend(db, Row(first, blocks[h.stored]));
    StoreExtends(db, AppendBlock(db, Row(first, blocks[h.stored])), first, blocks, h);
  }

  /** ... or into a new one, inserted after the last one is closed. */
  lemma StoreInNew(db: seq<DbBatch>, closed: seq<DbBatch>, first: nat, blocks: seq<L2Block>, h: History)
    requires Store'(db, first, blocks, h) && h.stored < |blocks|
    requires closed == if Last(db).open then CloseLast(db) else db
    requires blocks[h.stored].batch == BatchBefore(blocks, h.stored, h.baseOpen) + 1
    requires blocks[h.stored].start == RootAfter(blocks, h.stored, h.baseRoot)
    ensures var row := Row(first, blocks[h.stored]);
            var db' := AppendBlock(InsertBatch(closed, row.batchNumber, row.start), row);
            Store'(db', first, blocks, h.(stored := h.stored + 1)) && Last(db').open
  {
    var row := Row(first, blocks[h.stored]);
    DbClose(db);
    DbInsert(closed, row);
    StoreExtends(db, AppendBlock(InsertBatch(closed, row.batchNumber, row.start), row), first, blocks, h);
  }

  lemma StoreNext(m: Memory, db: seq<DbBatch>, h: History, closing: bool)
    requires HeapOk(m.heap) && Numbering(m.heap, m.blocks, h.baseOpen, closing) && Roots(m, h)
    requires Store'(db, m.heap[0].number, m.blocks, h) && h.stored < h.executed
    requires SipInHeap(m) && m.blocks[h.stored].batch < |m.heap|
    requires match m.sip
             case Some(sip) => Last(db).open && sip == BatchBefore(m.blocks, h.stored, h.baseOpen)
             case None => h.stored == 0 && !h.baseOpen && !Last(db).open
    ensures var b := m.blocks[h.stored];
            var db' := StoreWrites(m, db, b);
            && Store'(db', m.heap[0].number, m.blocks, h.(stored := h.stored + 1))
            && db' != [] && Last(db').open && (InSip(m, b.batch) ==> m.sip == Some(b.batch))
  {
    var b := m.blocks[h.stored];
    NextToStore(m, h, closing);
    if m.sip.Some? { SameNumber(m.heap, m.sip.value, b.batch); }
    var row := Row(m.heap[0].number, b);
    assert row == StoredBlock(b.id, m.heap[b.batch].number, b.start, b.end);
    if InSip(m, b.batch) {
      StoreInOpen(db, m.heap[0].number, m.blocks, h);
      assert StoreWrites(m, db, b) == AppendBlock(db, row);
    } else {
      var closed := if m.sip.Some? then CloseLast(db) else db;
      StoreInNew(db, closed, m.heap[0].number, m.blocks, h);
      assert StoreWrites(m, db, b) == AppendBlock(InsertBatch(closed, row.batchNumber, row.start), row);
    }
  }

  lemma StoringAdvances(c: Control, closed: nat, h: History)
    requires Flow(c) && Processing(c, closed, h) && Storage(c, h) && c.sto.Storing?
    ensures c.sto.block == h.stored < h.executed <= closed && c.toStoreWG > 0
    ensures var c' := c.(sto := StoreDone);
            var h' := h.(stored := h.stored + 1);
            Flow(c') && Processing(c', closed, h') && Storage(c', h')
  {
  }

  lemma SipIsCurrent(c: Control, m: Memory, db: seq<DbBatch>, h: History)
    requires Sip(c, m, db, h) && c.toStoreWG > 0
    ensures match m.sip
            case Some(sip) => Last(db).open && sip == BatchBefore(m.blocks, h.stored, h.baseOpen)
            case None => h.stored == 0 && !h.baseOpen && !Last(db).open
  {
  }

  lemma RootsIgnoreStored(m: Memory, m': Memory, h: History, h': History)
    requires Roots(m, h)
    requires m' == m.(sip := m'.sip) && h' == h.(stored := h'.stored)
    ensures Roots(m', h')
  {
  }

  lemma StoreKeeps(s: State, s': State)
    requires Inv(s) && Store(s, s')
    ensures Inv(s')
  {
    hide Flow, Processing, Storage, Numbering, Roots, Store', StoreWrites, HeapOk;
    StoringAdvances(s.ctl, |s.mem.blocks|, s.hist);
    SipIsCurrent(s.ctl, s.mem, s.db, s.hist);
    StoreNext(s.mem, s.db, s.hist, s.ctl.fin.Closing?);
    RootsIgnoreStored(s.mem, s'.mem, s.hist, s'.hist);
    assert s'.mem.sip == Some(s.mem.blocks[s.hist.stored].batch);
  }

  lemma StoreReleasedKeeps(s: State, s': State)
    requires Inv(s) && StoreReleased(s, s')
    ensures Inv(s')
  {
    hide HeapOk, Numbering, Roots, Store';
  }

  lemma AddBatch(heap: seq<Batch>, heap': seq<Batch>, blocks: seq<L2Block>, baseOpen: bool)
    requires HeapOk(heap) && Numbering(heap, blocks, baseOpen, false)
    requires heap[|heap| - 1].blocks > 0
    requires |heap'| == |heap| + 1 && heap' == heap + [heap'[|heap|]]
    requires heap'[|heap|].number == heap[|heap| - 1].number + 1 && heap'[|heap|].blocks == 0
    ensures HeapOk(heap') && heap'[0] == heap[0] && Numbering(heap', blocks, baseOpen, false)
  {
  }

  lemma NewBatchMemory(m: Memory, m': Memory, h: History, root: Root)
    requires HeapOk(m.heap) && Numbering(m.heap, m.blocks, h.baseOpen, false) && Roots(m, h)
    requires m.heap[m.Wip()].blocks > 0
    requires m' == m.(heap := m.heap + [Batch(m.heap[m.Wip()].number + 1, root, root, 0)])
    ensures HeapOk(m'.heap) && m'.heap[0].number == m.heap[0].number
    ensures Numbering(m'.heap, m'.blocks, h.baseOpen, false) && Roots(m', h)
  {
    AddBatch(m.heap, m'.heap, m.blocks, h.baseOpen);
    RootsKept(m, m', h);
  }

  lemma NewBatchKeeps(s: State, s': State, root: Root)
    requires Inv(s) && NewBatch(s, s', root)
    ensures Inv(s')
  {
    if s.mem.heap[s.mem.Wip()].blocks == 0 {
      FinalizerHaltsKeeps(s, s');
    } else {
      OpenBatchKeeps(s, s', root);
    }
  }

  lemma OpenBatchKeeps(s: State, s': State, root: Root)
    requires Inv(s) && s.ctl.fin.Running? && s.mem.heap[s.mem.Wip()].blocks > 0
    requires s' == s.(mem := s.mem.(heap := s.mem.heap + [Batch(s.mem.heap[s.mem.Wip()].number + 1, root, root, 0)]))
    ensures Inv(s')
  {
    NewBatchMemory(s.mem, s'.mem, s.hist, root);
  }

  lemma RootsIgnoreSip(m: Memory, m': Memory, h: History)
    requires Roots(m, h) && m' == m.(sip := m'.sip)
    ensures Roots(m', h)
  {
  }

  lemma ReorgCloseSipKeeps(s: State, s': State, outcome: DbOutcome)
    requires Inv(s) && ReorgCloseSip(s, s', outcome)
    ensures Inv(s')
  {
    hide Inv;
    var m := s.mem;
    if m.sip.Some? && m.heap[m.sip.value].number != m.heap[m.Wip()].number && m.heap[m.sip.value].blocks > 0 {
      match outcome {
        case Commits => CloseSipKeeps(s, s');
        case CloseFails => LeaveCloseKeeps(s, s');
      }
    } else {
      LeaveCloseKeeps(s, s');
    }
  }

  lemma HaltBeginKeeps(s: State, s': State)
    requires Inv(s) && HaltBegin(s, s')
    ensures Inv(s')
  {
    hide HeapOk, Numbering, Roots, Store';
  }

  lemma HaltProcessedKeeps(s: State, s': State)
    requires Inv(s) && HaltProcessed(s, s')
    ensures Inv(s')
  {
    hide HeapOk, Numbering, Roots, Store';
  }

  lemma HaltStoredKeeps(s: State, s': State)
    requires Inv(s) && HaltStored(s, s')
    ensures Inv(s')
  {
    hide HeapOk, Numbering, Roots, Store';
  }

  lemma HaltCloseSipKeeps(s: State, s': State, outcome: DbOutcome)
    requires Inv(s) && HaltCloseSip(s, s', outcome)
    ensures Inv(s')
  {
    hide Inv;
    if s.mem.sip.Some? && s.mem.heap[s.mem.sip.value].blocks > 0 && outcome.Commits? {
      CloseSipKeeps(s, s');
    } else {
      LeaveCloseKeeps(s, s');
    }
  }

  lemma LeaveCloseKeeps(s: State, s': State)
    requires Inv(s) && (s.ctl.fin.ReorgClose? || s.ctl.fin.HaltClose?)
    requires s' == s.(ctl := s.ctl.(fin := s'.ctl.fin))
    requires s'.ctl.fin.Running? || s'.ctl.fin.FinHalted? || (s.ctl.fin.ReorgClose? && s'.ctl.fin.ReorgInit?)
    ensures Inv(s')
  {
    hide BlockChain, BatchStarts, PipOk, Numbering, DbOk, Flat, Rows, Roots;
  }

  lemma CloseSipKeeps(s: State, s': State)
    requires Inv(s) && s.mem.sip.Some?
    requires (s.ctl.fin.ReorgClose? && s'.ctl.fin.ReorgInit?) || (s.ctl.fin.HaltClose? && s'.ctl.fin.FinHalted?)
    requires s' == s.(ctl := s.ctl.(fin := s'.ctl.fin), mem := s.mem.(sip := None), db := CloseLast(s.db))
    ensures Inv(s')
  {
    hide BlockChain, BatchStarts, PipOk, Numbering, DbOk, Flat, Rows;
    DbClose(s.db);
    RootsIgnoreSip(s.mem, s'.mem, s.hist);
  }

  lemma ChainExtends(blocks: seq<L2Block>, blocks': seq<L2Block>, n: nat, baseRoot: Root)
    requires BlockChain(blocks, n, baseRoot) && n < |blocks| == |blocks'|
    requires blocks' == blocks[n := blocks'[n]] && blocks'[n].start == RootAfter(blocks, n, baseRoot)
    ensures BlockChain(blocks', n + 1, baseRoot)
  {
    forall i: nat | i < n + 1 ensures blocks'[i].start == RootAfter(blocks', i, baseRoot) {
      assert RootAfter(blocks', i, baseRoot) == RootAfter(blocks, i, baseRoot);
    }
  }

  lemma StartsExtend(heap: seq<Batch>, heap': seq<Batch>, blocks: seq<L2Block>, blocks': seq<L2Block>,
                     n: nat, baseOpen: bool)
    requires BatchStarts(heap, blocks, n, baseOpen) && n < |blocks| == |blocks'| && |heap'| == |heap|
    requires forall k | 0 <= k < |heap| :: heap'[k].initialRoot == heap[k].initialRoot
    requires blocks' == blocks[n := blocks'[n]] && blocks'[n].batch == blocks[n].batch < |heap|
    requires BatchBefore(blocks, n, baseOpen) < blocks[n].batch ==>
      heap[blocks[n].batch].initialRoot == blocks'[n].start
    ensures BatchStarts(heap', blocks', n + 1, baseOpen)
  {
    forall i: nat | i < n + 1 && BatchBefore(blocks', i, baseOpen) < blocks'[i].batch
      ensures blocks'[i].batch < |heap'| && heap'[blocks'[i].batch].initialRoot == blocks'[i].start
    {
      assert BatchBefore(blocks', i, baseOpen) == BatchBefore(blocks, i, baseOpen);
    }
  }

  lemma EndPip(m: Memory, m': Memory, h: History, end: Root)
    requires h.failed.None? && h.executed < |m.blocks| && PipOk(m, h.(failed := Some(h.executed)))
    requires var b := m.blocks[h.executed].batch;
      && m.pip == Some(b) && b < |m.heap|
      && m' == m.(blocks := m.blocks[h.executed := m.blocks[h.executed].(start := m.heap[b].finalRoot, end := end)],
                  heap := m.heap[b := m.heap[b].(finalRoot := end)])
    ensures PipOk(m', h.(executed := h.executed + 1))
  {
  }

  /** The block ends in the batch that was made ready for it. */
  lemma EndMemory(m: Memory, m': Memory, h: History, closing: bool, end: Root)
    requires HeapOk(m.heap) && Numbering(m.heap, m.blocks, h.baseOpen, closing)
    requires h.failed.None? && h.executed < |m.blocks| && Roots(m, h.(failed := Some(h.executed)))
    requires var b := m.blocks[h.executed].batch;
      && m.pip == Some(b) && b < |m.heap|
      && (b > BatchBefore(m.blocks, h.executed, h.baseOpen) ==> m.heap[b].initialRoot == m.heap[b].finalRoot)
      && m' == m.(blocks := m.blocks[h.executed := m.blocks[h.executed].(start := m.heap[b].finalRoot, end := end)],
                  heap := m.heap[b := m.heap[b].(finalRoot := end)])
    ensures HeapOk(m'.heap) && m'.heap[0].number == m.heap[0].number
    ensures Numbering(m'.heap, m'.blocks, h.baseOpen, closing)
    ensures Roots(m', h.(executed := h.executed + 1))
  {
    hide BlockChain, BatchStarts, Numbering, HeapOk;
    NumberingKept(m.heap, m'.heap, m.blocks, m'.blocks, h.baseOpen, closing);
    EndPip(m, m', h, end);
    assert m'.blocks[h.executed].start == RootAfter(m.blocks, h.executed, h.baseRoot);
    hide RootAfter, BatchBefore, PipOk;
    ChainExtends(m.blocks, m'.blocks, h.executed, h.baseRoot);
    StartsExtend(m.heap, m'.heap, m.blocks, m'.blocks, h.executed, h.baseOpen);
  }

  lemma RunMemory(m: Memory, m': Memory, h: History, closing: bool, end: Root)
    requires HeapOk(m.heap) && Numbering(m.heap, m.blocks, h.baseOpen, closing) && Roots(m, h)
    requires h.failed.None? && h.executed < |m.blocks|
    requires m' == Run(m, h.executed, end)
    ensures HeapOk(m'.heap) && m'.heap[0].number == m.heap[0].number
    ensures Numbering(m'.heap, m'.blocks, h.baseOpen, closing)
    ensures Roots(m', h.(executed := h.executed + 1))
    ensures m'.sip == m.sip && |m'.blocks| == |m.blocks| && |m'.heap| == |m.heap|
    ensures m'.blocks == m.blocks[h.executed := m'.blocks[h.executed]]
    ensures m'.blocks[h.executed].batch == m.blocks[h.executed].batch
  {
    var p := Propagate(m, m.blocks[h.executed].batch);
    PropagateMemory(m, p, h, closing);
    hide Propagate, Roots, Numbering, HeapOk, BatchBefore;
    EndMemory(p, m', h, closing, end);
  }

  lemma StoreBeforeRun(db: seq<DbBatch>, first: nat, blocks: seq<L2Block>, blocks': seq<L2Block>, h: History, i: nat)
    requires Store'(db, first, blocks, h) && h.stored <= i < |blocks|
    requires |blocks'| == |blocks| && blocks' == blocks[i := blocks'[i]]
    ensures Store'(db, first, blocks', h)
  {
    assert blocks'[..h.stored] == blocks[..h.stored];
  }

  lemma ExecuteOkControl(c: Control, closed: nat, h: History)
    requires Flow(c) && Processing(c, closed, h) && Storage(c, h) && c.proc.Executing?
    ensures c.proc.block == h.executed == closed - 1 && h.failed.None? && !c.reorg && h.stored <= h.executed
    ensures c.toProcessWG > 0
    ensures var c' := c.(proc := WaitingStore(c.proc.block));
            var h' := h.(executed := h.executed + 1);
            Flow(c') && Processing(c', closed, h') && Storage(c', h')
  {
  }

  lemma SipAfterRun(c: Control, c': Control, m: Memory, m': Memory, db: seq<DbBatch>, h: History, h': History)
    requires Sip(c, m, db, h) && c.toProcessWG > 0
    requires h' == h.(executed := h'.executed, failed := h'.failed)
    requires m'.sip == m.sip && |m'.blocks| == |m.blocks|
    requires forall i | 0 <= i < |m.blocks| :: m'.blocks[i].batch == m.blocks[i].batch
    ensures Sip(c', m', db, h')
  {
  }

  lemma ExecuteOkKeeps(s: State, s': State, end: Root)
    requires Inv(s) && ExecuteOk(s, s', end)
    ensures Inv(s')
  {
    hide Flow, Processing, Storage, Numbering, Roots, Store', Sip, Run;
    ExecuteOkControl(s.ctl, |s.mem.blocks|, s.hist);
    RunMemory(s.mem, s'.mem, s.hist, s.ctl.fin.Closing?, end);
    StoreBeforeRun(s.db, s.mem.heap[0].number, s.mem.blocks, s'.mem.blocks, s.hist, s.hist.executed);
    SipAfterRun(s.ctl, s'.ctl, s.mem, s'.mem, s.db, s.hist, s'.hist);
    StoreIgnoresExecuted(s.db, s.mem.heap[0].number, s'.mem.blocks, s.hist, s'.hist);
  }

  lemma StoreIgnoresExecuted(db: seq<DbBatch>, first: nat, blocks: seq<L2Block>, h: History, h': History)
    requires Store'(db, first, blocks, h)
    requires h' == h.(executed := h'.executed, failed := h'.failed)
    ensures Store'(db, first, blocks, h')
  {
  }

  lemma ExecuteFailControl(c: Control, closed: nat, h: History)
    requires Flow(c) && Processing(c, closed, h) && Storage(c, h) && c.proc.Executing?
    ensures c.proc.block == h.executed < closed && h.failed.None? && c.toProcessWG > 0
    ensures var c' := c.(proc := Failed);
            var h' := h.(failed := Some(c.proc.block));
            Flow(c') && Processing(c', closed, h') && Storage(c', h')
  {
  }

  lemma ExecuteFailKeeps(s: State, s': State)
    requires Inv(s) && ExecuteFail(s, s')
    ensures Inv(s')
  {
    hide Flow, Processing, Storage, Numbering, Roots, Store', Sip, Propagate;
    ExecuteFailControl(s.ctl, |s.mem.blocks|, s.hist);
    PropagateMemory(s.mem, s'.mem, s.hist, s.ctl.fin.Closing?);
    SipAfterRun(s.ctl, s'.ctl, s.mem, s'.mem, s.db, s.hist, s'.hist);
    StoreIgnoresExecuted(s.db, s.mem.heap[0].number, s.mem.blocks, s.hist, s'.hist);
  }

  lemma InitKeeps(db: seq<DbBatch>, counter: nat, lastWasReorg: bool)
    requires DbOk(db)
    ensures CanInit(db) && Inv(InitState(db, counter, lastWasReorg))
  {
  }

  // ---- runs ----

  lemma FinalizerKeeps(s: State, s': State)
    requires Inv(s) && FinalizerStep(s, s')
    ensures Inv(s')
  {
    if CloseBegin(s, s') { CloseBeginKeeps(s, s'); }
    else if CloseAdd(s, s') { CloseAddKeeps(s, s'); }
    else if CloseSend(s, s') { CloseSendKeeps(s, s'); }
    else if CloseEnd(s, s') { CloseEndKeeps(s, s'); }
    else if SyncBegin(s, s') { SyncBeginKeeps(s, s'); }
    else if SyncProcessed(s, s') { SyncProcessedKeeps(s, s'); }
    else if SyncEnd(s, s') { SyncEndKeeps(s, s'); }
    else if FinalizerHalts(s, s') { FinalizerHaltsKeeps(s, s'); }
    else if ReorgBegin(s, s') { ReorgBeginKeeps(s, s'); }
    else if ReorgProcessed(s, s') { ReorgProcessedKeeps(s, s'); }
    else if ReorgStored(s, s') { ReorgStoredKeeps(s, s'); }
    else if ReorgReset(s, s') { InitKeeps(s.db, s.mem.counter, s.ctl.lastWasReorg); }
    else if root :| NewBatch(s, s', root) { NewBatchKeeps(s, s', root); }
    else if outcome :| ReorgCloseSip(s, s', outcome) { ReorgCloseSipKeeps(s, s', outcome); }
    else if HaltBegin(s, s') { HaltBeginKeeps(s, s'); }
    else if HaltProcessed(s, s') { HaltProcessedKeeps(s, s'); }
    else if HaltStored(s, s') { HaltStoredKeeps(s, s'); }
    else { var outcome :| HaltCloseSip(s, s', outcome); HaltCloseSipKeeps(s, s', outcome); }
  }

  lemma ProcessorKeeps(s: State, s': State)
    requires Inv(s) && ProcessorStep(s, s')
    ensures Inv(s')
  {
    if Receive(s, s') { ReceiveKeeps(s, s'); }
    else if CheckFlag(s, s') { CheckFlagKeeps(s, s'); }
    else if ExecuteFail(s, s') { ExecuteFailKeeps(s, s'); }
    else if FlagReorg(s, s') { FlagReorgKeeps(s, s'); }
    else if ForwardAdd(s, s') { ForwardAddKeeps(s, s'); }
    else if ForwardSend(s, s') { ForwardSendKeeps(s, s'); }
    else if ProcessDone(s, s') { ProcessDoneKeeps(s, s'); }
    else { var end :| ExecuteOk(s, s', end); ExecuteOkKeeps(s, s', end); }
  }

  lemma NextKeeps(s: State, s': State)
    requires Inv(s) && Next(s, s')
    ensures Inv(s')
  {
    if FinalizerStep(s, s') { FinalizerKeeps(s, s'); }
    else if ProcessorStep(s, s') { ProcessorKeeps(s, s'); }
    else if TakeForStore(s, s') { TakeForStoreKeeps(s, s'); }
    else if Store(s, s') { StoreKeeps(s, s'); }
    else if StoreReleased(s, s') { StoreReleasedKeeps(s, s'); }
    else { InitKeeps(s.db, 0, false); }
  }

  /** A run: the node is started on a sound database and any goroutine moves next. */
  ghost predicate IsRun(run: seq<State>) {
    && run != [] && DbOk(run[0].db) && CanInit(run[0].db)
    && run[0] == InitState(run[0].db, 0, false)
    && forall i: nat | i + 1 < |run| :: StepAt(run, i)
  }

  ghost predicate StepAt(run: seq<State>, i: nat)
    requires i + 1 < |run|
  {
    Next(run[i], run[i + 1])
  }

  lemma RunStarts(run: seq<State>)
    requires IsRun(run)
    ensures Inv(run[0])
  {
    InitKeeps(run[0].db, 0, false);
  }

  lemma StepKeeps(run: seq<State>, i: nat)
    requires 0 < i < |run| && StepAt(run, i - 1) && Inv(run[i - 1])
    ensures Inv(run[i])
  {
    NextKeeps(run[i - 1], run[i]);
  }

  lemma {:induction false} RunKeeps(run: seq<State>, i: nat)
    requires IsRun(run) && i < |run|
    ensures Inv(run[i])
  {
    hide Inv, Next, InitState, DbOk, StepAt;
    if i == 0 {
      RunStarts(run);
    } else {
      RunKeeps(run, i - 1);
      StepKeeps(run, i);
    }
  }
}
