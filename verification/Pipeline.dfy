/** sequencer/l2block.go and sequencer/batch.go: the finalizer, the L2-block processor
    and the L2-block storer as a transition system. The three goroutines share the
    batches, two channels, two counted wait groups and the reorg flag; a step is one
    action of one goroutine, and any goroutine may move next. */
module Pipeline {
  import opened Wrappers

  type Root = nat

  const BUFFER_SIZE: nat := 100  // pendingL2BlocksBufferSize

  /** `blocks` is countOfL2Blocks. */
  datatype Batch = Batch(number: nat, initialRoot: Root, finalRoot: Root, blocks: nat)

  /** A closed L2 block. `batch` is its batch pointer, an index into Memory.heap; the
      roots its execution starts from and ends in are filled in by the processor. */
  datatype L2Block = L2Block(id: nat, batch: nat, start: Root, end: Root)

  datatype StoredBlock = StoredBlock(id: nat, batchNumber: nat, start: Root, end: Root)

  /** A batch row of the state database. `initialRoot` is the root it was inserted
      with, `root` the StateRoot column. */
  datatype DbBatch = DbBatch(number: nat, initialRoot: Root, root: Root, open: bool, blocks: seq<StoredBlock>)

  datatype FinPhase =
    | Running                   // between L2 blocks or filling the wip one
    | Closing                   // closeWIPL2Block, waiting for the previous block to be processed
    | Sending(block: nat)       // counted in the wait group, not yet in the channel
    | Closed                    // sent; the state root sync may follow
    | SyncProcess | SyncStore   // waitPendingL2Blocks of the state root sync
    | ReorgProcess | ReorgStore // waitPendingL2Blocks of processL2BlockReorg
    | ReorgClose | ReorgInit
    | HaltProcess | HaltStore   // waitPendingL2Blocks before halting on a batch number
    | HaltClose
    | FinHalted

  datatype ProcPhase =
    | ProcIdle
    | Received(block: nat)     // out of the channel, reorg flag not yet looked at
    | Executing(block: nat)
    | Failed                   // processL2Block returned an error
    | WaitingStore(block: nat) // waiting for the previous block to be stored
    | Forwarding(block: nat)   // counted in the store wait group, not yet in the channel
    | ProcDone                 // about to call Done
    | ProcHalted

  datatype StorePhase = StoreIdle | Storing(block: nat) | StoreDone

  /** Where each goroutine stands. L2 blocks are passed by pointer: indices into Memory.blocks. */
  datatype Control = Control(
    fin: FinPhase, proc: ProcPhase, sto: StorePhase,
    toProcess: seq<nat>, toProcessWG: nat,
    toStore: seq<nat>, toStoreWG: nat,
    reorg: bool, lastWasReorg: bool)

  /** The batches allocated and the L2 blocks closed since the last initWIPBatch; the
      last batch is the wip batch. */
  datatype Memory = Memory(heap: seq<Batch>, blocks: seq<L2Block>, pip: Option<nat>, sip: Option<nat>, counter: nat)
  {
    function Wip(): int { |heap| - 1 }
  }

  /** What the store held at the last initWIPBatch, whether its last batch was open and
      which root it ended in; how many L2 blocks were executed and stored since, and which
      closed one failed. No step reads any of it. */
  datatype History = History(
    base: seq<StoredBlock>, baseOpen: bool, baseRoot: Root,
    executed: nat, stored: nat, failed: Option<nat>)

  datatype State = State(ctl: Control, mem: Memory, db: seq<DbBatch>, hist: History)

  function Last(db: seq<DbBatch>): DbBatch
    requires db != []
  {
    db[|db| - 1]
  }

  /** Every stored L2 block, in store order. */
  function Flat(db: seq<DbBatch>): seq<StoredBlock> {
    if db == [] then [] else Flat(db[..|db| - 1]) + Last(db).blocks
  }

  // ---- the database writes ----

  function CloseLast(db: seq<DbBatch>): seq<DbBatch>
    requires db != []
  {
    db[|db| - 1 := Last(db).(open := false)]
  }

  function InsertBatch(db: seq<DbBatch>, number: nat, root: Root): seq<DbBatch> {
    db + [DbBatch(number, root, root, true, [])]
  }

  function AppendBlock(db: seq<DbBatch>, block: StoredBlock): seq<DbBatch>
    requires db != []
  {
    db[|db| - 1 := Last(db).(blocks := Last(db).blocks + [block], root := block.end)]
  }

  // ---- initWIPBatch ----

  /** There is a last batch, and setWIPBatch finds the one before an open one. */
  predicate CanInit(db: seq<DbBatch>) {
    db != [] && (Last(db).open ==> |db| >= 2)
  }

  /** A closed last batch is followed by a new one; an open one is loaded back and is
      the wip, pip and sip batch at once. */
  function InitState(db: seq<DbBatch>, counter: nat, lastWasReorg: bool): State
    requires CanInit(db)
  {
    var last := Last(db);
    var wip := if last.open then Batch(last.number, db[|db| - 2].root, last.root, |last.blocks|)
               else Batch(last.number + 1, last.root, last.root, 0);
    var current := if last.open then Some(0) else None;
    State(Control(Running, ProcIdle, StoreIdle, [], 0, [], 0, false, lastWasReorg),
          Memory([wip], [], current, current, counter),
          db,
          History(Flat(db), last.open, last.root, 0, 0, None))
  }

  // ---- finalizer ----

  /** closeWIPL2Block: the block is counted in its batch before anything else. */
  ghost predicate CloseBegin(s: State, s': State) {
    && s.ctl.fin.Running? && s.mem.heap != []
    && var wip := s.mem.heap[s.mem.Wip()];
       s' == s.(ctl := s.ctl.(fin := Closing),
                mem := s.mem.(heap := s.mem.heap[s.mem.Wip() := wip.(blocks := wip.blocks + 1)]))
  }

  ghost predicate CloseAdd(s: State, s': State) {
    && s.ctl.fin.Closing? && s.ctl.toProcessWG == 0 && s.mem.heap != []
    && s' == s.(ctl := s.ctl.(fin := Sending(|s.mem.blocks|), toProcessWG := s.ctl.toProcessWG + 1),
                mem := s.mem.(blocks := s.mem.blocks + [L2Block(s.mem.counter, s.mem.Wip(), 0, 0)],
                              counter := s.mem.counter + 1))
  }

  ghost predicate CloseSend(s: State, s': State) {
    && s.ctl.fin.Sending? && |s.ctl.toProcess| < BUFFER_SIZE
    && s' == s.(ctl := s.ctl.(fin := Closed, toProcess := s.ctl.toProcess + [s.ctl.fin.block]))
  }

  ghost predicate CloseEnd(s: State, s': State) {
    s.ctl.fin.Closed? && s' == s.(ctl := s.ctl.(fin := Running))
  }

  ghost predicate SyncBegin(s: State, s': State) {
    s.ctl.fin.Closed? && s' == s.(ctl := s.ctl.(fin := SyncProcess))
  }

  ghost predicate SyncProcessed(s: State, s': State) {
    s.ctl.fin.SyncProcess? && s.ctl.toProcessWG == 0 && s' == s.(ctl := s.ctl.(fin := SyncStore))
  }

  predicate SipInHeap(m: Memory) {
    m.heap != [] && (m.sip.Some? ==> m.sip.value < |m.heap|)
  }

  /** The check made when every pending block is processed and stored. */
  predicate SyncCheckFails(s: State)
    requires SipInHeap(s.mem) && s.mem.sip.Some?
  {
    && s.mem.heap[s.mem.Wip()].number != s.mem.heap[s.mem.sip.value].number
    && !(s.ctl.reorg && s.mem.heap[s.mem.Wip()].blocks <= 2)
  }

  /** A nil sipBatch here is a nil dereference: the process dies, which is Restart. */
  ghost predicate SyncEnd(s: State, s': State) {
    && s.ctl.fin.SyncStore? && s.ctl.toStoreWG == 0
    && SipInHeap(s.mem) && s.mem.sip.Some?
    && s' == s.(ctl := s.ctl.(fin := if SyncCheckFails(s) then FinHalted else Running))
  }

  /** closeAndOpenNewWIPBatch without forced batches; `root` is the wip batch's
      tx-by-tx root. Closing a batch without L2 blocks halts. */
  ghost predicate NewBatch(s: State, s': State, root: Root) {
    && s.ctl.fin.Running? && s.mem.heap != []
    && var wip := s.mem.heap[s.mem.Wip()];
       s' == if wip.blocks == 0 then s.(ctl := s.ctl.(fin := FinHalted))
             else s.(mem := s.mem.(heap := s.mem.heap + [Batch(wip.number + 1, root, root, 0)]))
  }

  ghost predicate FinalizerHalts(s: State, s': State) {
    s.ctl.fin.Running? && s' == s.(ctl := s.ctl.(fin := FinHalted))
  }

  ghost predicate ReorgBegin(s: State, s': State) {
    s.ctl.fin.Running? && s.ctl.reorg && s' == s.(ctl := s.ctl.(fin := ReorgProcess))
  }

  ghost predicate ReorgProcessed(s: State, s': State) {
    s.ctl.fin.ReorgProcess? && s.ctl.toProcessWG == 0 && s' == s.(ctl := s.ctl.(fin := ReorgStore))
  }

  ghost predicate ReorgStored(s: State, s': State) {
    s.ctl.fin.ReorgStore? && s.ctl.toStoreWG == 0 && s' == s.(ctl := s.ctl.(fin := ReorgClose))
  }

  /** How finalizeSIPBatch ends. A commit that reports an error, whether or not it took
      effect, ends the process: the message asks the sip batch, already nil, for its number.
      That is Restart, before or after the step that commits. */
  datatype DbOutcome = Commits | CloseFails

  /** The sip batch is closed first when it is not the wip batch. When the close fails
      nothing changes, and the finalizer goes on with the reorg flag still set and tries
      again later. */
  ghost predicate ReorgCloseSip(s: State, s': State, outcome: DbOutcome) {
    && s.ctl.fin.ReorgClose? && SipInHeap(s.mem) && s.db != []
    && if s.mem.sip.Some? && s.mem.heap[s.mem.sip.value].number != s.mem.heap[s.mem.Wip()].number then
         if s.mem.heap[s.mem.sip.value].blocks == 0 then s' == s.(ctl := s.ctl.(fin := FinHalted))
         else match outcome
           case Commits =>
             s' == s.(ctl := s.ctl.(fin := ReorgInit), mem := s.mem.(sip := None), db := CloseLast(s.db))
           case CloseFails =>
             s' == s.(ctl := s.ctl.(fin := Running))
       else s' == s.(ctl := s.ctl.(fin := ReorgInit))
  }

  /** The next batch is the one to halt on: the wip batch is closed, and the sip batch too
      once every pending block is processed and stored. */
  ghost predicate HaltBegin(s: State, s': State) {
    && s.ctl.fin.Running? && s.mem.heap != [] && s.mem.heap[s.mem.Wip()].blocks > 0
    && s' == s.(ctl := s.ctl.(fin := HaltProcess))
  }

  ghost predicate HaltProcessed(s: State, s': State) {
    s.ctl.fin.HaltProcess? && s.ctl.toProcessWG == 0 && s' == s.(ctl := s.ctl.(fin := HaltStore))
  }

  ghost predicate HaltStored(s: State, s': State) {
    s.ctl.fin.HaltStore? && s.ctl.toStoreWG == 0 && s' == s.(ctl := s.ctl.(fin := HaltClose))
  }

  /** Whatever comes of closing the sip batch, the finalizer halts. */
  ghost predicate HaltCloseSip(s: State, s': State, outcome: DbOutcome) {
    && s.ctl.fin.HaltClose? && SipInHeap(s.mem) && s.db != []
    && s' == if s.mem.sip.Some? && s.mem.heap[s.mem.sip.value].blocks > 0 && outcome.Commits?
             then s.(ctl := s.ctl.(fin := FinHalted), mem := s.mem.(sip := None), db := CloseLast(s.db))
             else s.(ctl := s.ctl.(fin := FinHalted))
  }

  ghost predicate ReorgReset(s: State, s': State) {
    s.ctl.fin.ReorgInit? && CanInit(s.db) && s' == InitState(s.db, s.mem.counter, s.ctl.lastWasReorg)
  }

  // ---- processor ----

  ghost predicate Receive(s: State, s': State) {
    && s.ctl.proc.ProcIdle? && s.ctl.toProcess != []
    && s' == s.(ctl := s.ctl.(proc := Received(s.ctl.toProcess[0]), toProcess := s.ctl.toProcess[1..]))
  }

  /** With the reorg flag set the channel is flushed. */
  ghost predicate CheckFlag(s: State, s': State) {
    && s.ctl.proc.Received?
    && s' == s.(ctl := s.ctl.(proc := if s.ctl.reorg then ProcDone else Executing(s.ctl.proc.block)))
  }

  /** The head of processL2Block: the first block of another batch hands that batch
      the previous batch's final root. */
  function Propagate(m: Memory, batch: nat): (m': Memory)
    requires batch < |m.heap| && (m.pip.Some? ==> m.pip.value < |m.heap|)
    ensures m'.pip.Some? && m'.pip.value < |m'.heap| == |m.heap|
  {
    if m.pip.None? then m.(pip := Some(batch))
    else if m.heap[m.pip.value].number != m.heap[batch].number then
      var root := m.heap[m.pip.value].finalRoot;
      m.(pip := Some(batch),
         heap := m.heap[batch := m.heap[batch].(initialRoot := root, finalRoot := root)])
    else m
  }

  ghost predicate CanExecute(s: State) {
    && s.ctl.proc.Executing? && s.ctl.proc.block < |s.mem.blocks|
    && s.mem.blocks[s.ctl.proc.block].batch < |s.mem.heap|
    && (s.mem.pip.Some? ==> s.mem.pip.value < |s.mem.heap|)
  }

  /** The block is executed from the pip batch's final root and ends in `end`. */
  function Run(m: Memory, block: nat, end: Root): (m': Memory)
    requires block < |m.blocks| && m.blocks[block].batch < |m.heap|
    requires m.pip.Some? ==> m.pip.value < |m.heap|
  {
    var batch := m.blocks[block].batch;
    var p := Propagate(m, batch);
    p.(blocks := p.blocks[block := p.blocks[block].(start := p.heap[p.pip.value].finalRoot, end := end)],
       heap := p.heap[batch := p.heap[batch].(finalRoot := end)])
  }

  /** The executor accepts the block and it fits in the batch. */
  ghost predicate ExecuteOk(s: State, s': State, end: Root) {
    && CanExecute(s)
    && s' == s.(ctl := s.ctl.(proc := WaitingStore(s.ctl.proc.block)),
                mem := Run(s.mem, s.ctl.proc.block, end),
                hist := s.hist.(executed := s.hist.executed + 1))
  }

  ghost predicate ExecuteFail(s: State, s': State) {
    && CanExecute(s)
    && s' == s.(ctl := s.ctl.(proc := Failed),
                mem := Propagate(s.mem, s.mem.blocks[s.ctl.proc.block].batch),
                hist := s.hist.(failed := Some(s.ctl.proc.block)))
  }

  /** A second failure in a row halts the processor before it calls Done. */
  ghost predicate FlagReorg(s: State, s': State) {
    && s.ctl.proc.Failed?
    && s' == s.(ctl := if s.ctl.lastWasReorg then s.ctl.(proc := ProcHalted)
                       else s.ctl.(proc := ProcDone, reorg := true, lastWasReorg := true))
  }

  ghost predicate ForwardAdd(s: State, s': State) {
    && s.ctl.proc.WaitingStore? && s.ctl.toStoreWG == 0
    && s' == s.(ctl := s.ctl.(proc := Forwarding(s.ctl.proc.block), toStoreWG := s.ctl.toStoreWG + 1))
  }

  ghost predicate ForwardSend(s: State, s': State) {
    && s.ctl.proc.Forwarding? && |s.ctl.toStore| < BUFFER_SIZE
    && s' == s.(ctl := s.ctl.(proc := ProcDone, toStore := s.ctl.toStore + [s.ctl.proc.block],
                              lastWasReorg := false))
  }

  ghost predicate ProcessDone(s: State, s': State) {
    && s.ctl.proc.ProcDone? && s.ctl.toProcessWG > 0
    && s' == s.(ctl := s.ctl.(proc := ProcIdle, toProcessWG := s.ctl.toProcessWG - 1))
  }

  // ---- storer ----

  ghost predicate TakeForStore(s: State, s': State) {
    && s.ctl.sto.StoreIdle? && s.ctl.toStore != []
    && s' == s.(ctl := s.ctl.(sto := Storing(s.ctl.toStore[0]), toStore := s.ctl.toStore[1..]))
  }

  /** The block belongs to the batch that is open in the store. */
  predicate InSip(m: Memory, batch: nat)
    requires SipInHeap(m) && batch < |m.heap|
  {
    m.sip.Some? && m.heap[m.sip.value].number == m.heap[batch].number
  }

  /** The writes of storeL2Block: a block of another batch first closes the sip batch
      and inserts its own. */
  function StoreWrites(m: Memory, db: seq<DbBatch>, b: L2Block): seq<DbBatch>
    requires SipInHeap(m) && b.batch < |m.heap| && db != []
  {
    var batch := m.heap[b.batch];
    var row := StoredBlock(b.id, batch.number, b.start, b.end);
    if InSip(m, b.batch) then AppendBlock(db, row)
    else
      var closed := if m.sip.Some? then CloseLast(db) else db;
      AppendBlock(InsertBatch(closed, batch.number, batch.initialRoot), row)
  }

  ghost predicate CanStore(s: State) {
    && s.ctl.sto.Storing? && s.db != [] && SipInHeap(s.mem)
    && s.ctl.sto.block < |s.mem.blocks|
    && s.mem.blocks[s.ctl.sto.block].batch < |s.mem.heap|
  }

  /** storeL2Block, one database transaction. An error, or closing a batch without L2
      blocks, ends the process, which is Restart. */
  ghost predicate Store(s: State, s': State) {
    && CanStore(s)
    && var b := s.mem.blocks[s.ctl.sto.block];
       && (InSip(s.mem, b.batch) || s.mem.sip.None? || s.mem.heap[s.mem.sip.value].blocks > 0)
       && s' == State(s.ctl.(sto := StoreDone),
                      s.mem.(sip := if InSip(s.mem, b.batch) then s.mem.sip else Some(b.batch)),
                      StoreWrites(s.mem, s.db, b),
                      s.hist.(stored := s.hist.stored + 1))
  }

  ghost predicate StoreReleased(s: State, s': State) {
    && s.ctl.sto.StoreDone? && s.ctl.toStoreWG > 0
    && s' == s.(ctl := s.ctl.(sto := StoreIdle, toStoreWG := s.ctl.toStoreWG - 1))
  }

  // ---- the system ----

  ghost predicate FinalizerStep(s: State, s': State) {
    || CloseBegin(s, s') || CloseAdd(s, s') || CloseSend(s, s') || CloseEnd(s, s')
    || SyncBegin(s, s') || SyncProcessed(s, s') || SyncEnd(s, s')
    || (exists root :: NewBatch(s, s', root)) || FinalizerHalts(s, s')
    || ReorgBegin(s, s') || ReorgProcessed(s, s') || ReorgStored(s, s')
    || (exists outcome :: ReorgCloseSip(s, s', outcome)) || ReorgReset(s, s')
    || HaltBegin(s, s') || HaltProcessed(s, s') || HaltStored(s, s')
    || (exists outcome :: HaltCloseSip(s, s', outcome))
  }

  ghost predicate ProcessorStep(s: State, s': State) {
    || Receive(s, s') || CheckFlag(s, s')
    || (exists end :: ExecuteOk(s, s', end)) || ExecuteFail(s, s')
    || FlagReorg(s, s') || ForwardAdd(s, s') || ForwardSend(s, s') || ProcessDone(s, s')
  }

  ghost predicate StorerStep(s: State, s': State) {
    TakeForStore(s, s') || Store(s, s') || StoreReleased(s, s')
  }

  /** The process dies at any moment and is started again on the same database. */
  ghost predicate Restart(s: State, s': State) {
    CanInit(s.db) && s' == InitState(s.db, 0, false)
  }

  ghost predicate Next(s: State, s': State) {
    FinalizerStep(s, s') || ProcessorStep(s, s') || StorerStep(s, s') || Restart(s, s')
  }
}
