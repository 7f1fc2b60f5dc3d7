/** etherman/etherman.go: the logs of a block range are turned into blocks with one list per
    kind of event, and per block hash the order in which to read the lists. */
module L1Events {
  import opened Wrappers

  type Hash = nat
  /** what a handler decoded from its log */
  type Item = nat

  datatype Topic =
    | SequenceBatches | SequenceBatchesPreEtrog | UpdateGlobalExitRoot | UpdateL1InfoTree | ForceBatch
    | InitialSequenceBatches | UpdateEtrogSequence | OldVerifyBatchesTrustedAggregator | VerifyBatches
    | SequenceForceBatches | UpdateZkEVMVersion | UpdateRollup | AddExistingRollup | CreateNewRollup
    | Ignored

  /** A log with what its handler decodes from it, the rollup it is about, and whether the
      calls the handler makes answer. */
  datatype Log = Log(hash: Hash, number: nat, topic: Topic, rollup: nat, item: Item, decodes: bool, hasBlock: bool)

  datatype EventOrder =
    | GlobalExitRoots | L1InfoTree | SequencedBatches | InitialSequence | ForcedBatches
    | TrustedVerifyBatch | VerifyBatch | SequencedForceBatches | ForkIDs

  datatype Order = Order(name: EventOrder, pos: nat)

  datatype Block = Block(
    hash: Hash, number: nat, forcedBatches: seq<Item>, sequencedBatches: seq<Item>, verifiedBatches: seq<Item>,
    sequencedForceBatches: seq<Item>, forkIDs: seq<Item>, globalExitRoots: seq<Item>, l1InfoTree: seq<Item>)

  /** The two kinds of sequence share a list, and so do the two kinds of verification. */
  function ListOf(b: Block, name: EventOrder): seq<Item> {
    match name
    case GlobalExitRoots => b.globalExitRoots
    case L1InfoTree => b.l1InfoTree
    case SequencedBatches => b.sequencedBatches
    case InitialSequence => b.sequencedBatches
    case ForcedBatches => b.forcedBatches
    case TrustedVerifyBatch => b.verifiedBatches
    case VerifyBatch => b.verifiedBatches
    case SequencedForceBatches => b.sequencedForceBatches
    case ForkIDs => b.forkIDs
  }

  function Appended(b: Block, name: EventOrder, item: Item): Block {
    match name
    case GlobalExitRoots => b.(globalExitRoots := b.globalExitRoots + [item])
    case L1InfoTree => b.(l1InfoTree := b.l1InfoTree + [item])
    case SequencedBatches => b.(sequencedBatches := b.sequencedBatches + [item])
    case InitialSequence => b.(sequencedBatches := b.sequencedBatches + [item])
    case ForcedBatches => b.(forcedBatches := b.forcedBatches + [item])
    case TrustedVerifyBatch => b.(verifiedBatches := b.verifiedBatches + [item])
    case VerifyBatch => b.(verifiedBatches := b.verifiedBatches + [item])
    case SequencedForceBatches => b.(sequencedForceBatches := b.sequencedForceBatches + [item])
    case ForkIDs => b.(forkIDs := b.forkIDs + [item])
  }

  function NewBlock(hash: Hash, number: nat): Block {
    Block(hash, number, [], [], [], [], [], [], [])
  }

  /** The order name a topic is recorded under, None when it is ignored or not supported. */
  function OrderOf(topic: Topic): Option<EventOrder> {
    match topic
    case SequenceBatches => Some(SequencedBatches)
    case SequenceBatchesPreEtrog => Some(SequencedBatches)
    case UpdateGlobalExitRoot => Some(GlobalExitRoots)
    case UpdateL1InfoTree => Some(L1InfoTree)
    case ForceBatch => Some(ForcedBatches)
    case InitialSequenceBatches => Some(InitialSequence)
    case UpdateEtrogSequence => None
    case OldVerifyBatchesTrustedAggregator => Some(TrustedVerifyBatch)
    case VerifyBatches => Some(VerifyBatch)
    case SequenceForceBatches => Some(SequencedForceBatches)
    case UpdateZkEVMVersion => Some(ForkIDs)
    case UpdateRollup => Some(ForkIDs)
    case AddExistingRollup => Some(ForkIDs)
    case CreateNewRollup => Some(ForkIDs)
    case Ignored => None
  }

  /** Fork changes of another rollup are ignored. */
  predicate OtherRollup(log: Log, rollup: nat) {
    log.topic in {UpdateRollup, AddExistingRollup, CreateNewRollup} && log.rollup != rollup
  }

  predicate AlwaysReadsBlock(topic: Topic) {
    topic in {InitialSequenceBatches, UpdateGlobalExitRoot, ForceBatch, SequenceForceBatches}
  }

  // ---- what should come out ----

  /** An event as the synchronizer reads it back: the item is missing if its position is. */
  datatype Event = Event(hash: Hash, number: nat, name: EventOrder, item: Option<Item>)

  ghost predicate Handled(log: Log, rollup: nat) {
    OrderOf(log.topic).Some? && !OtherRollup(log, rollup)
  }

  /** The handled events of this rollup, in log order. */
  ghost function Events(logs: seq<Log>, rollup: nat): seq<Event> {
    if logs == [] then []
    else
      var log := logs[|logs| - 1];
      var before := Events(logs[..|logs| - 1], rollup);
      if Handled(log, rollup)
      then before + [Event(log.hash, log.number, OrderOf(log.topic).value, Some(log.item))]
      else before
  }

  function Get(orders: map<Hash, seq<Order>>, hash: Hash): seq<Order> {
    if hash in orders then orders[hash] else []
  }

  ghost function ReadAt(b: Block, o: Order): Event {
    var list := ListOf(b, o.name);
    Event(b.hash, b.number, o.name, if o.pos < |list| then Some(list[o.pos]) else None)
  }

  ghost function WalkBlock(b: Block, orders: seq<Order>): (events: seq<Event>)
    ensures |events| == |orders|
  {
    seq(|orders|, i requires 0 <= i < |orders| => ReadAt(b, orders[i]))
  }

  /** The synchronizer goes through the blocks and, in each, through the orders of its hash. */
  ghost function Walk(blocks: seq<Block>, orders: map<Hash, seq<Order>>): seq<Event> {
    if blocks == [] then []
    else
      var b := blocks[|blocks| - 1];
      Walk(blocks[..|blocks| - 1], orders) + WalkBlock(b, Get(orders, b.hash))
  }

  /** Once the logs leave a block they do not come back to its hash. */
  ghost predicate Grouped(events: seq<Event>) {
    forall i, n :: 0 <= i < n < |events| && LeavesBlock(events, n) ==> events[i].hash != events[n].hash
  }

  ghost predicate LeavesBlock(events: seq<Event>, n: nat)
    requires 0 < n < |events|
  {
    events[n].hash != events[n - 1].hash || events[n].number != events[n - 1].number
  }

  // ---- how it is built ----

  datatype State = State(blocks: seq<Block>, orders: map<Hash, seq<Order>>)

  predicate IsHead(blocks: seq<Block>, hash: Hash, number: nat) {
    blocks != [] && blocks[|blocks| - 1].hash == hash && blocks[|blocks| - 1].number == number
  }

  /** A block for the log is at the end of the list, new if the last one is not it. */
  function WithHead(blocks: seq<Block>, hash: Hash, number: nat): (r: seq<Block>)
    ensures r != [] && r[|r| - 1].hash == hash && r[|r| - 1].number == number
  {
    if IsHead(blocks, hash, number) then blocks else blocks + [NewBlock(hash, number)]
  }

  /** The event goes to the end of its list in the last block, and its place to the orders. */
  function Record(s: State, hash: Hash, number: nat, name: EventOrder, item: Item): State {
    var blocks := WithHead(s.blocks, hash, number);
    var head := Appended(blocks[|blocks| - 1], name, item);
    State(blocks[..|blocks| - 1] + [head],
          s.orders[hash := Get(s.orders, hash) + [Order(name, |ListOf(head, name)| - 1)]])
  }

  ghost function Build(events: seq<Event>): State
    requires forall i :: 0 <= i < |events| ==> events[i].item.Some?
  {
    if events == [] then State([], map[])
    else
      var e := events[|events| - 1];
      Record(Build(events[..|events| - 1]), e.hash, e.number, e.name, e.item.value)
  }

  // ---- walking what was built gives the events back ----

  lemma WalkOne(blocks: seq<Block>, b: Block, orders: map<Hash, seq<Order>>)
    ensures Walk(blocks + [b], orders) == Walk(blocks, orders) + WalkBlock(b, Get(orders, b.hash))
  {
    assert (blocks + [b])[..|blocks|] == blocks;
  }

  /** The orders of a hash that no block has do not matter. */
  lemma {:induction false} WalkOther(blocks: seq<Block>, orders: map<Hash, seq<Order>>, hash: Hash, more: seq<Order>)
    requires forall i :: 0 <= i < |blocks| ==> blocks[i].hash != hash
    ensures Walk(blocks, orders[hash := more]) == Walk(blocks, orders)
  {
    if blocks != [] { WalkOther(blocks[..|blocks| - 1], orders, hash, more); }
  }

  ghost predicate InRange(b: Block, orders: seq<Order>) {
    forall i :: 0 <= i < |orders| ==> orders[i].pos < |ListOf(b, orders[i].name)|
  }

  lemma ReadAppended(b: Block, name: EventOrder, item: Item, o: Order)
    requires o.pos < |ListOf(b, o.name)|
    ensures o.pos < |ListOf(Appended(b, name, item), o.name)|
    ensures ReadAt(Appended(b, name, item), o) == ReadAt(b, o)
  {
  }

  lemma ReadLast(b: Block, name: EventOrder, item: Item)
    ensures var b' := Appended(b, name, item);
      && |ListOf(b', name)| > 0 && b'.hash == b.hash && b'.number == b.number
      && ReadAt(b', Order(name, |ListOf(b', name)| - 1)) == Event(b.hash, b.number, name, Some(item))
  {
  }

  /** An appended event is read last, and the earlier positions read as before. */
  lemma WalkAppended(b: Block, orders: seq<Order>, name: EventOrder, item: Item)
    requires InRange(b, orders)
    ensures var b' := Appended(b, name, item);
      var orders' := orders + [Order(name, |ListOf(b', name)| - 1)];
      && InRange(b', orders')
      && WalkBlock(b', orders') == WalkBlock(b, orders) + [Event(b.hash, b.number, name, Some(item))]
  {
    hide ReadAt, ListOf, Appended;
    var b' := Appended(b, name, item);
    ReadLast(b, name, item);
    forall i | 0 <= i < |orders|
      ensures orders[i].pos < |ListOf(b', orders[i].name)| && ReadAt(b', orders[i]) == ReadAt(b, orders[i])
    {
      ReadAppended(b, name, item, orders[i]);
    }
  }

  ghost predicate Whole(events: seq<Event>) {
    forall i :: 0 <= i < |events| ==> events[i].item.Some?
  }

  ghost predicate HasHash(events: seq<Event>, hash: Hash) {
    exists i :: 0 <= i < |events| && events[i].hash == hash
  }

  ghost predicate BlockHasHash(blocks: seq<Block>, hash: Hash) {
    exists i :: 0 <= i < |blocks| && blocks[i].hash == hash
  }

  /** The blocks and orders are about the hashes of the events, and the last block is that of
      the last event. */
  ghost predicate Covers(events: seq<Event>, s: State) {
    && (events == [] <==> s.blocks == [])
    && (events != [] ==> IsHead(s.blocks, events[|events| - 1].hash, events[|events| - 1].number))
    && (forall h :: BlockHasHash(s.blocks, h) <==> HasHash(events, h))
    && (forall h :: h in s.orders ==> HasHash(events, h))
  }

  lemma HasHashGrows(events: seq<Event>, e: Event, h: Hash)
    ensures HasHash(events + [e], h) <==> HasHash(events, h) || e.hash == h
  {
    if HasHash(events, h) {
      var i :| 0 <= i < |events| && events[i].hash == h;
      assert (events + [e])[i].hash == h;
    }
    assert (events + [e])[|events|] == e;
  }

  lemma BlockHasHashGrows(blocks: seq<Block>, b: Block, h: Hash)
    ensures BlockHasHash(blocks + [b], h) <==> BlockHasHash(blocks, h) || b.hash == h
  {
    if BlockHasHash(blocks, h) {
      var i :| 0 <= i < |blocks| && blocks[i].hash == h;
      assert (blocks + [b])[i].hash == h;
    }
    assert (blocks + [b])[|blocks|] == b;
  }

  /** The blocks before the last one with its hash. */
  ghost function Front(s: State, e: Event): seq<Block> {
    if IsHead(s.blocks, e.hash, e.number) then s.blocks[..|s.blocks| - 1] else s.blocks
  }

  lemma RecordIs(s: State, e: Event)
    requires e.item.Some?
    ensures var head := if IsHead(s.blocks, e.hash, e.number) then s.blocks[|s.blocks| - 1]
                        else NewBlock(e.hash, e.number);
      var head' := Appended(head, e.name, e.item.value);
      && head'.hash == head.hash == e.hash && head'.number == head.number == e.number
      && Record(s, e.hash, e.number, e.name, e.item.value)
         == State(Front(s, e) + [head'],
                  s.orders[e.hash := Get(s.orders, e.hash) + [Order(e.name, |ListOf(head', e.name)| - 1)]])
  {
  }

  lemma FrontHash(s: State, e: Event, h: Hash)
    ensures BlockHasHash(s.blocks, h) || e.hash == h <==> BlockHasHash(Front(s, e), h) || e.hash == h
  {
    if IsHead(s.blocks, e.hash, e.number) {
      var last := s.blocks[|s.blocks| - 1];
      assert s.blocks == Front(s, e) + [last];
      hide BlockHasHash;
      BlockHasHashGrows(Front(s, e), last, h);
    }
  }

  lemma RecordCovers(events: seq<Event>, s: State, e: Event)
    requires Covers(events, s) && e.item.Some?
    ensures Covers(events + [e], Record(s, e.hash, e.number, e.name, e.item.value))
  {
    RecordIs(s, e);
    hide Record, Appended, ListOf, Get, BlockHasHash, HasHash, Front;
    var s' := Record(s, e.hash, e.number, e.name, e.item.value);
    var head' := s'.blocks[|s'.blocks| - 1];
    forall h ensures BlockHasHash(s'.blocks, h) <==> HasHash(events + [e], h) {
      HasHashGrows(events, e, h);
      BlockHasHashGrows(Front(s, e), head', h);
      FrontHash(s, e, h);
    }
    forall h | h in s'.orders ensures HasHash(events + [e], h) {
      HasHashGrows(events, e, h);
    }
  }

  lemma {:induction false} BuildCovers(events: seq<Event>)
    requires Whole(events)
    ensures Covers(events, Build(events))
  {
    hide Record, Covers;
    if events != [] {
      var front, e := events[..|events| - 1], events[|events| - 1];
      BuildCovers(front);
      RecordCovers(front, Build(front), e);
      assert events == front + [e];
    } else {
      BuildCoversNone();
    }
  }

  lemma BuildCoversNone()
    ensures Covers([], Build([]))
  {
  }

  /** The last block can be read at all its orders, and no earlier one shares its hash. */
  ghost predicate HeadOk(s: State) {
    s.blocks != [] ==>
      && InRange(s.blocks[|s.blocks| - 1], Get(s.orders, s.blocks[|s.blocks| - 1].hash))
      && !BlockHasHash(s.blocks[..|s.blocks| - 1], s.blocks[|s.blocks| - 1].hash)
  }

  /** One more event that stays in its block, or starts one with a new hash, is walked last. */
  lemma RecordWalks(events: seq<Event>, s: State, e: Event)
    requires Covers(events, s) && HeadOk(s) && Walk(s.blocks, s.orders) == events && e.item.Some?
    requires IsHead(s.blocks, e.hash, e.number) || !HasHash(events, e.hash)
    ensures var s' := Record(s, e.hash, e.number, e.name, e.item.value);
      HeadOk(s') && Walk(s'.blocks, s'.orders) == events + [e]
  {
    hide Record, Appended, ListOf, Walk, WalkBlock, ReadAt, Covers, BlockHasHash, HasHash, InRange, Front, NewBlock;
    RecordIs(s, e);
    var s' := Record(s, e.hash, e.number, e.name, e.item.value);
    var head := if IsHead(s.blocks, e.hash, e.number) then s.blocks[|s.blocks| - 1] else NewBlock(e.hash, e.number);
    FrontWalks(events, s, e, head);
    WalkExtended(Front(s, e), s.orders, head, e, events);
    assert s'.blocks[..|s'.blocks| - 1] == Front(s, e);
  }

  lemma FrontWalks(events: seq<Event>, s: State, e: Event, head: Block)
    requires Covers(events, s) && HeadOk(s) && Walk(s.blocks, s.orders) == events
    requires IsHead(s.blocks, e.hash, e.number) || !HasHash(events, e.hash)
    requires head == if IsHead(s.blocks, e.hash, e.number) then s.blocks[|s.blocks| - 1]
                     else NewBlock(e.hash, e.number)
    ensures !BlockHasHash(Front(s, e), e.hash) && InRange(head, Get(s.orders, e.hash))
    ensures Walk(Front(s, e), s.orders) + WalkBlock(head, Get(s.orders, e.hash)) == events
  {
    if IsHead(s.blocks, e.hash, e.number) {
      assert s.blocks == Front(s, e) + [head];
      hide Walk, WalkBlock;
      WalkOne(Front(s, e), head, s.orders);
    } else {
      assert Get(s.orders, e.hash) == [];
      assert WalkBlock(head, []) == [];
    }
  }

  lemma WalkExtended(front: seq<Block>, orders: map<Hash, seq<Order>>, head: Block, e: Event, events: seq<Event>)
    requires e.item.Some? && head.hash == e.hash && head.number == e.number
    requires !BlockHasHash(front, e.hash) && InRange(head, Get(orders, e.hash))
    requires Walk(front, orders) + WalkBlock(head, Get(orders, e.hash)) == events
    ensures var head' := Appended(head, e.name, e.item.value);
      var more := Get(orders, e.hash) + [Order(e.name, |ListOf(head', e.name)| - 1)];
      InRange(head', more) && Walk(front + [head'], orders[e.hash := more]) == events + [e]
  {
    var head' := Appended(head, e.name, e.item.value);
    assert head'.hash == head.hash;
    ReadLast(head, e.name, e.item.value);
    hide Appended, ListOf, Walk, WalkBlock, ReadAt, InRange;
    var more := Get(orders, e.hash) + [Order(e.name, |ListOf(head', e.name)| - 1)];
    WalkAppended(head, Get(orders, e.hash), e.name, e.item.value);
    WalkOther(front, orders, e.hash, more);
    WalkOne(front, head', orders[e.hash := more]);
    assert e == Event(head.hash, head.number, e.name, Some(e.item.value));
  }

  lemma GroupedPrefix(events: seq<Event>, e: Event)
    requires Grouped(events + [e])
    ensures Grouped(events)
    ensures events != [] && (e.hash != events[|events| - 1].hash || e.number != events[|events| - 1].number)
            ==> !HasHash(events, e.hash)
  {
    var all := events + [e];
    forall i, n | 0 <= i < n < |events| && LeavesBlock(events, n) ensures events[i].hash != events[n].hash {
      assert LeavesBlock(all, n) && all[i] == events[i] && all[n] == events[n];
    }
    if events != [] && (e.hash != events[|events| - 1].hash || e.number != events[|events| - 1].number) {
      assert LeavesBlock(all, |events|);
      forall i | 0 <= i < |events| ensures events[i].hash != e.hash {
        assert all[i] == events[i] && all[|events|] == e;
      }
    }
  }

  lemma {:induction false} GroupedWalks(events: seq<Event>)
    requires Whole(events) && Grouped(events)
    ensures HeadOk(Build(events)) && Walk(Build(events).blocks, Build(events).orders) == events
  {
    if events != [] {
      var front, e := events[..|events| - 1], events[|events| - 1];
      assert events == front + [e];
      GroupedPrefix(front, e);
      GroupedWalks(front);
      BuildCovers(front);
      RecordWalks(front, Build(front), e);
    }
  }

  // ---- and only if the logs of a block are contiguous ----

  /** Recording an event makes no block's part of the walk shorter, and the part of a block
      with its hash longer. */
  lemma {:induction false} WalkGrows(blocks: seq<Block>, orders: map<Hash, seq<Order>>, hash: Hash, o: Order)
    ensures |Walk(blocks, orders[hash := Get(orders, hash) + [o]])|
         >= |Walk(blocks, orders)| + (if BlockHasHash(blocks, hash) then 1 else 0)
  {
    if blocks != [] {
      var front, b := blocks[..|blocks| - 1], blocks[|blocks| - 1];
      WalkGrows(front, orders, hash, o);
      assert blocks == front + [b];
      BlockHasHashGrows(front, b, hash);
    }
  }

  lemma RecordGrows(s: State, e: Event)
    requires e.item.Some?
    ensures var s' := Record(s, e.hash, e.number, e.name, e.item.value);
      |Walk(s'.blocks, s'.orders)| >= |Walk(s.blocks, s.orders)| + 1
        + (if !IsHead(s.blocks, e.hash, e.number) && BlockHasHash(s.blocks, e.hash) then 1 else 0)
  {
    RecordIs(s, e);
    var s' := Record(s, e.hash, e.number, e.name, e.item.value);
    var front, head' := Front(s, e), s'.blocks[|s'.blocks| - 1];
    if IsHead(s.blocks, e.hash, e.number) {
      assert s.blocks == front + [s.blocks[|s.blocks| - 1]];
      WalkOne(front, s.blocks[|s.blocks| - 1], s.orders);
    }
    hide Record, Appended, ListOf, Walk, ReadAt, BlockHasHash;
    WalkOne(front, head', s'.orders);
    var o := s'.orders[e.hash][|s'.orders[e.hash]| - 1];
    WalkGrows(front, s.orders, e.hash, o);
  }

  lemma {:induction false} UngroupedIsLonger(events: seq<Event>)
    requires Whole(events)
    ensures |Walk(Build(events).blocks, Build(events).orders)| >= |events| + (if Grouped(events) then 0 else 1)
  {
    if events != [] {
      var front, e := events[..|events| - 1], events[|events| - 1];
      assert events == front + [e];
      UngroupedIsLonger(front);
      BuildCovers(front);
      RecordGrows(Build(front), e);
      if Grouped(front) && (IsHead(Build(front).blocks, e.hash, e.number) || !HasHash(front, e.hash)) {
        StaysGrouped(front, e);
      }
    }
  }

  /** An event that does not return to a block that was left keeps the events grouped. */
  lemma StaysGrouped(events: seq<Event>, e: Event)
    requires Grouped(events)
    requires events == [] || (e.hash == events[|events| - 1].hash && e.number == events[|events| - 1].number)
             || !HasHash(events, e.hash)
    ensures Grouped(events + [e])
  {
    var all := events + [e];
    forall i, n | 0 <= i < n < |all| && LeavesBlock(all, n) ensures all[i].hash != all[n].hash {
      assert all[i] == events[i];
      if n < |events| {
        hide HasHash;
        assert LeavesBlock(events, n);
      } else {
        hide Grouped;
      }
    }
  }

  /** Walking the blocks at the recorded positions yields exactly the events, in log order and
      in their blocks, if and only if no block hash is returned to after leaving it. */
  lemma WalkIsLogOrder(events: seq<Event>)
    requires Whole(events)
    ensures Walk(Build(events).blocks, Build(events).orders) == events <==> Grouped(events)
  {
    if Grouped(events) {
      GroupedWalks(events);
    } else {
      UngroupedIsLonger(events);
    }
  }

  /** The logs return to block 1 after block 2: it is listed twice, both times with the orders
      of both visits, and the walk has more events than there were. */
  lemma ReturnIsWalkedTwice()
    ensures
      var events := [Event(1, 1, ForkIDs, Some(10)), Event(2, 2, ForkIDs, Some(20)), Event(1, 1, ForkIDs, Some(30))];
      && Whole(events) && !Grouped(events)
      && |Walk(Build(events).blocks, Build(events).orders)| > |events|
  {
    var events := [Event(1, 1, ForkIDs, Some(10)), Event(2, 2, ForkIDs, Some(20)), Event(1, 1, ForkIDs, Some(30))];
    assert LeavesBlock(events, 2) && events[0].hash == events[2].hash;
    UngroupedIsLonger(events);
    hide Build, Walk;
  }

  // ---- readEvents ----

  lemma {:induction false} EventsAreWhole(logs: seq<Log>, rollup: nat)
    ensures Whole(Events(logs, rollup))
  {
    if logs != [] { EventsAreWhole(logs[..|logs| - 1], rollup); }
  }

  /** The error a log ends the reading with, given the blocks before it. */
  predicate Fails(log: Log, blocks: seq<Block>, rollup: nat) {
    if log.topic == Ignored then false
    else if log.topic == UpdateEtrogSequence || !log.decodes then true
    else if OtherRollup(log, rollup) then false
    else !log.hasBlock && (AlwaysReadsBlock(log.topic) || !IsHead(blocks, log.hash, log.number))
  }

  /** Some log fails on the blocks made from those before it. */
  ghost predicate FailsAt(logs: seq<Log>, n: nat, rollup: nat)
    requires n < |logs|
  {
    EventsAreWhole(logs[..n], rollup);
    Fails(logs[n], Build(Events(logs[..n], rollup)).blocks, rollup)
  }

  /** The item is the last one in the list of its topic in the last block, which is that of the log,
      and the last order of the block is for it. */
  ghost predicate Listed(s: State, log: Log) {
    && s.blocks != [] && log.hash in s.orders && s.orders[log.hash] != []
    && var b, o := s.blocks[|s.blocks| - 1], s.orders[log.hash][|s.orders[log.hash]| - 1];
    && b.hash == log.hash && b.number == log.number
    && match log.topic
       case SequenceBatches => At(b.sequencedBatches, o.pos, log.item) && o.name == SequencedBatches
       case SequenceBatchesPreEtrog => At(b.sequencedBatches, o.pos, log.item) && o.name == SequencedBatches
       case InitialSequenceBatches => At(b.sequencedBatches, o.pos, log.item) && o.name == InitialSequence
       case UpdateGlobalExitRoot => At(b.globalExitRoots, o.pos, log.item) && o.name == GlobalExitRoots
       case UpdateL1InfoTree => At(b.l1InfoTree, o.pos, log.item) && o.name == L1InfoTree
       case ForceBatch => At(b.forcedBatches, o.pos, log.item) && o.name == ForcedBatches
       case OldVerifyBatchesTrustedAggregator =>
         At(b.verifiedBatches, o.pos, log.item) && o.name == TrustedVerifyBatch
       case VerifyBatches => At(b.verifiedBatches, o.pos, log.item) && o.name == VerifyBatch
       case SequenceForceBatches =>
         At(b.sequencedForceBatches, o.pos, log.item) && o.name == SequencedForceBatches
       case UpdateZkEVMVersion => At(b.forkIDs, o.pos, log.item) && o.name == ForkIDs
       case UpdateRollup => At(b.forkIDs, o.pos, log.item) && o.name == ForkIDs
       case AddExistingRollup => At(b.forkIDs, o.pos, log.item) && o.name == ForkIDs
       case CreateNewRollup => At(b.forkIDs, o.pos, log.item) && o.name == ForkIDs
       case UpdateEtrogSequence => false
       case Ignored => false
  }

  ghost predicate At(list: seq<Item>, pos: nat, item: Item) {
    pos == |list| - 1 && list[pos] == item
  }

  lemma RecordLists(s: State, log: Log)
    requires OrderOf(log.topic).Some?
    ensures Listed(Record(s, log.hash, log.number, OrderOf(log.topic).value, log.item), log)
  {
    var name := OrderOf(log.topic).value;
    var blocks := WithHead(s.blocks, log.hash, log.number);
    var head := Appended(blocks[|blocks| - 1], name, log.item);
    var s' := Record(s, log.hash, log.number, name, log.item);
    hide WithHead, Get, IsHead;
    assert s'.blocks[|s'.blocks| - 1] == head;
    assert s'.orders[log.hash][|s'.orders[log.hash]| - 1] == Order(name, |ListOf(head, name)| - 1);
  }

  class Reader {
    const rollup: nat
    var blocks: seq<Block>
    var orders: map<Hash, seq<Order>>

    constructor (rollup: nat)
      ensures this.rollup == rollup
    {
      this.rollup, blocks, orders := rollup, [], map[];
    }

    /** What the handlers share: the block, the list of the event, and the order. */
    method AddEvent(log: Log, name: EventOrder) returns (ok: bool)
      modifies `blocks, `orders
      ensures ok <==> log.decodes
                      && (log.hasBlock || (IsHead(old(blocks), log.hash, log.number) && !AlwaysReadsBlock(log.topic)))
      ensures ok ==>
        State(blocks, orders) == Record(State(old(blocks), old(orders)), log.hash, log.number, name, log.item)
      ensures !ok ==> blocks == old(blocks) && orders == old(orders)
    {
      hide Appended, ListOf, Get, AlwaysReadsBlock, ReadAt;
      if !log.decodes || (AlwaysReadsBlock(log.topic) && !log.hasBlock) {
        return false;
      }
      if !IsHead(blocks, log.hash, log.number) {
        if !log.hasBlock {
          return false;
        }
        blocks := blocks + [NewBlock(log.hash, log.number)];
      }
      assert blocks == WithHead(old(blocks), log.hash, log.number);
      hide IsHead, WithHead, NewBlock;
      var last := |blocks| - 1;
      var head := Appended(blocks[last], name, log.item);
      ReadLast(blocks[last], name, log.item);
      blocks := blocks[..last] + [head];
      orders := orders[head.hash := Get(orders, head.hash) + [Order(name, |ListOf(head, name)| - 1)]];
      ok := true;
    }

    method UpdateForkId(log: Log) returns (ok: bool)
      modifies `blocks, `orders
      ensures ok <==> log.decodes
                      && (log.rollup != rollup
                          || log.hasBlock
                          || (IsHead(old(blocks), log.hash, log.number) && !AlwaysReadsBlock(log.topic)))
      ensures ok && log.rollup == rollup ==>
        State(blocks, orders) == Record(State(old(blocks), old(orders)), log.hash, log.number, ForkIDs, log.item)
      ensures !ok || log.rollup != rollup ==> blocks == old(blocks) && orders == old(orders)
    {
      if !log.decodes {
        return false;
      }
      if log.rollup != rollup {
        return true;
      }
      ok := AddEvent(log, ForkIDs);
    }

    /** Every topic: what it needs, where its item goes, and the name its order has. */
    method ProcessEvent(log: Log) returns (ok: bool)
      modifies `blocks, `orders
      ensures ok <==> !Fails(log, old(blocks), rollup)
      ensures ok <==>
        || log.topic == Ignored
        || (&& log.topic != UpdateEtrogSequence && log.decodes
            && (|| (log.topic in {UpdateRollup, AddExistingRollup, CreateNewRollup} && log.rollup != rollup)
                || log.hasBlock
                || (&& old(blocks) != [] && old(blocks)[|old(blocks)| - 1].hash == log.hash
                    && old(blocks)[|old(blocks)| - 1].number == log.number
                    && log.topic !in {InitialSequenceBatches, UpdateGlobalExitRoot, ForceBatch, SequenceForceBatches})))
      ensures Handled(log, rollup) <==>
        && log.topic !in {Ignored, UpdateEtrogSequence}
        && (log.topic in {UpdateRollup, AddExistingRollup, CreateNewRollup} ==> log.rollup == rollup)
      ensures ok && Handled(log, rollup) ==> Listed(State(blocks, orders), log)
      ensures ok && Handled(log, rollup) ==>
        State(blocks, orders)
        == Record(State(old(blocks), old(orders)), log.hash, log.number, OrderOf(log.topic).value, log.item)
      ensures !ok || !Handled(log, rollup) ==> blocks == old(blocks) && orders == old(orders)
    {
      if Handled(log, rollup) { RecordLists(State(blocks, orders), log); }
      hide Record, IsHead, Listed;
      match log.topic {
        case SequenceBatches => ok := AddEvent(log, SequencedBatches);
        case SequenceBatchesPreEtrog => ok := AddEvent(log, SequencedBatches);
        case UpdateGlobalExitRoot => ok := AddEvent(log, GlobalExitRoots);
        case UpdateL1InfoTree => ok := AddEvent(log, L1InfoTree);
        case ForceBatch => ok := AddEvent(log, ForcedBatches);
        case InitialSequenceBatches => ok := AddEvent(log, InitialSequence);
        case UpdateEtrogSequence => ok := false;
        case OldVerifyBatchesTrustedAggregator => ok := AddEvent(log, TrustedVerifyBatch);
        case VerifyBatches => ok := AddEvent(log, VerifyBatch);
        case SequenceForceBatches => ok := AddEvent(log, SequencedForceBatches);
        case UpdateZkEVMVersion => ok := AddEvent(log, ForkIDs);
        case UpdateRollup => ok := UpdateForkId(log);
        case AddExistingRollup => ok := UpdateForkId(log);
        case CreateNewRollup => ok := UpdateForkId(log);
        case Ignored => ok := true;
      }
    }

    /** readEvents: the first failing log ends it with an error and nothing is returned.
        Otherwise walking the result gives the handled events of this rollup in log order,
        exactly when the logs of every block are contiguous. */
    method ReadEvents(logs: seq<Log>) returns (result: Option<State>)
      modifies `blocks, `orders
      ensures result.None? <==> exists n :: 0 <= n < |logs| && FailsAt(logs, n, rollup)
      ensures result.Some? ==> result.value == BuildOf(logs, |logs|)
      ensures result.Some? ==>
        (Walk(result.value.blocks, result.value.orders) == Events(logs, rollup) <==> Grouped(Events(logs, rollup)))
    {
      hide FailsAt, Fails, Record, Walk, Grouped, Whole;
      blocks, orders := [], map[];
      EventsAreWhole([], rollup);
      for n := 0 to |logs|
        invariant Whole(Events(logs[..n], rollup)) && State(blocks, orders) == BuildOf(logs, n)
        invariant forall k :: 0 <= k < n ==> !FailsAt(logs, k, rollup)
      {
        BuildStep(logs, n);
        var ok := ProcessEvent(logs[n]);
        if !ok {
          return None;
        }
      }
      assert logs[..|logs|] == logs;
      result := Some(State(blocks, orders));
      WalkIsLogOrder(Events(logs, rollup));
    }

    ghost function BuildOf(logs: seq<Log>, n: nat): State
      requires n <= |logs|
    {
      EventsAreWhole(logs[..n], rollup);
      Build(Events(logs[..n], rollup))
    }

    lemma BuildStep(logs: seq<Log>, n: nat)
      requires n < |logs|
      ensures Whole(Events(logs[..n + 1], rollup))
      ensures var log, s := logs[n], BuildOf(logs, n);
        BuildOf(logs, n + 1)
        == if Handled(log, rollup) then Record(s, log.hash, log.number, OrderOf(log.topic).value, log.item) else s
      ensures FailsAt(logs, n, rollup) <==> Fails(logs[n], BuildOf(logs, n).blocks, rollup)
    {
      hide Record, Fails;
      EventsAreWhole(logs[..n + 1], rollup);
      assert logs[..n + 1][..n] == logs[..n];
      var log := logs[n];
      if Handled(log, rollup) {
        var before := Events(logs[..n], rollup);
        var e := Event(log.hash, log.number, OrderOf(log.topic).value, Some(log.item));
        assert (before + [e])[..|before|] == before;
      }
    }
  }
}
