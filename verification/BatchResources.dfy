/** state/types.go, sequencer/batch.go, sequencer/l2block.go and sequencer/finalizer.go:
    the counter arithmetic that decides what fits in a batch. */
module BatchResources {
  import opened Wrappers

  const TWO_32: nat := 0x1_0000_0000
  const TWO_64: nat := 0x1_0000_0000_0000_0000

  type uint32 = n: nat | n < TWO_32
  type uint64 = n: nat | n < TWO_64

  datatype ZKCounters = ZKCounters(
    gasUsed: uint64, keccakHashes: uint32, poseidonHashes: uint32, poseidonPaddings: uint32,
    memAligns: uint32, arithmetics: uint32, binaries: uint32, steps: uint32, sha256Hashes: uint32)

  datatype Resources = Resources(zk: ZKCounters, bytes: uint64)

  const NO_COUNTERS := ZKCounters(0, 0, 0, 0, 0, 0, 0, 0, 0)
  const NO_RESOURCES := Resources(NO_COUNTERS, 0)

  predicate Leq(a: ZKCounters, b: ZKCounters) {
    && a.gasUsed <= b.gasUsed && a.keccakHashes <= b.keccakHashes
    && a.poseidonHashes <= b.poseidonHashes && a.poseidonPaddings <= b.poseidonPaddings
    && a.memAligns <= b.memAligns && a.arithmetics <= b.arithmetics
    && a.binaries <= b.binaries && a.steps <= b.steps && a.sha256Hashes <= b.sha256Hashes
  }

  predicate LeqAll(a: Resources, b: Resources) {
    Leq(a.zk, b.zk) && a.bytes <= b.bytes
  }

  /** a + b == c without wrapping */
  predicate Sum(a: ZKCounters, b: ZKCounters, c: ZKCounters) {
    && a.gasUsed + b.gasUsed == c.gasUsed && a.keccakHashes + b.keccakHashes == c.keccakHashes
    && a.poseidonHashes + b.poseidonHashes == c.poseidonHashes
    && a.poseidonPaddings + b.poseidonPaddings == c.poseidonPaddings
    && a.memAligns + b.memAligns == c.memAligns && a.arithmetics + b.arithmetics == c.arithmetics
    && a.binaries + b.binaries == c.binaries && a.steps + b.steps == c.steps
    && a.sha256Hashes + b.sha256Hashes == c.sha256Hashes
  }

  predicate SumAll(a: Resources, b: Resources, c: Resources) {
    Sum(a.zk, b.zk, c.zk) && a.bytes + b.bytes == c.bytes
  }

  datatype Counter = Gas | Keccaks | Poseidons | Paddings | MemAligns | Ariths | Binaries | Steps | Sha256s

  function At(z: ZKCounters, c: Counter): nat {
    match c
    case Gas => z.gasUsed
    case Keccaks => z.keccakHashes
    case Poseidons => z.poseidonHashes
    case Paddings => z.poseidonPaddings
    case MemAligns => z.memAligns
    case Ariths => z.arithmetics
    case Binaries => z.binaries
    case Steps => z.steps
    case Sha256s => z.sha256Hashes
  }

  // ---- state/types.go ----

  /** ZKCounters.Fits, and the test ZKCounters.Sub starts with: the first counter of
      `other` that exceeds `z`, "" when there is none. */
  function Exceeded(z: ZKCounters, other: ZKCounters): (name: string)
    ensures name == "" <==> Leq(other, z)
  {
    if other.gasUsed > z.gasUsed then "CumulativeGas"
    else if other.keccakHashes > z.keccakHashes then "KeccakHashes"
    else if other.poseidonHashes > z.poseidonHashes then "PoseidonHashes"
    else if other.poseidonPaddings > z.poseidonPaddings then "PoseidonPaddings"
    else if other.memAligns > z.memAligns then "UsedMemAligns"
    else if other.arithmetics > z.arithmetics then "UsedArithmetics"
    else if other.binaries > z.binaries then "UsedBinaries"
    else if other.steps > z.steps then "UsedSteps"
    else if other.sha256Hashes > z.sha256Hashes then "UsedSha256Hashes_V2"
    else ""
  }

  /** The counters in the order they are tested, and the names they are reported under. */
  const ORDER: seq<Counter> := [Gas, Keccaks, Poseidons, Paddings, MemAligns, Ariths, Binaries, Steps, Sha256s]

  const NAMES: seq<string> := [
    "CumulativeGas", "KeccakHashes", "PoseidonHashes", "PoseidonPaddings", "UsedMemAligns", "UsedArithmetics",
    "UsedBinaries", "UsedSteps", "UsedSha256Hashes_V2"]

  predicate FirstOver(z: ZKCounters, other: ZKCounters, i: nat)
    requires i < |ORDER|
  {
    && At(other, ORDER[i]) > At(z, ORDER[i])
    && forall j :: 0 <= j < i ==> At(other, ORDER[j]) <= At(z, ORDER[j])
  }

  /** The name reported is that of the first counter that exceeds, in the order of the test. */
  lemma ExceededNamesFirst(z: ZKCounters, other: ZKCounters, i: nat)
    requires i < |ORDER| && FirstOver(z, other, i)
    ensures Exceeded(z, other) == NAMES[i]
  {
    assert i > 0 ==> At(other, ORDER[0]) <= At(z, ORDER[0]);
    assert i > 1 ==> At(other, ORDER[1]) <= At(z, ORDER[1]);
    assert i > 2 ==> At(other, ORDER[2]) <= At(z, ORDER[2]);
    assert i > 3 ==> At(other, ORDER[3]) <= At(z, ORDER[3]);
    assert i > 4 ==> At(other, ORDER[4]) <= At(z, ORDER[4]);
    assert i > 5 ==> At(other, ORDER[5]) <= At(z, ORDER[5]);
    assert i > 6 ==> At(other, ORDER[6]) <= At(z, ORDER[6]);
    assert i > 7 ==> At(other, ORDER[7]) <= At(z, ORDER[7]);
  }

  /** BatchResources.Fits */
  function Fits(r: Resources, other: Resources): (fits: (bool, string))
    ensures fits.0 <==> LeqAll(other, r)
  {
    if other.bytes > r.bytes then (false, "Bytes")
    else (Exceeded(r.zk, other.zk) == "", Exceeded(r.zk, other.zk))
  }

  /** Both report the bytes first, and then the first counter that exceeds. */
  lemma NamesAgree(r: Resources, other: Resources)
    ensures Fits(r, other).1 == Sub(r, other).2
    ensures other.bytes > r.bytes ==> Fits(r, other).1 == "Bytes"
    ensures other.bytes <= r.bytes ==> Fits(r, other).1 == Exceeded(r.zk, other.zk)
  {
    assert Exceeded(r.zk, other.zk) == "" <==> Leq(other.zk, r.zk);
  }

  function Minus(z: ZKCounters, other: ZKCounters): (d: ZKCounters)
    requires Leq(other, z)
    ensures Sum(d, other, z)
  {
    ZKCounters(z.gasUsed - other.gasUsed, z.keccakHashes - other.keccakHashes,
               z.poseidonHashes - other.poseidonHashes, z.poseidonPaddings - other.poseidonPaddings,
               z.memAligns - other.memAligns, z.arithmetics - other.arithmetics,
               z.binaries - other.binaries, z.steps - other.steps, z.sha256Hashes - other.sha256Hashes)
  }

  /** BatchResources.Sub: the new value, whether there was an overflow, and where. On an
      overflow nothing is subtracted, the bytes are put back. */
  function Sub(r: Resources, other: Resources): (s: (Resources, bool, string))
    ensures s.1 <==> !LeqAll(other, r)
    ensures s.1 ==> s.0 == r
    ensures !s.1 ==> SumAll(s.0, other, r)
  {
    if other.bytes > r.bytes then (r, true, "Bytes")
    else
      var name := Exceeded(r.zk, other.zk);
      if name != "" then (r, true, name)
      else (Resources(Minus(r.zk, other.zk), r.bytes - other.bytes), false, "")
  }

  function Add32(a: uint32, b: uint32): uint32 { (a + b) % TWO_32 }

  function Add64(a: uint64, b: uint64): uint64 { (a + b) % TWO_64 }

  /** BatchResources.SumUp, which wraps. */
  function SumUp(r: Resources, other: Resources): Resources {
    Resources(
      ZKCounters(Add64(r.zk.gasUsed, other.zk.gasUsed), Add32(r.zk.keccakHashes, other.zk.keccakHashes),
                 Add32(r.zk.poseidonHashes, other.zk.poseidonHashes),
                 Add32(r.zk.poseidonPaddings, other.zk.poseidonPaddings),
                 Add32(r.zk.memAligns, other.zk.memAligns), Add32(r.zk.arithmetics, other.zk.arithmetics),
                 Add32(r.zk.binaries, other.zk.binaries), Add32(r.zk.steps, other.zk.steps),
                 Add32(r.zk.sha256Hashes, other.zk.sha256Hashes)),
      Add64(r.bytes, other.bytes))
  }

  // ---- getNeededZKCounters ----

  /** One 32-bit counter: (needed, new high). */
  function Needed32(high: uint32, used: uint32, reserved: uint32): (uint32, uint32) {
    if reserved < used then (Add32(used, high), high)
    else if reserved - used > high then (Add32(used, reserved - used), reserved - used)
    else (Add32(used, high), high)
  }

  /** The gas counter, whose new high is left at zero when less is reserved than used. */
  function NeededGas(high: uint64, used: uint64, reserved: uint64): (uint64, uint64) {
    if reserved < used then (Add64(used, high), 0)
    else if reserved - used > high then (Add64(used, reserved - used), reserved - used)
    else (Add64(used, high), high)
  }

  function Needed(high: ZKCounters, used: ZKCounters, reserved: ZKCounters): ZKCounters {
    ZKCounters(NeededGas(high.gasUsed, used.gasUsed, reserved.gasUsed).0,
               Needed32(high.keccakHashes, used.keccakHashes, reserved.keccakHashes).0,
               Needed32(high.poseidonHashes, used.poseidonHashes, reserved.poseidonHashes).0,
               Needed32(high.poseidonPaddings, used.poseidonPaddings, reserved.poseidonPaddings).0,
               Needed32(high.memAligns, used.memAligns, reserved.memAligns).0,
               Needed32(high.arithmetics, used.arithmetics, reserved.arithmetics).0,
               Needed32(high.binaries, used.binaries, reserved.binaries).0,
               Needed32(high.steps, used.steps, reserved.steps).0,
               Needed32(high.sha256Hashes, used.sha256Hashes, reserved.sha256Hashes).0)
  }

  function NewHigh(high: ZKCounters, used: ZKCounters, reserved: ZKCounters): ZKCounters {
    ZKCounters(NeededGas(high.gasUsed, used.gasUsed, reserved.gasUsed).1,
               Needed32(high.keccakHashes, used.keccakHashes, reserved.keccakHashes).1,
               Needed32(high.poseidonHashes, used.poseidonHashes, reserved.poseidonHashes).1,
               Needed32(high.poseidonPaddings, used.poseidonPaddings, reserved.poseidonPaddings).1,
               Needed32(high.memAligns, used.memAligns, reserved.memAligns).1,
               Needed32(high.arithmetics, used.arithmetics, reserved.arithmetics).1,
               Needed32(high.binaries, used.binaries, reserved.binaries).1,
               Needed32(high.steps, used.steps, reserved.steps).1,
               Needed32(high.sha256Hashes, used.sha256Hashes, reserved.sha256Hashes).1)
  }

  /** used + high does not wrap in any counter. Gas tolerates a wrap when less is
      reserved than used, as its high then drops to zero, if the used gas fits. */
  predicate NoWrap(remaining: ZKCounters, high: ZKCounters, used: ZKCounters, reserved: ZKCounters) {
    && (used.gasUsed + high.gasUsed < TWO_64
        || (reserved.gasUsed < used.gasUsed && used.gasUsed <= remaining.gasUsed))
    && used.keccakHashes + high.keccakHashes < TWO_32
    && used.poseidonHashes + high.poseidonHashes < TWO_32
    && used.poseidonPaddings + high.poseidonPaddings < TWO_32
    && used.memAligns + high.memAligns < TWO_32
    && used.arithmetics + high.arithmetics < TWO_32
    && used.binaries + high.binaries < TWO_32
    && used.steps + high.steps < TWO_32
    && used.sha256Hashes + high.sha256Hashes < TWO_32
  }

  lemma Admission32(remaining: uint32, high: uint32, used: uint32, reserved: uint32)
    requires high <= remaining && Needed32(high, used, reserved).0 <= remaining
    ensures used <= remaining && Needed32(high, used, reserved).1 <= remaining - used
            <==> used + high < TWO_32
    ensures Needed32(high, used, reserved).1 <= remaining
  {
  }

  lemma AdmissionGas(remaining: uint64, high: uint64, used: uint64, reserved: uint64)
    requires high <= remaining && NeededGas(high, used, reserved).0 <= remaining
    ensures used <= remaining && NeededGas(high, used, reserved).1 <= remaining - used
            <==> used + high < TWO_64 || (reserved < used && used <= remaining)
    ensures NeededGas(high, used, reserved).1 <= remaining
  {
  }

  /** What the sanity checks after a successful Fits rely on. While the remaining
      counters cover the high reserved ones and the needed counters fit, the used ones
      can be subtracted and the new remaining counters cover the new high ones: exactly
      when used + high does not wrap. */
  lemma AdmissionIsSound(remaining: ZKCounters, high: ZKCounters, used: ZKCounters, reserved: ZKCounters)
    requires Leq(high, remaining) && Leq(Needed(high, used, reserved), remaining)
    ensures Leq(used, remaining) && Leq(NewHigh(high, used, reserved), Minus(remaining, used))
            <==> NoWrap(remaining, high, used, reserved)
    ensures Leq(NewHigh(high, used, reserved), remaining)
  {
    AdmissionGas(remaining.gasUsed, high.gasUsed, used.gasUsed, reserved.gasUsed);
    Admission32(remaining.keccakHashes, high.keccakHashes, used.keccakHashes, reserved.keccakHashes);
    Admission32(remaining.poseidonHashes, high.poseidonHashes, used.poseidonHashes, reserved.poseidonHashes);
    Admission32(remaining.poseidonPaddings, high.poseidonPaddings, used.poseidonPaddings, reserved.poseidonPaddings);
    Admission32(remaining.memAligns, high.memAligns, used.memAligns, reserved.memAligns);
    Admission32(remaining.arithmetics, high.arithmetics, used.arithmetics, reserved.arithmetics);
    Admission32(remaining.binaries, high.binaries, used.binaries, reserved.binaries);
    Admission32(remaining.steps, high.steps, used.steps, reserved.steps);
    Admission32(remaining.sha256Hashes, high.sha256Hashes, used.sha256Hashes, reserved.sha256Hashes);
  }

  // ---- budgets and loads ----

  /** What is left of a batch, and the largest reserve seen in it. */
  datatype Budget = Budget(remaining: Resources, high: ZKCounters)

  /** What the executor reports for a transaction or an L2 block, and its encoded length. */
  datatype Load = Load(used: ZKCounters, reserved: ZKCounters, bytes: uint64)

  predicate Covered(b: Budget) { Leq(b.high, b.remaining.zk) }

  predicate LoadFits(b: Budget, l: Load) {
    Fits(b.remaining, Resources(Needed(b.high, l.used, l.reserved), l.bytes)).0
  }

  predicate Safe(b: Budget, l: Load) { NoWrap(b.remaining.zk, b.high, l.used, l.reserved) }

  /** Charging a transaction or a new L2 block to the intermediate budget: the high
      counters move once the load fits, even if the subtraction then overflows. */
  function Charge(b: Budget, l: Load): (Budget, bool) {
    if LoadFits(b, l) then
      var s := Sub(b.remaining, Resources(l.used, l.bytes));
      (Budget(s.0, NewHigh(b.high, l.used, l.reserved)), !s.1)
    else (b, false)
  }

  /** Charging a processed L2 block to the final budget: either overflow is an error
      that leaves the budget alone. */
  function ChargeFinal(b: Budget, l: Load): Option<Budget> {
    if LoadFits(b, l) then
      var s := Sub(b.remaining, Resources(l.used, l.bytes));
      if s.1 then None else Some(Budget(s.0, NewHigh(b.high, l.used, l.reserved)))
    else None
  }

  lemma MinusIsSum(z: ZKCounters, other: ZKCounters, d: ZKCounters)
    requires Leq(other, z) && Sum(d, other, z)
    ensures d == Minus(z, other)
  {
  }

  /** A charge keeps the budget covered unless it is admitted on a wrapped sum. Without
      a wrap the test alone decides, the sanity check after it never fires, and exactly
      the used resources leave the budget. */
  lemma ChargeKeepsCover(b: Budget, l: Load)
    requires Covered(b)
    ensures var (b', admitted) := Charge(b, l);
      && (Covered(b') <==> (admitted ==> Safe(b, l)))
      && (Safe(b, l) ==> admitted == LoadFits(b, l))
      && (admitted ==> LoadFits(b, l) && SumAll(b'.remaining, Resources(l.used, l.bytes), b.remaining))
      && (!admitted ==> b'.remaining == b.remaining)
    ensures ChargeFinal(b, l) == if Charge(b, l).1 then Some(Charge(b, l).0) else None
  {
    if LoadFits(b, l) {
      var remaining, high := b.remaining.zk, b.high;
      AdmissionIsSound(remaining, high, l.used, l.reserved);
      if Leq(l.used, remaining) {
        hide Needed, NewHigh, NoWrap, Leq, Minus, Sum;
        var s := Sub(b.remaining, Resources(l.used, l.bytes));
        MinusIsSum(remaining, l.used, s.0.zk);
      }
    }
  }

  // ---- a run of charges against one batch ----

  function Limit(c: Counter): nat { if c == Gas then TWO_64 else TWO_32 }

  /** How much more than it used a load reserved. */
  function Excess(l: Load, c: Counter): nat {
    if At(l.reserved, c) < At(l.used, c) then 0 else At(l.reserved, c) - At(l.used, c)
  }

  function Max(a: nat, b: nat): nat { if a < b then b else a }

  function TotalUsed(loads: seq<Load>, c: Counter): nat {
    if loads == [] then 0
    else TotalUsed(loads[..|loads| - 1], c) + At(loads[|loads| - 1].used, c)
  }

  function TotalBytes(loads: seq<Load>): nat {
    if loads == [] then 0 else TotalBytes(loads[..|loads| - 1]) + loads[|loads| - 1].bytes
  }

  /** The largest excess of the loads, or `start` if that is larger. */
  function PeakExcess(start: nat, loads: seq<Load>, c: Counter): nat {
    if loads == [] then start
    else Max(PeakExcess(start, loads[..|loads| - 1], c), Excess(loads[|loads| - 1], c))
  }

  /** Charge every load in turn; the ones that were admitted are kept. */
  function ChargeAll(b: Budget, loads: seq<Load>): (Budget, seq<Load>) {
    if loads == [] then (b, [])
    else
      var (b', admitted) := ChargeAll(b, loads[..|loads| - 1]);
      var l := loads[|loads| - 1];
      if Charge(b', l).1 then (Charge(b', l).0, admitted + [l]) else (Charge(b', l).0, admitted)
  }

  /** No sum of used and high wraps. */
  predicate NoWrapAt(b: Budget, l: Load) {
    forall c :: At(l.used, c) + At(b.high, c) < Limit(c)
  }

  predicate HonestGas(l: Load) { l.used.gasUsed <= l.reserved.gasUsed }

  lemma Needed32Is(high: uint32, used: uint32, reserved: uint32, excess: nat)
    requires excess == if reserved < used then 0 else reserved - used
    ensures Needed32(high, used, reserved).0 == used + Max(high, excess) <==> used + high < TWO_32
    ensures Needed32(high, used, reserved).0 == (used + Max(high, excess)) % TWO_32
    ensures Needed32(high, used, reserved).1 == Max(high, excess)
  {
  }

  /** The gas high is the larger of the two unless less gas is reserved than used while
      an earlier load still needs its reserve: then it is forgotten. */
  lemma NeededGasIs(high: uint64, used: uint64, reserved: uint64, excess: nat)
    requires excess == if reserved < used then 0 else reserved - used
    ensures NeededGas(high, used, reserved).0 == used + Max(high, excess) <==> used + high < TWO_64
    ensures NeededGas(high, used, reserved).1 == Max(high, excess) <==> used <= reserved || high == 0
    ensures NeededGas(high, used, reserved).1 == if reserved < used then 0 else Max(high, excess)
    ensures NeededGas(high, used, reserved).0 == (used + Max(high, excess)) % TWO_64
  {
  }

  /** The needed counters, each in its own width, and the new high ones. */
  lemma NeededAt(high: ZKCounters, l: Load, c: Counter)
    ensures At(Needed(high, l.used, l.reserved), c) == (At(l.used, c) + Max(At(high, c), Excess(l, c))) % Limit(c)
    ensures At(NewHigh(high, l.used, l.reserved), c)
         == if c == Gas && !HonestGas(l) then 0 else Max(At(high, c), Excess(l, c))
    ensures c != Gas || HonestGas(l) ==> At(NewHigh(high, l.used, l.reserved), c) == Max(At(high, c), Excess(l, c))
    ensures At(Needed(high, l.used, l.reserved), c) == At(l.used, c) + Max(At(high, c), Excess(l, c))
            <==> At(l.used, c) + At(high, c) < Limit(c)
  {
    hide Needed32, NeededGas, Max;
    if c == Gas {
      NeededGasIs(high.gasUsed, l.used.gasUsed, l.reserved.gasUsed, Excess(l, c));
    } else {
      Needed32Is(At(high, c), At(l.used, c), At(l.reserved, c), Excess(l, c));
    }
  }

  lemma LeqAt(a: ZKCounters, b: ZKCounters)
    ensures Leq(a, b) <==> forall c :: At(a, c) <= At(b, c)
  {
    if forall c :: At(a, c) <= At(b, c) {
      assert At(a, Gas) <= At(b, Gas) && At(a, Keccaks) <= At(b, Keccaks)
          && At(a, Poseidons) <= At(b, Poseidons) && At(a, Paddings) <= At(b, Paddings)
          && At(a, MemAligns) <= At(b, MemAligns) && At(a, Ariths) <= At(b, Ariths)
          && At(a, Binaries) <= At(b, Binaries) && At(a, Steps) <= At(b, Steps)
          && At(a, Sha256s) <= At(b, Sha256s);
    }
  }

  lemma SumAt(a: ZKCounters, b: ZKCounters, d: ZKCounters)
    requires Sum(a, b, d)
    ensures forall c :: At(a, c) + At(b, c) == At(d, c)
  {
  }

  lemma SafeAt(b: Budget, l: Load)
    requires NoWrapAt(b, l)
    ensures Safe(b, l)
  {
    assert At(l.used, Gas) + At(b.high, Gas) < Limit(Gas);
    assert At(l.used, Keccaks) + At(b.high, Keccaks) < Limit(Keccaks);
    assert At(l.used, Poseidons) + At(b.high, Poseidons) < Limit(Poseidons);
    assert At(l.used, Paddings) + At(b.high, Paddings) < Limit(Paddings);
    assert At(l.used, MemAligns) + At(b.high, MemAligns) < Limit(MemAligns);
    assert At(l.used, Ariths) + At(b.high, Ariths) < Limit(Ariths);
    assert At(l.used, Binaries) + At(b.high, Binaries) < Limit(Binaries);
    assert At(l.used, Steps) + At(b.high, Steps) < Limit(Steps);
    assert At(l.used, Sha256s) + At(b.high, Sha256s) < Limit(Sha256s);
  }

  // ---- whole runs ----

  /** The budget after the first k loads of a run. */
  function After(start: Budget, loads: seq<Load>, k: nat): Budget
    requires k <= |loads|
  {
    ChargeAll(start, loads[..k]).0
  }

  lemma AfterStep(start: Budget, loads: seq<Load>, k: nat)
    requires k < |loads|
    ensures After(start, loads, k + 1) == Charge(After(start, loads, k), loads[k]).0
  {
    assert loads[..k + 1][..k] == loads[..k];
  }

  /** The k-th load is not admitted, or its sums do not wrap. */
  predicate AdmittedSafely(start: Budget, loads: seq<Load>, k: nat)
    requires k < |loads|
  {
    Charge(After(start, loads, k), loads[k]).1 ==> Safe(After(start, loads, k), loads[k])
  }

  lemma {:induction false} SafeIsCovered(start: Budget, loads: seq<Load>, n: nat)
    requires Covered(start) && n <= |loads|
    requires forall k: nat :: k < n ==> AdmittedSafely(start, loads, k)
    ensures Covered(After(start, loads, n))
  {
    if n == 0 {
      assert loads[..0] == [];
    } else {
      SafeIsCovered(start, loads, n - 1);
      AfterStep(start, loads, n - 1);
      assert AdmittedSafely(start, loads, n - 1);
      hide After, Charge, Covered, Safe;
      ChargeKeepsCover(After(start, loads, n - 1), loads[n - 1]);
    }
  }

  /** Throughout every sequence of charges each remaining counter is at least its high one,
      exactly if no load is admitted on a wrapped sum. */
  lemma RunStaysCovered(start: Budget, loads: seq<Load>)
    requires Covered(start)
    ensures (forall k: nat :: k <= |loads| ==> Covered(After(start, loads, k)))
       <==> (forall k: nat :: k < |loads| ==> AdmittedSafely(start, loads, k))
  {
    hide After, Charge, Covered, Safe;
    if forall k: nat :: k <= |loads| ==> Covered(After(start, loads, k)) {
      forall k: nat | k < |loads| ensures AdmittedSafely(start, loads, k) {
        AfterStep(start, loads, k);
        assert Covered(After(start, loads, k + 1));
        ChargeKeepsCover(After(start, loads, k), loads[k]);
      }
    }
    if forall k: nat :: k < |loads| ==> AdmittedSafely(start, loads, k) {
      forall k: nat | k <= |loads| ensures Covered(After(start, loads, k)) {
        SafeIsCovered(start, loads, k);
      }
    }
  }

  /** So the subtraction after a successful Fits never overflows, at any point of a run in
      which no sum wraps. */
  lemma FitsNeverOverflows(start: Budget, loads: seq<Load>, i: nat)
    requires Covered(start) && i < |loads|
    requires forall k: nat :: k < i ==> AdmittedSafely(start, loads, k)
    requires Safe(After(start, loads, i), loads[i])
    ensures var b := After(start, loads, i);
      LoadFits(b, loads[i]) ==> !Sub(b.remaining, Resources(loads[i].used, loads[i].bytes)).1
  {
    SafeIsCovered(start, loads, i);
    hide After, Covered, Safe;
    ChargeKeepsCover(After(start, loads, i), loads[i]);
  }

  /** A bound known before the run that keeps every sum of it from wrapping. */
  lemma {:induction false} RangeIsEnough(start: Budget, loads: seq<Load>, n: nat)
    requires Covered(start) && n <= |loads|
    requires forall k :: 0 <= k < |loads| ==>
      forall c :: At(loads[k].used, c) + At(start.remaining.zk, c) < Limit(c)
    ensures Covered(After(start, loads, n))
    ensures forall c :: At(After(start, loads, n).remaining.zk, c) <= At(start.remaining.zk, c)
    ensures n < |loads| ==> NoWrapAt(After(start, loads, n), loads[n])
  {
    if n == 0 {
      assert loads[..0] == [];
    } else {
      RangeIsEnough(start, loads, n - 1);
      AfterStep(start, loads, n - 1);
      hide After, Needed, NewHigh, NoWrap, At, Limit, Leq, Sum;
      var b, l := After(start, loads, n - 1), loads[n - 1];
      SafeAt(b, l);
      ChargeKeepsCover(b, l);
      if Charge(b, l).1 { SumAt(Charge(b, l).0.remaining.zk, l.used, b.remaining.zk); }
    }
    LeqAt(After(start, loads, n).high, After(start, loads, n).remaining.zk);
  }

  /** Whatever wraps: what is gone is the total of what was admitted. */
  predicate Totals(start: Budget, admitted: seq<Load>, b: Budget) {
    && (forall c :: At(b.remaining.zk, c) + TotalUsed(admitted, c) == At(start.remaining.zk, c))
    && b.remaining.bytes + TotalBytes(admitted) == start.remaining.bytes
  }

  /** The high counters are the largest excess; of the gas only when asked for. */
  predicate Peaks(start: Budget, admitted: seq<Load>, b: Budget, gas: bool) {
    forall c :: c != Gas || gas ==> At(b.high, c) == PeakExcess(At(start.high, c), admitted, c)
  }

  /** The batch still has room for the admitted loads and `l`: the total used plus the
      largest excess stays within the starting counters, and so do the bytes. */
  ghost predicate HasRoom(start: Budget, admitted: seq<Load>, l: Load, gas: bool) {
    && (forall c :: c != Gas || gas ==>
          TotalUsed(admitted + [l], c) + PeakExcess(At(start.high, c), admitted + [l], c)
          <= At(start.remaining.zk, c))
    && TotalBytes(admitted + [l]) <= start.remaining.bytes
  }

  lemma TotalsGrow(start: Budget, admitted: seq<Load>, l: Load)
    ensures forall c :: TotalUsed(admitted + [l], c) == TotalUsed(admitted, c) + At(l.used, c)
    ensures forall c :: PeakExcess(At(start.high, c), admitted + [l], c)
                     == Max(PeakExcess(At(start.high, c), admitted, c), Excess(l, c))
    ensures TotalBytes(admitted + [l]) == TotalBytes(admitted) + l.bytes
  {
    assert (admitted + [l])[..|admitted|] == admitted;
  }

  lemma ChargeTotals(start: Budget, admitted: seq<Load>, b: Budget, l: Load)
    requires Totals(start, admitted, b)
    ensures var (b', ok) := Charge(b, l);
      Totals(start, if ok then admitted + [l] else admitted, b')
  {
    hide Needed, NewHigh, At, TotalUsed, TotalBytes, PeakExcess, Leq, Sum, Max, Excess, LoadFits;
    if Charge(b, l).1 {
      TotalsGrow(start, admitted, l);
      SumAt(Charge(b, l).0.remaining.zk, l.used, b.remaining.zk);
    }
  }

  /** After every run, whatever wraps, the remaining resources are the start minus the total
      of the admitted loads. */
  lemma {:induction false} RunTotals(start: Budget, loads: seq<Load>)
    ensures Totals(start, ChargeAll(start, loads).1, ChargeAll(start, loads).0)
  {
    if loads != [] {
      var prefix, l := loads[..|loads| - 1], loads[|loads| - 1];
      RunTotals(start, prefix);
      hide Totals, Charge;
      ChargeTotals(start, ChargeAll(start, prefix).1, ChargeAll(start, prefix).0, l);
    }
  }

  lemma ChargePeaks(start: Budget, admitted: seq<Load>, b: Budget, l: Load, gas: bool)
    requires Peaks(start, admitted, b, gas) && Covered(b) && NoWrapAt(b, l) && (gas ==> HonestGas(l))
    ensures var (b', ok) := Charge(b, l);
      Peaks(start, if ok then admitted + [l] else admitted, b', gas)
    ensures Charge(b, l).1 == LoadFits(b, l)
  {
    hide Needed, NewHigh, NoWrap, At, TotalUsed, TotalBytes, PeakExcess, Leq, Sum, Max, Excess, Limit, LoadFits;
    SafeAt(b, l);
    ChargeKeepsCover(b, l);
    if Charge(b, l).1 {
      TotalsGrow(start, admitted, l);
      forall c | c != Gas || gas
        ensures At(NewHigh(b.high, l.used, l.reserved), c) == Max(At(b.high, c), Excess(l, c))
      {
        NeededAt(b.high, l, c);
      }
    }
  }

  /** The incremental test admits exactly the loads for which there is room: for every counter,
      the gas included where no admitted load reserved less of it than it used. */
  lemma AdmissionIsExact(start: Budget, admitted: seq<Load>, b: Budget, l: Load, gas: bool)
    requires Totals(start, admitted, b) && Peaks(start, admitted, b, gas) && Covered(b)
    requires NoWrapAt(b, l) && (gas ==> HonestGas(l))
    ensures Charge(b, l).1 <==>
      && HasRoom(start, admitted, l, gas)
      && At(l.used, Gas) + Max(At(b.high, Gas), Excess(l, Gas)) <= At(b.remaining.zk, Gas)
  {
    hide Needed, NewHigh, NoWrap, At, Excess, Max, TotalUsed, PeakExcess, TotalBytes, Limit, Leq, Sum;
    TotalsGrow(start, admitted, l);
    SafeAt(b, l);
    ChargeKeepsCover(b, l);
    forall c
      ensures At(Needed(b.high, l.used, l.reserved), c) == At(l.used, c) + Max(At(b.high, c), Excess(l, c))
    {
      NeededAt(b.high, l, c);
    }
    LeqAt(Needed(b.high, l.used, l.reserved), b.remaining.zk);
  }

  /** Over a whole run in which no sum wraps, the high counters are the largest excess of the
      admitted loads, the gas included if every load reserves what it uses. */
  lemma {:induction false} RunIsAccounted(start: Budget, loads: seq<Load>, n: nat, gas: bool)
    requires Covered(start) && n <= |loads|
    requires forall k: nat :: k < |loads| ==> NoWrapAt(After(start, loads, k), loads[k])
    requires gas ==> forall k :: 0 <= k < |loads| ==> HonestGas(loads[k])
    ensures Covered(After(start, loads, n)) && Peaks(start, ChargeAll(start, loads[..n]).1, After(start, loads, n), gas)
  {
    if n == 0 {
      assert loads[..0] == [];
    } else {
      RunIsAccounted(start, loads, n - 1, gas);
      assert loads[..n][..n - 1] == loads[..n - 1];
      assert NoWrapAt(After(start, loads, n - 1), loads[n - 1]);
      hide Peaks, Charge, Covered, Safe, NoWrapAt, HonestGas;
      var b, l := After(start, loads, n - 1), loads[n - 1];
      ChargePeaks(start, ChargeAll(start, loads[..n - 1]).1, b, l, gas);
      SafeAt(b, l);
      ChargeKeepsCover(b, l);
    }
  }

  function GasLoad(used: uint64, reserved: uint64): Load {
    Load(NO_COUNTERS.(gasUsed := used), NO_COUNTERS.(gasUsed := reserved), 1)
  }

  /** Without reserving the gas it uses, a load makes the batch forget an earlier reserve:
      the third load is admitted where there is no room for what the first one reserved. */
  lemma GasReserveForgotten()
    ensures
      var start := Budget(Resources(NO_COUNTERS.(gasUsed := 12), 100), NO_COUNTERS);
      var (b1, ok1) := Charge(start, GasLoad(1, 10));
      var (b2, ok2) := Charge(b1, GasLoad(2, 1));
      && ok1 && ok2 && Charge(b2, GasLoad(9, 9)).1
      && !HasRoom(start, [GasLoad(1, 10), GasLoad(2, 1)], GasLoad(9, 9), true)
  {
    var start := Budget(Resources(NO_COUNTERS.(gasUsed := 12), 100), NO_COUNTERS);
    var first, second, third := GasLoad(1, 10), GasLoad(2, 1), GasLoad(9, 9);
    TotalsGrow(start, [], first);
    TotalsGrow(start, [first], second);
    TotalsGrow(start, [first, second], third);
    assert [] + [first] == [first] && [first] + [second] == [first, second];
    hide TotalUsed, PeakExcess, TotalBytes;
    assert TotalUsed([first, second] + [third], Gas) >= 12;
    assert PeakExcess(At(start.high, Gas), [first, second] + [third], Gas) >= 9;
  }

  /** A counter whose sum wraps is admitted although the batch cannot hold it. */
  lemma WrappedAdmission()
    ensures
      var b := Budget(Resources(NO_COUNTERS.(steps := 10), 10), NO_COUNTERS.(steps := 5));
      var l := Load(NO_COUNTERS.(steps := TWO_32 - 5), NO_COUNTERS.(steps := TWO_32 - 5), 1);
      Covered(b) && LoadFits(b, l) && !Charge(b, l).1
  {
  }

  lemma NeededAlone(l: Load, c: Counter)
    ensures At(Needed(NO_COUNTERS, l.used, l.reserved), c) == Max(At(l.used, c), At(l.reserved, c))
  {
    assert At(NO_COUNTERS, c) == 0 && At(l.used, c) < Limit(c);
    NeededAt(NO_COUNTERS, l, c);
    hide Needed;
  }

  /** It fits an empty batch exactly when neither its reserved counters, nor its used ones, nor
      its bytes exceed the batch. */
  lemma FitsEmptyIff(max: Resources, l: Load)
    ensures LoadFits(Budget(max, NO_COUNTERS), l)
       <==> Leq(l.reserved, max.zk) && Leq(l.used, max.zk) && l.bytes <= max.bytes
  {
    hide Needed, Leq, At;
    forall c ensures At(Needed(NO_COUNTERS, l.used, l.reserved), c) == Max(At(l.used, c), At(l.reserved, c)) {
      NeededAlone(l, c);
    }
    LeqAt(Needed(NO_COUNTERS, l.used, l.reserved), max.zk);
    LeqAt(l.reserved, max.zk);
    LeqAt(l.used, max.zk);
  }

  /** What fits some batch on a sum that does not wrap fits an empty one. */
  lemma FitsEmptyFirst(max: Resources, b: Budget, l: Load)
    requires LeqAll(b.remaining, max) && NoWrapAt(b, l) && LoadFits(b, l)
    ensures LoadFits(Budget(max, NO_COUNTERS), l)
  {
    hide Needed, Leq, At;
    forall c ensures At(l.used, c) <= At(max.zk, c) && At(l.reserved, c) <= At(max.zk, c) {
      NeededAt(b.high, l, c);
      LeqAt(Needed(b.high, l.used, l.reserved), b.remaining.zk);
      LeqAt(b.remaining.zk, max.zk);
    }
    LeqAt(l.reserved, max.zk);
    LeqAt(l.used, max.zk);
    FitsEmptyIff(max, l);
  }

  /** A transaction that does not fit is dropped for good when its reserved counters are not
      within the constraints of a batch; otherwise it is tried again in a later one. */
  predicate Drops(max: Resources, b: Budget, l: Load) {
    !LoadFits(b, l) && !Leq(l.reserved, max.zk)
  }

  /** Only what fits no batch is dropped. The decision is right both ways if and only if it is not
      just the used counters or the bytes that exceed the batch. */
  lemma DropIsRight(max: Resources, b: Budget, l: Load)
    requires !LoadFits(b, l)
    ensures Drops(max, b, l) ==> !LoadFits(Budget(max, NO_COUNTERS), l)
    ensures (Drops(max, b, l) <==> !LoadFits(Budget(max, NO_COUNTERS), l))
       <==> !Leq(l.reserved, max.zk) || (Leq(l.used, max.zk) && l.bytes <= max.bytes)
  {
    hide Needed, Leq;
    FitsEmptyIff(max, l);
  }

  /** A transaction that uses more than a batch has but reserves less fits no batch and is never
      dropped. */
  lemma NeverFitsNeverDropped(b: Budget)
    ensures
      var max := Resources(NO_COUNTERS.(steps := 10), 10);
      var l := Load(NO_COUNTERS.(steps := 11), NO_COUNTERS.(steps := 1), 1);
      !LoadFits(Budget(max, NO_COUNTERS), l) && !Drops(max, b, l)
  {
    var max := Resources(NO_COUNTERS.(steps := 10), 10);
    FitsEmptyIff(max, Load(NO_COUNTERS.(steps := 11), NO_COUNTERS.(steps := 1), 1));
    hide Needed;
  }

  // ---- storing blocks and setting the batch again after a restart ----

  /** A processed L2 block: its load as executed, and the length of the data stored for it. */
  datatype Processed = Processed(load: Load, storedBytes: uint64)

  datatype Stored = Stored(resources: Resources, high: ZKCounters)

  /** The final budget after processing the blocks of one batch, None at the first error. */
  function ProcessAll(b: Budget, blocks: seq<Processed>): Option<Budget> {
    if blocks == [] then Some(b)
    else
      var prev := ProcessAll(b, blocks[..|blocks| - 1]);
      if prev.None? then None else ChargeFinal(prev.value, blocks[|blocks| - 1].load)
  }

  /** The row of the batch after storing them: sums, and the high counters each block
      left in the final budget. */
  function StoreAll(b: Budget, blocks: seq<Processed>): Stored
    requires ProcessAll(b, blocks).Some?
  {
    if blocks == [] then Stored(NO_RESOURCES, b.high)
    else
      var last := blocks[|blocks| - 1];
      var row := StoreAll(b, blocks[..|blocks| - 1]);
      Stored(SumUp(row.resources, Resources(last.load.used, last.storedBytes)),
             ProcessAll(b, blocks).value.high)
  }

  /** setWIPBatch: the budget rebuilt from the row, None when the row exceeds the batch. */
  function SetWIPBatch(max: Resources, row: Stored): Option<Budget> {
    var s := Sub(max, row.resources);
    if s.1 then None else Some(Budget(s.0, row.high))
  }

  function ExecutedBytes(blocks: seq<Processed>): nat {
    if blocks == [] then 0 else ExecutedBytes(blocks[..|blocks| - 1]) + blocks[|blocks| - 1].load.bytes
  }

  function StoredBytes(blocks: seq<Processed>): nat {
    if blocks == [] then 0 else StoredBytes(blocks[..|blocks| - 1]) + blocks[|blocks| - 1].storedBytes
  }

  lemma SumUpBytes(row: Resources, used: Resources, before: nat)
    requires row.bytes == before % TWO_64
    ensures SumUp(row, used).bytes == (before + used.bytes) % TWO_64
  {
  }

  lemma SumUpExact(left: Resources, used: Resources, left': Resources, row: Resources, max: Resources)
    requires Sum(left'.zk, used.zk, left.zk) && Sum(left.zk, row.zk, max.zk)
    ensures Sum(left'.zk, SumUp(row, used).zk, max.zk)
  {
  }

  /** What was processed is what is stored, counter by counter, without a wrap. */
  lemma {:induction false} StoredIsUsed(max: Resources, blocks: seq<Processed>)
    requires ProcessAll(Budget(max, NO_COUNTERS), blocks).Some?
    ensures var b := ProcessAll(Budget(max, NO_COUNTERS), blocks).value;
      var row := StoreAll(Budget(max, NO_COUNTERS), blocks);
      && Sum(b.remaining.zk, row.resources.zk, max.zk)
      && b.remaining.bytes + ExecutedBytes(blocks) == max.bytes
      && row.high == b.high
  {
    if blocks != [] {
      var prefix, last := blocks[..|blocks| - 1], blocks[|blocks| - 1];
      StoredIsUsed(max, prefix);
      hide LoadFits, NewHigh, Sum, SumUp;
      var start := Budget(max, NO_COUNTERS);
      SumUpExact(ProcessAll(start, prefix).value.remaining, Resources(last.load.used, last.storedBytes),
                 ProcessAll(start, blocks).value.remaining, StoreAll(start, prefix).resources, max);
    }
  }

  /** The bytes stored are those of the data stored for the blocks, in 64 bits. */
  lemma {:induction false} StoredBytesAre(b: Budget, blocks: seq<Processed>)
    requires ProcessAll(b, blocks).Some?
    ensures StoreAll(b, blocks).resources.bytes == StoredBytes(blocks) % TWO_64
  {
    if blocks != [] {
      var prefix, last := blocks[..|blocks| - 1], blocks[|blocks| - 1];
      StoredBytesAre(b, prefix);
      hide ChargeFinal, SumUp;
      SumUpBytes(StoreAll(b, prefix).resources, Resources(last.load.used, last.storedBytes), StoredBytes(prefix));
    }
  }

  /** A restart rebuilds the budget the sequencer had: the counters and the high ones
      always, the whole budget exactly when what is stored is as long as what was run. */
  lemma RestartRecovers(max: Resources, blocks: seq<Processed>)
    requires ProcessAll(Budget(max, NO_COUNTERS), blocks).Some?
    ensures var b := ProcessAll(Budget(max, NO_COUNTERS), blocks).value;
      var row := StoreAll(Budget(max, NO_COUNTERS), blocks);
      var rebuilt := SetWIPBatch(max, row);
      && (rebuilt.None? <==> row.resources.bytes > max.bytes)
      && (rebuilt.Some? ==> rebuilt.value.remaining.zk == b.remaining.zk && rebuilt.value.high == b.high)
      && (rebuilt == Some(b) <==> row.resources.bytes == ExecutedBytes(blocks))
  {
    StoredIsUsed(max, blocks);
    var b, row := ProcessAll(Budget(max, NO_COUNTERS), blocks).value, StoreAll(Budget(max, NO_COUNTERS), blocks);
    hide ProcessAll, StoreAll, ExecutedBytes, StoredBytes;
    SubIsSum(max, row.resources, b.remaining.zk);
    hide Sum, Leq;
  }

  lemma SubIsSum(max: Resources, row: Resources, left: ZKCounters)
    requires Sum(left, row.zk, max.zk)
    ensures Sub(max, row).1 <==> row.bytes > max.bytes
    ensures !Sub(max, row).1 ==> Sub(max, row).0 == Resources(left, max.bytes - row.bytes)
  {
    if row.bytes <= max.bytes {
      assert Leq(row.zk, max.zk);
      MinusIsSum(max.zk, row.zk, left);
    }
  }

  function Sub32(a: uint32, b: uint32): uint32 { (a - b) % TWO_32 }

  function Sub64(a: uint64, b: uint64): uint64 { (a - b) % TWO_64 }

  /** getUsedBatchResources, which wraps. */
  function UsedResources(max: Resources, left: Resources): Resources {
    Resources(
      ZKCounters(Sub64(max.zk.gasUsed, left.zk.gasUsed), Sub32(max.zk.keccakHashes, left.zk.keccakHashes),
                 Sub32(max.zk.poseidonHashes, left.zk.poseidonHashes),
                 Sub32(max.zk.poseidonPaddings, left.zk.poseidonPaddings),
                 Sub32(max.zk.memAligns, left.zk.memAligns), Sub32(max.zk.arithmetics, left.zk.arithmetics),
                 Sub32(max.zk.binaries, left.zk.binaries), Sub32(max.zk.steps, left.zk.steps),
                 Sub32(max.zk.sha256Hashes, left.zk.sha256Hashes)),
      Sub64(max.bytes, left.bytes))
  }

  lemma UsedAt(max: Resources, left: Resources, c: Counter)
    requires At(left.zk, c) <= At(max.zk, c) && left.bytes <= max.bytes
    ensures UsedResources(max, left).bytes == max.bytes - left.bytes
    ensures At(UsedResources(max, left).zk, c) == At(max.zk, c) - At(left.zk, c)
  {
    Sub64Is(max.bytes, left.bytes);
    if c == Gas { Sub64Is(max.zk.gasUsed, left.zk.gasUsed); } else { Sub32Is(At(max.zk, c), At(left.zk, c)); }
    hide Sub32, Sub64;
  }

  lemma Sub32Is(a: uint32, b: uint32)
    requires b <= a
    ensures Sub32(a, b) == a - b
  {
  }

  lemma Sub64Is(a: uint64, b: uint64)
    requires b <= a
    ensures Sub64(a, b) == a - b
  {
  }

  /** The resources reported when a batch is closed are what it had used at the start of
      the run, after a restart or for a moved L2 block, plus the totals of what it admitted. */
  lemma ClosingReportsTotals(max: Resources, start: Budget, loads: seq<Load>)
    requires LeqAll(start.remaining, max)
    ensures var (b, admitted) := ChargeAll(start, loads);
      && (forall c :: At(UsedResources(max, b.remaining).zk, c)
                      == At(max.zk, c) - At(start.remaining.zk, c) + TotalUsed(admitted, c))
      && UsedResources(max, b.remaining).bytes == max.bytes - start.remaining.bytes + TotalBytes(admitted)
  {
    RunTotals(start, loads);
    LeqAt(start.remaining.zk, max.zk);
    hide ChargeAll, TotalUsed, TotalBytes, At, UsedResources, Leq;
    var (b, admitted) := ChargeAll(start, loads);
    forall c
      ensures At(UsedResources(max, b.remaining).zk, c)
           == At(max.zk, c) - At(start.remaining.zk, c) + TotalUsed(admitted, c)
    {
      assert At(b.remaining.zk, c) + TotalUsed(admitted, c) == At(start.remaining.zk, c);
      UsedAt(max, b.remaining, c);
    }
    assert At(b.remaining.zk, Gas) + TotalUsed(admitted, Gas) == At(start.remaining.zk, Gas);
    UsedAt(max, b.remaining, Gas);
  }

  /** The counters of an empty L2 block, with room for writing the L1 info root later. */
  function OnNew(z: ZKCounters): ZKCounters {
    z.(poseidonHashes := (z.poseidonHashes * 2 + 2) % TWO_32)
  }

  /** Twice the poseidon hashes and two more, in 32 bits; every other counter as it was. */
  ghost predicate IsOnNew(z: ZKCounters, z': ZKCounters) {
    && z'.poseidonHashes == (z.poseidonHashes + z.poseidonHashes + 2) % 0x1_0000_0000
    && forall c :: c != Poseidons ==> At(z', c) == At(z, c)
  }

  lemma OnNewIs(z: ZKCounters)
    ensures IsOnNew(z, OnNew(z))
  {
  }

  /** The resource fields of a wip batch: the intermediate ones follow transactions, the
      final ones follow processed L2 blocks. */
  class Batch {
    var imRemaining: Resources
    var imHigh: ZKCounters
    var finalRemaining: Resources
    var finalHigh: ZKCounters

    function Im(): Budget reads this { Budget(imRemaining, imHigh) }

    function Final(): Budget reads this { Budget(finalRemaining, finalHigh) }

    predicate Valid() reads this { Covered(Im()) && Covered(Final()) }

    /** openNewWIPBatch */
    constructor Open(max: Resources)
      ensures Valid() && Im() == Final() == Budget(max, NO_COUNTERS)
    {
      imRemaining, imHigh := max, NO_COUNTERS;
      finalRemaining, finalHigh := max, NO_COUNTERS;
    }

    /** The end of handleProcessTransactionResponse. */
    method ChargeTx(l: Load) returns (admitted: bool)
      requires Valid()
      modifies `imRemaining, `imHigh
      ensures (Im(), admitted) == Charge(old(Im()), l)
      ensures Valid() <==> (admitted ==> Safe(old(Im()), l))
    {
      ChargeKeepsCover(Im(), l);
      var needed, newHigh := Needed(imHigh, l.used, l.reserved), NewHigh(imHigh, l.used, l.reserved);
      var (fits, _) := Fits(imRemaining, Resources(needed, l.bytes));
      var overflow := false;
      if fits {
        var s := Sub(imRemaining, Resources(l.used, l.bytes));
        imRemaining, overflow := s.0, s.1;
        imHigh := newHigh;
      }
      admitted := fits && !overflow;
      hide Needed, NewHigh, NoWrap, Leq, Sum;
    }

    /** openNewWIPL2Block: the charge of an empty L2 block; false means the batch is
        closed and the block moves to the next one. */
    method ChargeNewBlock(used: ZKCounters, reserved: ZKCounters, bytes: uint64) returns (fits: bool, ghost l: Load)
      requires Valid()
      modifies `imRemaining, `imHigh
      ensures l.bytes == bytes && IsOnNew(used, l.used) && IsOnNew(reserved, l.reserved)
      ensures (Im(), fits) == Charge(old(Im()), l)
      ensures Valid() <==> (fits ==> Safe(old(Im()), l))
    {
      l := Load(OnNew(used), OnNew(reserved), bytes);
      OnNewIs(used);
      OnNewIs(reserved);
      hide Charge, Covered, Safe;
      fits := ChargeTx(Load(OnNew(used), OnNew(reserved), bytes));
    }

    /** closeAndOpenNewWIPBatch: the empty L2 block is charged to the batch just opened for
        it. The high counters stay at zero. */
    method MoveBlock(used: ZKCounters, bytes: uint64) returns (overflow: bool)
      requires Valid() && imHigh == NO_COUNTERS
      modifies `imRemaining
      ensures Valid() && Final() == old(Final())
      ensures overflow <==> !LeqAll(Resources(used, bytes), old(imRemaining))
      ensures overflow ==> Im() == old(Im())
      ensures !overflow ==> SumAll(imRemaining, Resources(used, bytes), old(imRemaining))
    {
      var s := Sub(imRemaining, Resources(used, bytes));
      imRemaining, overflow := s.0, s.1;
    }

    /** The resource part of processL2Block. */
    method ProcessBlock(l: Load) returns (ok: bool)
      requires Valid()
      modifies `finalRemaining, `finalHigh
      ensures ok == ChargeFinal(old(Final()), l).Some?
      ensures Final() == if ok then ChargeFinal(old(Final()), l).value else old(Final())
      ensures Valid() <==> (ok ==> Safe(old(Final()), l))
    {
      ChargeKeepsCover(Final(), l);
      var needed, newHigh := Needed(finalHigh, l.used, l.reserved), NewHigh(finalHigh, l.used, l.reserved);
      var (fits, _) := Fits(finalRemaining, Resources(needed, l.bytes));
      ok := false;
      if fits {
        var s := Sub(finalRemaining, Resources(l.used, l.bytes));
        if !s.1 {
          finalRemaining, finalHigh, ok := s.0, newHigh, true;
        }
      }
      hide Needed, NewHigh, NoWrap, Leq, Sum;
    }
  }
}
