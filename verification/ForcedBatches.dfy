/** sequencer/forcedbatch.go: the queue of forced batches and how it is drained. */
module ForcedBatches {
  import opened Wrappers

  type Root = nat

  datatype ForcedBatch = ForcedBatch(number: nat, data: seq<nat>)

  /** A forced batch in the state: opened and closed in one database transaction. */
  datatype Closed = Closed(batch: nat, forced: ForcedBatch, before: Root, after: Root)

  /** The answers of the state and the executor. */
  datatype Env = Env(
    begins: ForcedBatch -> bool,
    hasL1Block: ForcedBatch -> bool,
    opens: ForcedBatch -> bool,
    executes: (ForcedBatch, nat, Root) -> Option<Root>,
    closes: ForcedBatch -> bool,
    storesBlocks: ForcedBatch -> bool,
    commits: ForcedBatch -> bool,
    lookup: nat -> Option<ForcedBatch>)

  ghost predicate Succeeds(env: Env, fb: ForcedBatch, last: nat, root: Root) {
    && env.begins(fb) && env.hasL1Block(fb) && env.opens(fb)
    && env.executes(fb, last + 1, root).Some?
    && env.closes(fb) && env.storesBlocks(fb) && env.commits(fb)
  }

  /** The state finds a forced batch by its number. */
  ghost predicate LooksUpByNumber(env: Env) {
    forall n :: env.lookup(n).Some? ==> env.lookup(n).value.number == n
  }

  // ---- sorting ----

  ghost predicate Ascending(s: seq<ForcedBatch>) {
    forall i, j :: 0 <= i < j < |s| ==> s[i].number <= s[j].number
  }

  ghost predicate StrictlyAscending(s: seq<ForcedBatch>) {
    forall i, j :: 0 <= i < j < |s| ==> s[i].number < s[j].number
  }

  /** The first i batches are in place: ascending and not above any later one. */
  ghost predicate Placed(s: seq<ForcedBatch>, i: int) {
    forall a, b :: 0 <= a < i && a < b < |s| ==> s[a].number <= s[b].number
  }

  /** Batch i is not above those between it and j. */
  ghost predicate LeastUpTo(s: seq<ForcedBatch>, i: int, j: int)
    requires 0 <= i < |s| && j <= |s|
  {
    forall b :: i < b < j ==> s[i].number <= s[b].number
  }

  ghost function Swapped(s: seq<ForcedBatch>, i: nat, j: nat): seq<ForcedBatch>
    requires i < j < |s|
  {
    s[i := s[j]][j := s[i]]
  }

  lemma SwapIsPermutation(s: seq<ForcedBatch>, i: nat, j: nat)
    requires i < j < |s|
    ensures multiset(Swapped(s, i, j)) == multiset(s)
  {
    assert s == s[..i] + [s[i]] + s[i + 1..j] + [s[j]] + s[j + 1..];
    assert Swapped(s, i, j) == s[..i] + [s[j]] + s[i + 1..j] + [s[i]] + s[j + 1..];
  }

  lemma SwapKeepsPlaced(s: seq<ForcedBatch>, i: nat, j: nat)
    requires i < j < |s| && Placed(s, i) && LeastUpTo(s, i, j) && s[i].number > s[j].number
    ensures Placed(Swapped(s, i, j), i) && LeastUpTo(Swapped(s, i, j), i, j + 1)
  {
  }

  method Exchange(fb: array<ForcedBatch>, i: nat, j: nat)
    requires i < j < fb.Length
    modifies fb
    ensures fb[..] == Swapped(old(fb[..]), i, j)
  {
    fb[i], fb[j] := fb[j], fb[i];
  }

  /** The inner loop: brings the least of the batches from i on to place i. */
  method SelectLeast(fb: array<ForcedBatch>, i: nat)
    requires i < fb.Length && Placed(fb[..], i)
    modifies fb
    ensures Placed(fb[..], i + 1)
    ensures multiset(fb[..]) == old(multiset(fb[..]))
  {
    for j := i + 1 to fb.Length
      invariant Placed(fb[..], i) && LeastUpTo(fb[..], i, j)
      invariant multiset(fb[..]) == old(multiset(fb[..]))
    {
      if fb[i].number > fb[j].number {
        hide Placed, LeastUpTo, Swapped;
        SwapIsPermutation(fb[..], i, j);
        SwapKeepsPlaced(fb[..], i, j);
        Exchange(fb, i, j);
      }
    }
  }

  /** sortForcedBatches: exchange sort in place. */
  method SortForcedBatches(fb: array<ForcedBatch>)
    modifies fb
    ensures Ascending(fb[..])
    ensures multiset(fb[..]) == old(multiset(fb[..]))
  {
    if fb.Length == 0 {
      return;
    }
    for i := 0 to fb.Length - 1
      invariant Placed(fb[..], i)
      invariant multiset(fb[..]) == old(multiset(fb[..]))
    {
      SelectLeast(fb, i);
    }
  }

  // ---- draining the queue ----

  ghost function RootAfter(rows: seq<Closed>, root: Root): Root {
    if rows == [] then root else rows[|rows| - 1].after
  }

  /** Consecutive forced batches in consecutive batches, each executed from the root of
      the one before. */
  ghost predicate Chained(env: Env, rows: seq<Closed>, lastForced: nat, lastBatch: nat, root: Root) {
    && (forall i :: 0 <= i < |rows| ==>
          rows[i].forced.number == lastForced + 1 + i && rows[i].batch == lastBatch + 1 + i)
    && (rows != [] ==> rows[0].before == root)
    && (forall i :: 0 < i < |rows| ==> rows[i].before == rows[i - 1].after)
    && (forall i :: 0 <= i < |rows| ==>
          env.executes(rows[i].forced, rows[i].batch, rows[i].before) == Some(rows[i].after))
  }

  lemma RunGrows(env: Env, rows: seq<Closed>, row: Closed, lastForced: nat, lastBatch: nat, root: Root)
    requires Chained(env, rows, lastForced, lastBatch, root)
    requires row.forced.number == lastForced + 1 + |rows| && row.batch == lastBatch + 1 + |rows|
    requires row.before == RootAfter(rows, root)
    requires env.executes(row.forced, row.batch, row.before) == Some(row.after)
    ensures Chained(env, rows + [row], lastForced, lastBatch, root)
    ensures ForcedOf(rows + [row]) == ForcedOf(rows) + [row.forced]
    ensures RootAfter(rows + [row], root) == row.after
  {
    assert ForcedOf(rows + [row])[..|rows|] == ForcedOf(rows);
  }

  lemma EmptyRun(env: Env, lastForced: nat, lastBatch: nat, root: Root)
    ensures RootAfter([], root) == root && Chained(env, [], lastForced, lastBatch, root)
    ensures Drain(env, [], lastForced + 1) == Some(ForcedOf([]))
    ensures RunRoot(env, ForcedOf([]), lastBatch, root) == Some(root)
  {
    assert ForcedOf([]) == [];
  }

  /** The forced batches to process for a queue, in order, starting at number `next`: every
      queued one is skipped, taken, or replaced by the missing one the state holds. None when
      the state cannot give one. */
  ghost function Drain(env: Env, queue: seq<ForcedBatch>, next: nat): Option<seq<ForcedBatch>> {
    if queue == [] then Some([])
    else
      var before := Drain(env, queue[..|queue| - 1], next);
      if before.None? then None
      else
        var fb, n := queue[|queue| - 1], next + |before.value|;
        if fb.number < n then before
        else if fb.number == n then Some(before.value + [fb])
        else if env.lookup(n).None? then None
        else Some(before.value + [env.lookup(n).value])
  }

  lemma DrainStep(env: Env, queue: seq<ForcedBatch>, i: nat, next: nat)
    requires i < |queue| && Drain(env, queue[..i], next).Some?
    ensures
      var before := Drain(env, queue[..i], next).value;
      var n := next + |before|;
      Drain(env, queue[..i + 1], next)
      == if queue[i].number < n then Some(before)
         else if queue[i].number == n then Some(before + [queue[i]])
         else if env.lookup(n).None? then None
         else Some(before + [env.lookup(n).value])
  {
    assert queue[..i + 1][..i] == queue[..i];
  }

  lemma DrainsBefore(env: Env, queue: seq<ForcedBatch>, m: nat, next: nat)
    requires 0 < m <= |queue| && Drain(env, queue[..m], next).Some?
    ensures Drain(env, queue[..m - 1], next).Some?
  {
    assert queue[..m][..m - 1] == queue[..m - 1];
  }

  /** The root after processing the forced batches in the batches after `last`, each on the root
      of the one before. None when one of them does not succeed there. */
  ghost function RunRoot(env: Env, forced: seq<ForcedBatch>, last: nat, root: Root): Option<Root> {
    if forced == [] then Some(root)
    else
      var before := RunRoot(env, forced[..|forced| - 1], last, root);
      var fb := forced[|forced| - 1];
      if before.None? || !Succeeds(env, fb, last + |forced| - 1, before.value) then None
      else env.executes(fb, last + |forced|, before.value)
  }

  lemma RunStep(env: Env, forced: seq<ForcedBatch>, fb: ForcedBatch, last: nat, root: Root)
    requires RunRoot(env, forced, last, root).Some?
    ensures
      var before := RunRoot(env, forced, last, root).value;
      RunRoot(env, forced + [fb], last, root)
      == if Succeeds(env, fb, last + |forced|, before) then env.executes(fb, last + |forced| + 1, before)
         else None
  {
    assert (forced + [fb])[..|forced|] == forced;
  }

  /** No step fails for this queue: the state gives every missing forced batch that is called
      for, and each one succeeds at its own batch number and root. */
  ghost predicate Completes(env: Env, queue: seq<ForcedBatch>, lastForced: nat, last: nat, root: Root) {
    var forced := Drain(env, queue, lastForced + 1);
    forced.Some? && RunRoot(env, forced.value, last, root).Some?
  }

  lemma CompletesBefore(env: Env, queue: seq<ForcedBatch>, m: nat, lastForced: nat, last: nat, root: Root)
    requires m < |queue| && Completes(env, queue[..m + 1], lastForced, last, root)
    ensures Completes(env, queue[..m], lastForced, last, root)
  {
    DrainsBefore(env, queue, m + 1, lastForced + 1);
    DrainStep(env, queue, m, lastForced + 1);
    hide Drain;
    var before := Drain(env, queue[..m], lastForced + 1).value;
    var after := Drain(env, queue[..m + 1], lastForced + 1).value;
    if before != after { assert after[..|after| - 1] == before; }
  }

  /** A step that fails stays failed. */
  lemma {:induction false} FailureStays(env: Env, queue: seq<ForcedBatch>, m: nat,
                                        lastForced: nat, last: nat, root: Root)
    requires m <= |queue| && !Completes(env, queue[..m], lastForced, last, root)
    ensures !Completes(env, queue, lastForced, last, root)
    decreases |queue| - m
  {
    hide Completes;
    if m == |queue| {
      assert queue[..m] == queue;
    } else {
      assert !Completes(env, queue[..m + 1], lastForced, last, root) by {
        if Completes(env, queue[..m + 1], lastForced, last, root) {
          CompletesBefore(env, queue, m, lastForced, last, root);
        }
      }
      FailureStays(env, queue, m + 1, lastForced, last, root);
    }
  }

  ghost function ForcedOf(rows: seq<Closed>): (forced: seq<ForcedBatch>)
    ensures |forced| == |rows|
  {
    seq(|rows|, i requires 0 <= i < |rows| => rows[i].forced)
  }

  class Finalizer {
    var queue: seq<ForcedBatch>
    var rows: seq<Closed>

    /** processForcedBatch: on any error the last batch and root come back as they were and
        the transaction leaves nothing. */
    method ProcessForcedBatch(env: Env, fb: ForcedBatch, last: nat, root: Root)
      returns (last': nat, root': Root, ok: bool)
      modifies `rows
      ensures ok <==> Succeeds(env, fb, last, root)
      ensures ok <==> env.begins(fb) && env.hasL1Block(fb) && env.opens(fb) && env.executes(fb, last + 1, root).Some?
                      && env.closes(fb) && env.storesBlocks(fb) && env.commits(fb)
      ensures !ok ==> last' == last && root' == root && rows == old(rows)
      ensures ok ==> last' == last + 1 && rows == old(rows) + [Closed(last + 1, fb, root, root')]
      ensures ok ==> Some(root') == env.executes(fb, last + 1, root)
    {
      last', root', ok := last, root, false;
      if !env.begins(fb) || !env.hasL1Block(fb) || !env.opens(fb) {
        return;
      }
      var response := env.executes(fb, last + 1, root);
      if response.None? || !env.closes(fb) || !env.storesBlocks(fb) || !env.commits(fb) {
        return;
      }
      rows := rows + [Closed(last + 1, fb, root, response.value)];
      return last + 1, response.value, true;
    }

    /** processForcedBatches. `lastForced` is the last trusted forced batch number, None when
        it cannot be read. The rows added are consecutive and chained, and are what the first
        `handled` queued batches call for. All of the queue is handled, and the queue emptied, if
        and only if no step fails for it; otherwise the first step that fails is the one after. */
    method ProcessForcedBatches(env: Env, lastForced: Option<nat>, last: nat, root: Root)
      returns (last': nat, root': Root, ghost news: seq<Closed>, ghost handled: nat, ghost done: bool)
      requires LooksUpByNumber(env)
      modifies this
      ensures rows == old(rows) + news
      ensures last' == last + |news| && root' == RootAfter(news, root)
      ensures lastForced.None? ==> !done && news == []
      ensures handled <= |old(queue)| && (done ==> handled == |old(queue)|)
      ensures lastForced.Some? ==> Chained(env, news, lastForced.value, last, root)
      ensures lastForced.Some? ==>
        Drain(env, old(queue)[..handled], lastForced.value + 1) == Some(ForcedOf(news))
      ensures queue == if done then [] else old(queue)
      ensures done <==> lastForced.Some? && Completes(env, old(queue), lastForced.value, last, root)
      ensures lastForced.Some? && !done ==>
        handled < |old(queue)| && !Completes(env, old(queue)[..handled + 1], lastForced.value, last, root)
    {
      hide Chained, RootAfter, Drain, RunRoot, ForcedOf, Succeeds;
      last', root', news, handled, done := last, root, [], 0, false;
      EmptyRun(env, 0, last, root);
      if lastForced.None? {
        return;
      }
      EmptyRun(env, lastForced.value, last, root);
      var next := lastForced.value + 1;
      for i := 0 to |queue|
        invariant queue == old(queue) && rows == old(rows) + news && handled == i
        invariant next == lastForced.value + 1 + |news|
        invariant last' == last + |news| && root' == RootAfter(news, root)
        invariant Chained(env, news, lastForced.value, last, root)
        invariant Drain(env, queue[..i], lastForced.value + 1) == Some(ForcedOf(news))
        invariant RunRoot(env, ForcedOf(news), last, root) == Some(root')
      {
        DrainStep(env, queue, i, lastForced.value + 1);
        var toProcess := queue[i];
        if toProcess.number < next {
          handled := i + 1;
          continue;
        } else if toProcess.number > next {
          var missing := env.lookup(next);
          if missing.None? {
            FailureStays(env, queue, i + 1, lastForced.value, last, root);
            return;
          }
          toProcess := missing.value;
        }
        RunStep(env, ForcedOf(news), toProcess, last, root);
        ghost var before := root';
        var ok;
        last', root', ok := ProcessForcedBatch(env, toProcess, last', root');
        if !ok {
          FailureStays(env, queue, i + 1, lastForced.value, last, root);
          return;
        }
        ghost var row := Closed(last', toProcess, before, root');
        RunGrows(env, news, row, lastForced.value, last, root);
        news := news + [row];
        next, handled := next + 1, i + 1;
      }
      assert queue[..|queue|] == queue;
      done := true;
      queue := [];
    }
  }

  // ---- when is the whole queue processed? ----

  ghost predicate Has(queue: seq<ForcedBatch>, number: nat) {
    exists i :: 0 <= i < |queue| && queue[i].number == number
  }

  /** Every number from the last trusted one up to any queued one is queued too. */
  ghost predicate NoGap(queue: seq<ForcedBatch>, lastForced: nat) {
    forall i, n :: 0 <= i < |queue| && lastForced < n <= queue[i].number ==> Has(queue, n)
  }

  /** The queued forced batches above the last trusted one. */
  ghost function Pending(queue: seq<ForcedBatch>, lastForced: nat): seq<ForcedBatch> {
    if queue == [] then []
    else if queue[|queue| - 1].number <= lastForced then Pending(queue[..|queue| - 1], lastForced)
    else Pending(queue[..|queue| - 1], lastForced) + [queue[|queue| - 1]]
  }

  lemma {:induction false} PendingMember(queue: seq<ForcedBatch>, lastForced: nat, fb: ForcedBatch)
    ensures fb in Pending(queue, lastForced) <==> fb in queue && fb.number > lastForced
  {
    if queue != [] {
      PendingMember(queue[..|queue| - 1], lastForced, fb);
      assert queue == queue[..|queue| - 1] + [queue[|queue| - 1]];
    }
  }

  lemma {:induction false} DrainNumbers(env: Env, queue: seq<ForcedBatch>, next: nat, k: nat)
    requires LooksUpByNumber(env)
    requires Drain(env, queue, next).Some? && k < |Drain(env, queue, next).value|
    ensures Drain(env, queue, next).value[k].number == next + k
  {
    if queue != [] {
      var before := Drain(env, queue[..|queue| - 1], next).value;
      if k < |before| { DrainNumbers(env, queue[..|queue| - 1], next, k); }
    }
  }

  /** The next forced number after the first m batches of a queue without gaps or repeats. */
  ghost function NextAfter(queue: seq<ForcedBatch>, m: nat, lastForced: nat): nat
    requires m <= |queue|
  {
    if m == 0 || queue[m - 1].number <= lastForced then lastForced + 1 else queue[m - 1].number + 1
  }

  lemma PendingStep(queue: seq<ForcedBatch>, i: nat, lastForced: nat)
    requires i < |queue|
    ensures Pending(queue[..i + 1], lastForced)
         == if queue[i].number <= lastForced then Pending(queue[..i], lastForced)
            else Pending(queue[..i], lastForced) + [queue[i]]
  {
    assert queue[..i + 1][..i] == queue[..i];
  }

  /** Without a gap the next number is never above a queued one that is still to come. */
  lemma NextIsQueued(queue: seq<ForcedBatch>, lastForced: nat, m: nat)
    requires Ascending(queue) && NoGap(queue, lastForced)
    requires m < |queue| && queue[m].number > lastForced
    ensures queue[m].number <= NextAfter(queue, m, lastForced)
  {
    var next := NextAfter(queue, m, lastForced);
    if next <= queue[m].number {
      assert Has(queue, next);
      var j :| 0 <= j < |queue| && queue[j].number == next;
      assert j >= m;
    }
  }

  lemma {:induction false} GapFreeDrains(env: Env, queue: seq<ForcedBatch>, lastForced: nat, m: nat)
    requires Ascending(queue) && NoGap(queue, lastForced) && m <= |queue|
    ensures Drain(env, queue[..m], lastForced + 1).Some?
    ensures lastForced + 1 + |Drain(env, queue[..m], lastForced + 1).value| == NextAfter(queue, m, lastForced)
    ensures forall fb :: fb in Drain(env, queue[..m], lastForced + 1).value ==> fb in queue
    ensures StrictlyAscending(queue) ==>
      Drain(env, queue[..m], lastForced + 1) == Some(Pending(queue[..m], lastForced))
  {
    if m == 0 {
      assert queue[..0] == [];
    } else {
      GapFreeDrains(env, queue, lastForced, m - 1);
      hide Drain, Pending;
      DrainStep(env, queue, m - 1, lastForced + 1);
      PendingStep(queue, m - 1, lastForced);
      if queue[m - 1].number > lastForced { NextIsQueued(queue, lastForced, m - 1); }
    }
  }

  /** The numbers processed are those queued above the last trusted one. */
  ghost predicate Complete(forced: seq<ForcedBatch>, queue: seq<ForcedBatch>, lastForced: nat) {
    forall n: nat :: Has(forced, n) <==> n > lastForced && Has(queue, n)
  }

  /** For a sorted queue a run without failures processes exactly the queued numbers above the
      last trusted one if and only if there is no gap, and then all it processes was queued.
      Without repeats that is every queued forced batch above the last trusted one. */
  lemma CompleteIffNoGap(env: Env, queue: seq<ForcedBatch>, lastForced: nat)
    requires Ascending(queue) && LooksUpByNumber(env)
    ensures
      var forced := Drain(env, queue, lastForced + 1);
      && (forced.Some? && Complete(forced.value, queue, lastForced) <==> NoGap(queue, lastForced))
      && (NoGap(queue, lastForced) ==> forall fb :: fb in forced.value ==> fb in queue)
      && (NoGap(queue, lastForced) && StrictlyAscending(queue) ==> forced.value == Pending(queue, lastForced))
  {
    assert queue[..|queue|] == queue;
    if NoGap(queue, lastForced) {
      GapFreeDrains(env, queue, lastForced, |queue|);
      GapFreeIsComplete(env, queue, lastForced);
    }
    var forced := Drain(env, queue, lastForced + 1);
    hide Drain;
    if forced.Some? && Complete(forced.value, queue, lastForced) {
      forall i, n | 0 <= i < |queue| && lastForced < n <= queue[i].number ensures Has(queue, n) {
        assert Has(queue, queue[i].number);
        NumberAt(env, queue, lastForced, queue[i].number);
        NumberAt(env, queue, lastForced, n);
      }
    }
  }

  /** The numbers processed are those from the last trusted one on, as many as there are. */
  lemma NumberAt(env: Env, queue: seq<ForcedBatch>, lastForced: nat, n: nat)
    requires LooksUpByNumber(env) && Drain(env, queue, lastForced + 1).Some?
    ensures var forced := Drain(env, queue, lastForced + 1).value;
            Has(forced, n) <==> lastForced < n <= lastForced + |forced|
  {
    var forced := Drain(env, queue, lastForced + 1).value;
    forall k | 0 <= k < |forced| ensures forced[k].number == lastForced + 1 + k {
      DrainNumbers(env, queue, lastForced + 1, k);
    }
    if lastForced < n <= lastForced + |forced| { assert forced[n - lastForced - 1].number == n; }
  }

  lemma GapFreeIsComplete(env: Env, queue: seq<ForcedBatch>, lastForced: nat)
    requires Ascending(queue) && NoGap(queue, lastForced) && LooksUpByNumber(env)
    requires Drain(env, queue, lastForced + 1).Some?
    requires lastForced + 1 + |Drain(env, queue, lastForced + 1).value| == NextAfter(queue, |queue|, lastForced)
    ensures Complete(Drain(env, queue, lastForced + 1).value, queue, lastForced)
  {
    hide Drain;
    var forced := Drain(env, queue, lastForced + 1).value;
    forall n: nat ensures Has(forced, n) <==> n > lastForced && Has(queue, n) {
      NumberAt(env, queue, lastForced, n);
      if n > lastForced && Has(queue, n) {
        var i :| 0 <= i < |queue| && queue[i].number == n;
        assert queue[i].number <= queue[|queue| - 1].number;
      }
    }
  }

  // ---- what a gap costs ----

  /** The next forced number after the first m queued batches. */
  ghost function Next(env: Env, queue: seq<ForcedBatch>, m: nat, lastForced: nat): int
    requires m <= |queue| && Drain(env, queue[..m], lastForced + 1).Some?
  {
    lastForced + 1 + |Drain(env, queue[..m], lastForced + 1).value|
  }

  lemma {:induction false} NeverAhead(env: Env, queue: seq<ForcedBatch>, m: nat, lastForced: nat)
    requires Ascending(queue) && m <= |queue| && Drain(env, queue[..m], lastForced + 1).Some?
    ensures Next(env, queue, m, lastForced) <= NextAfter(queue, m, lastForced)
  {
    if m == 0 {
      assert queue[..0] == [];
    } else {
      DrainsBefore(env, queue, m, lastForced + 1);
      NeverAhead(env, queue, m - 1, lastForced);
      hide Drain;
      DrainStep(env, queue, m - 1, lastForced + 1);
    }
  }

  lemma {:induction false} NonePending(queue: seq<ForcedBatch>, lastForced: nat)
    requires forall i :: 0 <= i < |queue| ==> queue[i].number <= lastForced
    ensures Pending(queue, lastForced) == []
  {
    if queue != [] { NonePending(queue[..|queue| - 1], lastForced); }
  }

  /** The first m queued batches reach number x: there are enough of them in all, and enough
      behind every one of them. */
  ghost predicate Reaches(queue: seq<ForcedBatch>, m: nat, lastForced: nat, x: int)
    requires m <= |queue|
  {
    && lastForced + |Pending(queue[..m], lastForced)| >= x
    && forall k :: 0 <= k < m && queue[k].number > lastForced ==> queue[k].number + m - 1 - k >= x
  }

  lemma {:induction false} NextReaches(env: Env, queue: seq<ForcedBatch>, m: nat, lastForced: nat, x: int)
    requires Ascending(queue) && m <= |queue| && Drain(env, queue[..m], lastForced + 1).Some?
    ensures Next(env, queue, m, lastForced) > x <==> Reaches(queue, m, lastForced, x)
    decreases m
  {
    if m == 0 {
      assert queue[..0] == [];
    } else {
      DrainsBefore(env, queue, m, lastForced + 1);
      NextReaches(env, queue, m - 1, lastForced, x - 1);
      NeverAhead(env, queue, m - 1, lastForced);
      hide Drain, Pending;
      DrainStep(env, queue, m - 1, lastForced + 1);
      PendingStep(queue, m - 1, lastForced);
      if queue[m - 1].number <= lastForced { NonePending(queue[..m - 1], lastForced); }
    }
  }

  /** A queued forced batch above the last trusted one is not among those processed. */
  ghost predicate Forgets(env: Env, queue: seq<ForcedBatch>, lastForced: nat)
    requires Drain(env, queue, lastForced + 1).Some?
  {
    exists i :: 0 <= i < |queue| && queue[i].number > lastForced + |Drain(env, queue, lastForced + 1).value|
  }

  /** For every sorted queue, repeats included: a run without failures leaves a queued forced
      batch out exactly when its last number is not reached. */
  lemma ForgetsIff(env: Env, queue: seq<ForcedBatch>, lastForced: nat)
    requires Ascending(queue) && queue != [] && Drain(env, queue, lastForced + 1).Some?
    ensures Forgets(env, queue, lastForced) <==>
            queue[|queue| - 1].number > lastForced
            && !Reaches(queue, |queue|, lastForced, queue[|queue| - 1].number)
  {
    assert queue[..|queue|] == queue;
    NextReaches(env, queue, |queue|, lastForced, queue[|queue| - 1].number);
    hide Drain, Reaches;
  }

  /** Without repeats: exactly when there is a gap. */
  lemma GapForgets(env: Env, queue: seq<ForcedBatch>, lastForced: nat)
    requires StrictlyAscending(queue) && Drain(env, queue, lastForced + 1).Some?
    ensures Forgets(env, queue, lastForced) <==> !NoGap(queue, lastForced)
  {
    if queue != [] {
      ForgetsIff(env, queue, lastForced);
      assert queue[..|queue|] == queue;
      if NoGap(queue, lastForced) {
        GapFreeDrains(env, queue, lastForced, |queue|);
      } else {
        var i, n :| 0 <= i < |queue| && lastForced < n <= queue[i].number && !Has(queue, n);
        hide Drain;
        MissingIsNotReached(queue, lastForced, n);
      }
    }
  }

  /** When the state gives what is called for and there is a gap, one of the queued forced
      batches above the last trusted one is not among those processed. */
  lemma GapLosesOne(env: Env, queue: seq<ForcedBatch>, lastForced: nat) returns (lost: ForcedBatch)
    requires LooksUpByNumber(env) && Drain(env, queue, lastForced + 1).Some?
    requires StrictlyAscending(queue) && !NoGap(queue, lastForced)
    ensures lost in Pending(queue, lastForced) && lost !in Drain(env, queue, lastForced + 1).value
  {
    GapForgets(env, queue, lastForced);
    var processed := Drain(env, queue, lastForced + 1).value;
    var i :| 0 <= i < |queue| && queue[i].number > lastForced + |processed|;
    lost := queue[i];
    PendingMember(queue, lastForced, lost);
    forall k | 0 <= k < |processed| ensures processed[k] != lost {
      DrainNumbers(env, queue, lastForced + 1, k);
    }
  }

  lemma {:induction false} Spread(queue: seq<ForcedBatch>, i: nat, j: nat)
    requires StrictlyAscending(queue) && i <= j < |queue|
    ensures queue[j].number - queue[i].number >= j - i
  {
    if i < j { Spread(queue, i, j - 1); }
  }

  lemma {:induction false} PendingCount(queue: seq<ForcedBatch>, lastForced: nat, first: nat)
    requires first <= |queue| && (forall i :: 0 <= i < first ==> queue[i].number <= lastForced)
    ensures |Pending(queue, lastForced)| <= |queue| - first
  {
    if |queue| == first {
      NonePending(queue, lastForced);
    } else {
      PendingCount(queue[..|queue| - 1], lastForced, first);
    }
  }

  /** A number that is missing below the last one keeps the last one from being reached. */
  lemma MissingIsNotReached(queue: seq<ForcedBatch>, lastForced: nat, n: nat)
    requires StrictlyAscending(queue) && queue != [] && !Has(queue, n)
    requires lastForced < n <= queue[|queue| - 1].number
    ensures !Reaches(queue, |queue|, lastForced, queue[|queue| - 1].number)
  {
    var last := |queue| - 1;
    var above := FirstAbove(queue, n);
    Spread(queue, above, last);
    assert queue[..|queue|] == queue;
    if above > 0 && queue[above - 1].number > lastForced {
      assert queue[above - 1].number < n < queue[above].number;
    } else {
      PendingCount(queue, lastForced, above);
    }
  }

  /** The first queued batch above a number that is not queued. */
  lemma {:induction false} FirstAbove(queue: seq<ForcedBatch>, n: nat) returns (i: nat)
    requires StrictlyAscending(queue) && queue != [] && !Has(queue, n) && n <= queue[|queue| - 1].number
    ensures i < |queue| && queue[i].number > n && (i > 0 ==> queue[i - 1].number < n)
  {
    assert queue[|queue| - 1].number != n;
    i := |queue| - 1;
    while i > 0 && queue[i - 1].number > n
      invariant i < |queue| && queue[i].number > n
    {
      i := i - 1;
    }
    if i > 0 { assert queue[i - 1].number != n; }
  }

  /** The last trusted one is 4, the state knows the forced batches up to 7, and 5 and 7 are
      queued: 5 and 6 are processed, nothing fails, and the emptied queue has forgotten 7. */
  method ForgottenByGap() returns (f: Finalizer, ghost news: seq<Closed>)
    ensures f.queue == [] && ForcedOf(news) == [ForcedBatch(5, []), ForcedBatch(6, [])]
    ensures Forgets(UpToSeven(), [ForcedBatch(5, []), ForcedBatch(7, [])], 4)
  {
    hide Drain, RunRoot, ForcedOf, Forgets;
    f := new Finalizer;
    f.queue := [ForcedBatch(5, []), ForcedBatch(7, [])];
    FiveAndSeven();
    assert f.queue[..2] == f.queue;
    var _, _, rows, _, _ := f.ProcessForcedBatches(UpToSeven(), Some(4), 0, 0);
    news := rows;
  }

  lemma FiveAndSeven()
    ensures Drain(UpToSeven(), [ForcedBatch(5, []), ForcedBatch(7, [])], 5)
         == Some([ForcedBatch(5, []), ForcedBatch(6, [])])
    ensures RunRoot(UpToSeven(), [ForcedBatch(5, []), ForcedBatch(6, [])], 0, 0).Some?
    ensures Forgets(UpToSeven(), [ForcedBatch(5, []), ForcedBatch(7, [])], 4)
  {
    var env, five, six, seven := UpToSeven(), ForcedBatch(5, []), ForcedBatch(6, []), ForcedBatch(7, []);
    var queue := [five, seven];
    assert queue[..0] == [] && queue[..2] == queue;
    DrainStep(env, queue, 0, 5);
    assert [] + [five] == [five] && [five] + [six] == [five, six];
    DrainStep(env, queue, 1, 5);
    RunStep(env, [], five, 0, 0);
    RunStep(env, [five], six, 0, 0);
    assert queue[1].number > 4 + |[five, six]|;
  }

  function UpToSeven(): Env {
    Env(_ => true, _ => true, _ => true, (_, _, root: Root) => Some(root), _ => true, _ => true, _ => true,
        (n: nat) => if n <= 7 then Some(ForcedBatch(n, [])) else None)
  }
}
