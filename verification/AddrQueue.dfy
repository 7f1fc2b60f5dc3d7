/** sequencer/addrqueue.go: the pending transactions of one sender. */
module AddrQueues {
  import opened Wrappers
  import opened TxTrackers

  ghost predicate Keyed(txs: map<nat, Tx>) {
    forall n :: n in txs ==> txs[n].nonce == n
  }

  /** With every transaction under its own nonce, no two entries are equal. */
  ghost function Held(txs: map<nat, Tx>): multiset<Tx> { multiset(txs.Values) }

  ghost function Bag(tx: Option<Tx>): multiset<Tx> {
    if tx.Some? then multiset{tx.value} else multiset{}
  }

  lemma HeldInsert(txs: map<nat, Tx>, tx: Tx)
    requires Keyed(txs) && tx.nonce !in txs
    ensures Keyed(txs[tx.nonce := tx])
    ensures Held(txs[tx.nonce := tx]) == Held(txs) + multiset{tx}
  {
    var more := txs[tx.nonce := tx];
    assert tx !in txs.Values;
    forall t ensures t in more.Values <==> t in txs.Values + {tx} {
      if t in txs.Values { assert t.nonce in more && more[t.nonce] == t; }
      if t == tx { assert more[tx.nonce] == tx; }
    }
    assert more.Values == txs.Values + {tx};
  }

  lemma HeldRemove(txs: map<nat, Tx>, n: nat)
    requires Keyed(txs) && n in txs
    ensures Keyed(txs - {n})
    ensures Held(txs) == Held(txs - {n}) + multiset{txs[n]}
  {
    HeldInsert(txs - {n}, txs[n]);
    assert (txs - {n})[n := txs[n]] == txs;
  }

  lemma HeldMember(txs: map<nat, Tx>, tx: Tx)
    requires Keyed(txs)
    ensures tx in Held(txs) <==> tx.nonce in txs && txs[tx.nonce] == tx
  {
  }

  lemma AddReadyTotals(held: multiset<Tx>, ready: Option<Tx>, tx: Tx)
    ensures held + Bag(Some(tx)) + Bag(ready) + Bag(None) == held + Bag(ready) + multiset{tx}
  {
    assert held + Bag(Some(tx)) + Bag(ready) + multiset{} == held + Bag(ready) + multiset{tx};
  }

  lemma AddNotReadyTotals(held: multiset<Tx>, held': multiset<Tx>, ready: Option<Tx>, lost: Option<Tx>, tx: Tx)
    requires held' + Bag(lost) == held + multiset{tx}
    ensures held' + Bag(None) + Bag(ready) + Bag(lost) == held + Bag(ready) + multiset{tx}
    ensures held' + Bag(ready) + Bag(None) + Bag(lost) == held + Bag(ready) + multiset{tx}
  {
    assert held' + multiset{} == held';
    assert held' + Bag(ready) + multiset{} == held' + Bag(ready);
    assert held' + Bag(ready) + Bag(lost) == (held' + Bag(lost)) + Bag(ready) == (held + multiset{tx}) + Bag(ready);
  }

  lemma ReseatTotals(before: multiset<Tx>, middle: multiset<Tx>, after: multiset<Tx>, prev: multiset<Tx>,
                     ready: multiset<Tx>, demoted: multiset<Tx>, lost: multiset<Tx>)
    requires before == middle + ready + prev
    requires after + demoted + lost == middle + prev
    ensures before == after + ready + demoted + lost
  {
    assert before == (middle + prev) + ready == (after + demoted + lost) + ready;
  }

  lemma NoneExpired(txs: map<nat, Tx>, ready: Option<Tx>, deadline: int)
    requires Keyed(txs) && (forall n :: n in txs ==> txs[n].receivedAt >= deadline)
    requires ready.Some? ==> ready.value.receivedAt >= deadline
    ensures forall t :: t in Held(txs) + Bag(ready) ==> t.receivedAt >= deadline
  {
    forall t | t in Held(txs) + Bag(ready) ensures t.receivedAt >= deadline { HeldMember(txs, t); }
  }

  lemma UpdateTotals(before: multiset<Tx>, stale: seq<Tx>, middle: multiset<Tx>, ready: multiset<Tx>,
                     after: multiset<Tx>, demoted: seq<Tx>, lost: multiset<Tx>)
    requires before == middle + multiset(stale)
    requires middle + ready == after + multiset(demoted) + lost
    ensures before + ready == after + multiset(stale + demoted) + lost
    ensures before + ready == after + multiset(stale + demoted) <==> lost == multiset{}
  {
    assert before + ready == (middle + ready) + multiset(stale) == (after + multiset(demoted) + lost) + multiset(stale);
    if lost != multiset{} {
      var t :| t in lost;
      assert (after + multiset(stale + demoted) + lost)[t] != (after + multiset(stale + demoted))[t];
    }
  }

  lemma BagEmpty(tx: Option<Tx>)
    ensures Bag(tx) == multiset{} <==> tx.None?
  {
  }

  datatype DropReason = DuplicatedNonce | InvalidNonce

  class AddrQueue {
    var currentNonce: nat
    var currentBalance: int
    var readyTx: Option<Tx>
    var notReady: map<nat, Tx>

    ghost predicate Valid() reads this {
      && (readyTx.Some? ==> readyTx.value.nonce == currentNonce && readyTx.value.cost <= currentBalance)
      && Keyed(notReady)
      && (forall n :: n in notReady ==> n >= currentNonce)
    }

    ghost function Contents(): multiset<Tx> reads this { Held(notReady) + Bag(readyTx) }

    constructor (nonce: nat, balance: int)
      ensures Valid() && currentNonce == nonce && currentBalance == balance
      ensures readyTx.None? && notReady == map[] && Contents() == multiset{}
    {
      currentNonce, currentBalance, readyTx, notReady := nonce, balance, None, map[];
    }

    // ---- addTx ----

    predicate Affordable(tx: Tx) reads this { currentBalance >= tx.cost }

    /** The transaction whose price `tx` has to reach: the ready one at the current nonce, the
        not-ready one at a later nonce. */
    ghost function Rival(tx: Tx): Option<Tx> reads this {
      if tx.nonce == currentNonce then readyTx
      else if tx.nonce in notReady then Some(notReady[tx.nonce])
      else None
    }

    /** The not-ready transaction whose place `tx` takes. */
    ghost function Overwritten(tx: Tx): Option<Tx> reads this {
      if tx.nonce in notReady && (tx.nonce != currentNonce || !Affordable(tx)) then Some(notReady[tx.nonce])
      else None
    }

    /** The ready transaction whose place `tx` takes. */
    ghost function Unseated(tx: Tx): Option<Tx> reads this {
      if tx.nonce == currentNonce then readyTx else None
    }

    /** `tx` takes the place of a different not-ready transaction at the current nonce, which
        addTx does not look at. */
    predicate LosesOne(tx: Tx) reads this {
      && tx.nonce == currentNonce && !Affordable(tx)
      && tx.nonce in notReady && notReady[tx.nonce].hash != tx.hash
      && readyTx != Some(notReady[tx.nonce])
    }

    method PutNotReady(tx: Tx) returns (ghost lost: Option<Tx>)
      requires Keyed(notReady)
      modifies `notReady
      ensures notReady == old(notReady)[tx.nonce := tx] && Keyed(notReady)
      ensures lost == if tx.nonce in old(notReady) then Some(old(notReady)[tx.nonce]) else None
      ensures Held(notReady) + Bag(lost) == old(Held(notReady)) + multiset{tx}
    {
      lost := if tx.nonce in notReady then Some(notReady[tx.nonce]) else None;
      if tx.nonce in notReady { HeldRemove(notReady, tx.nonce); }
      HeldInsert(notReady - {tx.nonce}, tx);
      assert (notReady - {tx.nonce})[tx.nonce := tx] == notReady[tx.nonce := tx];
      assert tx.nonce !in notReady ==> notReady - {tx.nonce} == notReady;
      notReady := notReady[tx.nonce := tx];
    }

    /** The displaced transactions other than `tx` itself are reported as replaced. */
    static ghost predicate Reported(displaced: Option<Tx>, tx: Tx, replaced: Option<Tx>) {
      displaced.Some? && displaced.value.hash != tx.hash ==> replaced == displaced
    }

    method AddTx(tx: Tx)
      returns (newReady: Option<Tx>, prevReady: Option<Tx>, replaced: Option<Tx>, drop: Option<DropReason>)
      requires Valid()
      modifies `readyTx, `notReady
      ensures Valid()
      ensures drop == if tx.nonce < currentNonce then Some(InvalidNonce)
                      else if old(Rival(tx)).Some? && old(Rival(tx)).value.gasPrice > tx.gasPrice
                      then Some(DuplicatedNonce) else None
      ensures drop.Some? ==> readyTx == old(readyTx) && notReady == old(notReady)
      ensures drop.Some? ==> newReady == prevReady == replaced == None
      ensures drop.None? ==> newReady == if tx.nonce == currentNonce && Affordable(tx) then Some(tx) else None
      ensures drop.None? ==> prevReady == old(Unseated(tx))
      ensures drop.None? && old(Rival(tx)).Some? && old(Rival(tx)).value.hash != tx.hash ==> replaced == old(Rival(tx))
      ensures old(Rival(tx)).None? || old(Rival(tx)).value.hash == tx.hash ==> replaced.None?
      ensures drop.None? ==> readyTx == if tx.nonce == currentNonce then newReady else old(readyTx)
      ensures drop.None? ==> notReady == if newReady.Some? then old(notReady) else old(notReady)[tx.nonce := tx]
      ensures drop.None? ==>
        Contents() + Bag(old(Unseated(tx))) + Bag(old(Overwritten(tx))) == old(Contents()) + multiset{tx}
      ensures drop.None? ==>
        (Reported(old(Unseated(tx)), tx, replaced) && Reported(old(Overwritten(tx)), tx, replaced)
         <==> !old(LosesOne(tx)))
    {
      hide Held, Bag, Keyed;
      newReady, prevReady, replaced, drop := None, None, None, None;
      if currentNonce == tx.nonce {
        if readyTx.None? || tx.gasPrice >= readyTx.value.gasPrice {
          newReady, prevReady, replaced := AddCurrent(tx);
        } else {
          drop := Some(DuplicatedNonce);
        }
      } else if currentNonce > tx.nonce {
        drop := Some(InvalidNonce);
      } else if tx.nonce !in notReady || tx.gasPrice >= notReady[tx.nonce].gasPrice {
        replaced := AddLater(tx);
      } else {
        drop := Some(DuplicatedNonce);
      }
    }

    /** addTx with a later nonce and no better price queued. */
    method AddLater(tx: Tx) returns (replaced: Option<Tx>)
      requires Valid() && tx.nonce > currentNonce
      modifies `notReady
      ensures Valid() && notReady == old(notReady)[tx.nonce := tx]
      ensures replaced == if old(Overwritten(tx)).Some? && old(Overwritten(tx)).value.hash != tx.hash
                          then old(Overwritten(tx)) else None
      ensures Contents() + Bag(old(Unseated(tx))) + Bag(old(Overwritten(tx))) == old(Contents()) + multiset{tx}
    {
      hide Held, Bag;
      replaced := None;
      if tx.nonce in notReady && notReady[tx.nonce].hash != tx.hash {
        replaced := Some(notReady[tx.nonce]);
      }
      ghost var before := notReady;
      ghost var lost := PutNotReady(tx);
      AddNotReadyTotals(Held(before), Held(notReady), readyTx, lost, tx);
    }

    /** addTx with the current nonce and no better price queued. */
    method AddCurrent(tx: Tx) returns (newReady: Option<Tx>, prevReady: Option<Tx>, replaced: Option<Tx>)
      requires Valid() && tx.nonce == currentNonce
      modifies `readyTx, `notReady
      ensures Valid()
      ensures newReady == if Affordable(tx) then Some(tx) else None
      ensures prevReady == old(readyTx) && readyTx == newReady
      ensures notReady == if newReady.Some? then old(notReady) else old(notReady)[tx.nonce := tx]
      ensures replaced == if old(readyTx).Some? && old(readyTx).value.hash != tx.hash then old(readyTx) else None
      ensures Contents() + Bag(old(Unseated(tx))) + Bag(old(Overwritten(tx))) == old(Contents()) + multiset{tx}
    {
      hide Held, Bag, Keyed;
      var oldReady := readyTx;
      prevReady, newReady, replaced := oldReady, None, None;
      if oldReady.Some? && oldReady.value.hash != tx.hash {
        replaced := oldReady;
      }
      ghost var before := notReady;
      if currentBalance >= tx.cost {
        readyTx := Some(tx);
        newReady := Some(tx);
        AddReadyTotals(Held(before), oldReady, tx);
      } else {
        readyTx := None;
        ghost var lost := PutNotReady(tx);
        AddNotReadyTotals(Held(before), Held(notReady), oldReady, lost, tx);
      }
    }

    // ---- ExpireTransactions, deleteTx ----

    method ExpireNotReady(maxTime: int, now: int) returns (txs: seq<Tx>)
      requires Keyed(notReady)
      modifies `notReady
      ensures Keyed(notReady) && notReady.Keys <= old(notReady).Keys
      ensures old(Held(notReady)) == Held(notReady) + multiset(txs)
      ensures forall t :: t in txs ==> t.receivedAt + maxTime < now
      ensures forall n :: n in notReady ==> notReady[n].receivedAt + maxTime >= now
    {
      hide Held;
      txs := [];
      var todo := notReady.Keys;
      while todo != {}
        invariant todo <= notReady.Keys <= old(notReady).Keys && Keyed(notReady)
        invariant old(Held(notReady)) == Held(notReady) + multiset(txs)
        invariant forall t :: t in txs ==> t.receivedAt + maxTime < now
        invariant forall n :: n in notReady && n !in todo ==> notReady[n].receivedAt + maxTime >= now
        decreases |todo|
      {
        var n :| n in todo;
        todo := todo - {n};
        var tx := notReady[n];
        if tx.receivedAt + maxTime < now {
          txs := txs + [tx];
          HeldRemove(notReady, n);
          notReady := notReady - {tx.nonce};
        }
      }
    }

    method ExpireTransactions(maxTime: int, now: int) returns (txs: seq<Tx>, prevReady: Option<Tx>)
      requires Valid()
      modifies `readyTx, `notReady
      ensures Valid()
      ensures old(Contents()) == Contents() + multiset(txs)
      ensures forall t :: t in txs ==> t.receivedAt + maxTime < now
      ensures forall t :: t in Contents() ==> t.receivedAt + maxTime >= now
      ensures prevReady == if old(readyTx).Some? && old(readyTx).value.receivedAt + maxTime < now
                           then old(readyTx) else None
      ensures readyTx == if prevReady.Some? then None else old(readyTx)
    {
      hide Held, Keyed;
      txs := ExpireNotReady(maxTime, now);
      prevReady := None;
      if readyTx.Some? && readyTx.value.receivedAt + maxTime < now {
        prevReady := readyTx;
        txs := txs + [readyTx.value];
        readyTx := None;
      }
      NoneExpired(notReady, readyTx, now - maxTime);
    }

    method FindNotReady(hash: string) returns (found: Option<Tx>)
      requires Keyed(notReady)
      ensures found.None? ==> forall n :: n in notReady ==> notReady[n].hash != hash
      ensures found.Some? ==> found.value.hash == hash && found.value.nonce in notReady
                              && notReady[found.value.nonce] == found.value
    {
      found := None;
      var todo := notReady.Keys;
      while todo != {} && found.None?
        invariant todo <= notReady.Keys
        invariant found.None? ==> forall n :: n in notReady && n !in todo ==> notReady[n].hash != hash
        invariant found.Some? ==> found.value.hash == hash && found.value.nonce in notReady
                                  && notReady[found.value.nonce] == found.value
        decreases |todo|
      {
        var n :| n in todo;
        todo := todo - {n};
        if notReady[n].hash == hash {
          found := Some(notReady[n]);
        }
      }
    }

    method DeleteTx(hash: string) returns (deleted: Option<Tx>, isReady: bool)
      requires Valid()
      modifies `readyTx, `notReady
      ensures Valid()
      ensures old(Contents()) == Contents() + Bag(deleted)
      ensures deleted.Some? ==> deleted.value.hash == hash
      ensures deleted.None? ==> forall t :: t in Contents() ==> t.hash != hash
      ensures isReady <==> old(readyTx).Some? && old(readyTx).value.hash == hash
      ensures if isReady then readyTx.None? && notReady == old(notReady) else readyTx == old(readyTx)
    {
      hide Held;
      if readyTx.Some? && readyTx.value.hash == hash {
        deleted, isReady := readyTx, true;
        readyTx := None;
      } else {
        isReady := false;
        deleted := FindNotReady(hash);
        if deleted.Some? {
          HeldRemove(notReady, deleted.value.nonce);
          notReady := notReady - {deleted.value.nonce};
        } else {
          forall t | t in Contents() ensures t.hash != hash { HeldMember(notReady, t); }
        }
      }
    }

    // ---- updateCurrentNonceBalance ----

    method CollectStale() returns (stale: seq<Tx>)
      requires Keyed(notReady)
      ensures forall i :: 0 <= i < |stale| ==>
        stale[i].nonce in notReady && notReady[stale[i].nonce] == stale[i] && stale[i].nonce < currentNonce
      ensures forall i, j :: 0 <= i < j < |stale| ==> stale[i].nonce != stale[j].nonce
      ensures forall n :: n in notReady && n < currentNonce ==> notReady[n] in stale
    {
      stale := [];
      var todo := notReady.Keys;
      while todo != {}
        invariant todo <= notReady.Keys
        invariant forall i :: 0 <= i < |stale| ==>
          && stale[i].nonce in notReady && notReady[stale[i].nonce] == stale[i]
          && stale[i].nonce < currentNonce && stale[i].nonce !in todo
        invariant forall i, j :: 0 <= i < j < |stale| ==> stale[i].nonce != stale[j].nonce
        invariant forall n :: n in notReady && n < currentNonce && n !in todo ==> notReady[n] in stale
        decreases |todo|
      {
        var n :| n in todo;
        todo := todo - {n};
        if notReady[n].nonce < currentNonce {
          stale := stale + [notReady[n]];
        }
      }
    }

    method DeleteAll(stale: seq<Tx>)
      requires Keyed(notReady)
      requires forall i :: 0 <= i < |stale| ==>
        stale[i].nonce in notReady && notReady[stale[i].nonce] == stale[i] && stale[i].nonce < currentNonce
      requires forall i, j :: 0 <= i < j < |stale| ==> stale[i].nonce != stale[j].nonce
      modifies `notReady
      ensures Keyed(notReady)
      ensures forall n :: n in notReady ==> n in old(notReady) && notReady[n] == old(notReady)[n]
      ensures forall n :: n in old(notReady) && n >= currentNonce ==> n in notReady
      ensures forall i :: 0 <= i < |stale| ==> stale[i].nonce !in notReady
      ensures old(Held(notReady)) == Held(notReady) + multiset(stale)
    {
      hide Held;
      for i := 0 to |stale|
        invariant Keyed(notReady)
        invariant forall n :: n in notReady ==> n in old(notReady) && notReady[n] == old(notReady)[n]
        invariant forall n :: n in old(notReady) && n >= currentNonce ==> n in notReady
        invariant forall k :: 0 <= k < i ==> stale[k].nonce !in notReady
        invariant forall k :: i <= k < |stale| ==> stale[k].nonce in notReady
        invariant old(Held(notReady)) == Held(notReady) + multiset(stale[..i])
      {
        HeldRemove(notReady, stale[i].nonce);
        notReady := notReady - {stale[i].nonce};
        assert stale[..i + 1] == stale[..i] + [stale[i]];
      }
      assert stale[..|stale|] == stale;
    }

    method DropStale() returns (stale: seq<Tx>)
      requires Keyed(notReady)
      modifies `notReady
      ensures Keyed(notReady) && forall n :: n in notReady ==> n >= currentNonce
      ensures forall n :: n in old(notReady) && n >= currentNonce ==> n in notReady && notReady[n] == old(notReady)[n]
      ensures forall n :: n in notReady ==> n in old(notReady)
      ensures forall t :: t in stale ==> t.nonce < currentNonce
      ensures old(Held(notReady)) == Held(notReady) + multiset(stale)
    {
      stale := CollectStale();
      DeleteAll(stale);
    }

    /** The nonce goes back below the ready transaction, whose place among the not-ready ones
        is already taken. */
    predicate Collides(nonce: Option<nat>) reads this {
      && nonce.Some? && readyTx.Some? && nonce.value < readyTx.value.nonce
      && readyTx.value.nonce in notReady
    }

    /** The not-ready transaction whose place the ready one takes when it is put back. */
    ghost function PushedOut(): Option<Tx> reads this {
      if readyTx.Some? && readyTx.value.nonce > currentNonce && readyTx.value.nonce in notReady
      then Some(notReady[readyTx.value.nonce]) else None
    }

    /** The not-ready transaction that can become ready. */
    ghost function NextReady(): Option<Tx> reads this {
      if currentNonce in notReady && notReady[currentNonce].cost <= currentBalance then Some(notReady[currentNonce])
      else None
    }

    /** Without a ready transaction, none at the current nonce is affordable. */
    ghost predicate Settled() reads this {
      readyTx.None? ==> forall t :: t in Contents() && t.nonce == currentNonce ==> currentBalance < t.cost
    }

    lemma NowSettled()
      requires Keyed(notReady)
      requires readyTx.None? && currentNonce in notReady ==> currentBalance < notReady[currentNonce].cost
      ensures Settled()
    {
      hide Held;
      if readyTx.None? {
        forall t | t in Contents() && t.nonce == currentNonce ensures currentBalance < t.cost {
          HeldMember(notReady, t);
        }
      }
    }

    /** The second half of updateCurrentNonceBalance: the ready transaction may no longer be
        ready, a not-ready one may take its place, and the old one is put back or deleted. */
    method Reseat() returns (prevReady: Option<Tx>, demoted: seq<Tx>)
      requires Keyed(notReady) && forall n :: n in notReady ==> n >= currentNonce
      modifies `readyTx, `notReady
      ensures Valid()
      ensures prevReady == if old(readyTx).Some?
                              && (old(readyTx).value.nonce != currentNonce || currentBalance < old(readyTx).value.cost)
                           then old(readyTx) else None
      ensures Settled()
      ensures readyTx == if old(readyTx).Some? && prevReady.None? then old(readyTx) else old(NextReady())
      ensures forall t :: t in demoted ==> prevReady == Some(t) && t.nonce <= currentNonce
      ensures old(Contents()) == Contents() + multiset(demoted) + Bag(old(PushedOut()))
    {
      hide Held, Bag, Keyed, Settled, NextReady;
      prevReady := SeatNext();
      ghost var middle := notReady;
      assert forall n :: n in notReady ==> n >= currentNonce;
      ghost var lost;
      demoted, lost := PutBack(prevReady);
      assert lost == old(PushedOut());
      hide PushedOut;
      ReseatTotals(old(Contents()), Held(middle), Held(notReady), Bag(prevReady), Bag(readyTx),
                   multiset(demoted), Bag(lost));
      NowSettled();
    }

    /** The ready transaction leaves its seat if it is no longer ready, and a not-ready one may
        take it. */
    method SeatNext() returns (prevReady: Option<Tx>)
      requires Keyed(notReady)
      modifies `readyTx, `notReady
      ensures prevReady == if old(readyTx).Some?
                              && (old(readyTx).value.nonce != currentNonce || currentBalance < old(readyTx).value.cost)
                           then old(readyTx) else None
      ensures readyTx == if old(readyTx).Some? && prevReady.None? then old(readyTx) else old(NextReady())
      ensures readyTx.Some? ==> readyTx.value.nonce == currentNonce && readyTx.value.cost <= currentBalance
      ensures Keyed(notReady) && Contents() + Bag(prevReady) == old(Contents())
      ensures forall n :: n in notReady ==> n in old(notReady) && notReady[n] == old(notReady)[n]
      ensures forall n :: n in old(notReady) && n != currentNonce ==> n in notReady
      ensures readyTx.None? && currentNonce in notReady ==> currentBalance < notReady[currentNonce].cost
    {
      hide Held, Bag, Keyed;
      prevReady := Unseat();
      Promote();
    }

    method Unseat() returns (prevReady: Option<Tx>)
      modifies `readyTx
      ensures Contents() + Bag(prevReady) == old(Contents())
      ensures prevReady == if old(readyTx).Some?
                              && (old(readyTx).value.nonce != currentNonce || currentBalance < old(readyTx).value.cost)
                           then old(readyTx) else None
      ensures readyTx == if prevReady.Some? then None else old(readyTx)
    {
      hide Held;
      prevReady := None;
      if readyTx.Some? && (readyTx.value.nonce != currentNonce || currentBalance < readyTx.value.cost) {
        prevReady := readyTx;
        readyTx := None;
      }
    }

    method PutBack(tx: Option<Tx>) returns (demoted: seq<Tx>, ghost lost: Option<Tx>)
      requires Keyed(notReady) && forall n :: n in notReady ==> n >= currentNonce
      modifies `notReady
      ensures Keyed(notReady) && forall n :: n in notReady ==> n >= currentNonce
      ensures currentNonce in notReady ==>
        currentNonce in old(notReady) && notReady[currentNonce] == old(notReady)[currentNonce]
      ensures notReady == if tx.Some? && tx.value.nonce > currentNonce then old(notReady)[tx.value.nonce := tx.value]
                          else old(notReady)
      ensures forall t :: t in demoted ==> tx == Some(t) && t.nonce <= currentNonce
      ensures lost == if tx.Some? && tx.value.nonce > currentNonce && tx.value.nonce in old(notReady)
                      then Some(old(notReady)[tx.value.nonce]) else None
      ensures Held(notReady) + multiset(demoted) + Bag(lost) == old(Held(notReady)) + Bag(tx)
    {
      hide Held;
      demoted, lost := [], None;
      if tx.Some? && tx.value.nonce > currentNonce {
        lost := PutNotReady(tx.value);
      } else if tx.Some? {
        demoted := [tx.value];
      }
    }

    method Promote()
      requires Keyed(notReady)
      modifies `readyTx, `notReady
      ensures Keyed(notReady) && old(Contents()) == Contents()
      ensures forall n :: n in notReady ==> n in old(notReady) && notReady[n] == old(notReady)[n]
      ensures forall n :: n in old(notReady) && n != currentNonce ==> n in notReady
      ensures readyTx == if old(readyTx).Some? then old(readyTx) else old(NextReady())
      ensures old(readyTx).None? && readyTx.Some? ==> readyTx.value.nonce == currentNonce
      ensures readyTx.None? && currentNonce in notReady ==> currentBalance < notReady[currentNonce].cost
    {
      hide Held;
      if readyTx.None? && currentNonce in notReady && currentBalance >= notReady[currentNonce].cost {
        HeldRemove(notReady, currentNonce);
        readyTx := Some(notReady[currentNonce]);
        notReady := notReady - {currentNonce};
      }
    }

    /** The first half: the new nonce and balance, and the transactions left behind. */
    method SetNonceBalance(nonce: Option<nat>, balance: Option<int>) returns (stale: seq<Tx>)
      requires Valid()
      modifies `currentNonce, `currentBalance, `notReady
      ensures currentNonce == if nonce.Some? then nonce.value else old(currentNonce)
      ensures currentBalance == if balance.Some? then balance.value else old(currentBalance)
      ensures Keyed(notReady) && forall n :: n in notReady ==> n >= currentNonce
      ensures forall t :: t in stale ==> t.nonce < currentNonce
      ensures old(Held(notReady)) == Held(notReady) + multiset(stale)
      ensures NextReady() == if currentNonce in old(notReady) && old(notReady)[currentNonce].cost <= currentBalance
                             then Some(old(notReady)[currentNonce]) else None
      ensures PushedOut() == if old(Collides(nonce)) then Some(old(notReady)[old(readyTx).value.nonce]) else None
    {
      hide Held;
      if balance.Some? {
        currentBalance := balance.value;
      }
      stale := [];
      if nonce.Some? && currentNonce != nonce.value {
        currentNonce := nonce.value;
        stale := DropStale();
      }
    }

    method UpdateCurrentNonceBalance(nonce: Option<nat>, balance: Option<int>)
      returns (newReady: Option<Tx>, prevReady: Option<Tx>, toDelete: seq<Tx>)
      requires Valid()
      modifies this
      ensures Valid()
      ensures currentNonce == if nonce.Some? then nonce.value else old(currentNonce)
      ensures currentBalance == if balance.Some? then balance.value else old(currentBalance)
      ensures newReady == readyTx
      ensures prevReady == if old(readyTx).Some?
                              && (old(readyTx).value.nonce != currentNonce || currentBalance < old(readyTx).value.cost)
                           then old(readyTx) else None
      ensures Settled()
      ensures readyTx == if old(readyTx).Some? && prevReady.None? then old(readyTx)
                         else if currentNonce in old(notReady) && old(notReady)[currentNonce].cost <= currentBalance
                         then Some(old(notReady)[currentNonce]) else None
      ensures forall t :: t in toDelete ==> t.nonce < currentNonce || (prevReady == Some(t) && t.nonce == currentNonce)
      ensures old(Contents()) == Contents() + multiset(toDelete)
              + Bag(if old(Collides(nonce)) then Some(old(notReady)[old(readyTx).value.nonce]) else None)
      ensures old(Contents()) == Contents() + multiset(toDelete) <==> !old(Collides(nonce))
    {
      hide Held, Bag, Keyed, PushedOut, Settled;
      var stale := SetNonceBalance(nonce, balance);
      ghost var middle, lost := Held(notReady), PushedOut();
      var demoted;
      prevReady, demoted := Reseat();
      toDelete := stale + demoted;
      newReady := readyTx;
      UpdateTotals(old(Held(notReady)), stale, middle, Bag(old(readyTx)), Contents(), demoted, Bag(lost));
      BagEmpty(lost);
    }
  }

  lemma BagSome(tx: Tx)
    ensures Bag(Some(tx)) == multiset{tx}
  {
  }

  lemma Cancel(rest: multiset<Tx>, lost: Tx, kept: Tx)
    requires multiset{lost} + multiset{kept} == rest + multiset{lost}
    ensures rest == multiset{kept}
  {
    forall t ensures rest[t] == multiset{kept}[t] {
      assert (multiset{lost} + multiset{kept})[t] == (rest + multiset{lost})[t];
    }
  }

  lemma PairContents(nonce: nat, lost: Tx, kept: Tx)
    ensures Held(map[nonce := lost]) + Bag(Some(kept)) == multiset{lost} + multiset{kept}
  {
    assert map[nonce := lost].Values == {lost};
  }

  /** A transaction vanishes when the nonce moves backwards: two are queued at nonce 5, the
      first not affordable, and only the other is left after the nonce goes to 4. */
  method LostByGoingBack() returns (q: AddrQueue, lost: Tx, toDelete: seq<Tx>)
    ensures fresh(q) && q.Valid()
    ensures lost == Tx("a", 5, 1, 200, 0)
    ensures q.Contents() + multiset(toDelete) == multiset{Tx("b", 5, 1, 50, 0)}
  {
    hide Keyed, Held, Bag;
    q := new AddrQueue(5, 100);
    lost := Tx("a", 5, 1, 200, 0);
    var kept := Tx("b", 5, 1, 50, 0);
    var _, _, _, _ := q.AddTx(lost);
    var _, _, _, _ := q.AddTx(kept);
    assert q.notReady == map[5 := lost] && q.readyTx == Some(kept);
    PairContents(5, lost, kept);
    var _, _, deleted := q.UpdateCurrentNonceBalance(Some(4), None);
    toDelete := deleted;
    assert Bag(Some(lost)) == multiset{lost} by { BagSome(lost); }
    Cancel(q.Contents() + multiset(toDelete), lost, kept);
  }

  /** A transaction vanishes when another one takes its place at the current nonce: neither is
      affordable, and the first is not reported as replaced. */
  method LostByAdding() returns (q: AddrQueue, lost: Tx, replaced: Option<Tx>, drop: Option<DropReason>)
    ensures fresh(q) && q.Valid()
    ensures lost == Tx("a", 5, 1, 200, 0) && replaced.None? && drop.None?
    ensures q.Contents() == multiset{Tx("b", 5, 1, 300, 0)}
  {
    hide Keyed, Held, Bag;
    q := new AddrQueue(5, 100);
    lost := Tx("a", 5, 1, 200, 0);
    var other := Tx("b", 5, 1, 300, 0);
    var _, _, _, _ := q.AddTx(lost);
    assert q.notReady == map[5 := lost] && q.readyTx == None;
    var _, _, r, d := q.AddTx(other);
    replaced, drop := r, d;
    assert map[5 := lost][5 := other] == map[5 := other];
    assert q.notReady == map[5 := other] && q.readyTx == None;
    SingleContents(5, other);
  }

  lemma SingleContents(nonce: nat, tx: Tx)
    ensures Held(map[nonce := tx]) + Bag(None) == multiset{tx}
  {
    var m := map[nonce := tx];
    assert m[nonce] in m.Values;
    assert m.Values == {tx};
  }
}
