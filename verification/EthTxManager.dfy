/** ethtxmanager/ethtxmanager.go and ethtxmanager/monitoredtx.go: one payload of one sender
    is signed, stored, sent and checked until it is confirmed. L1 may move between any two
    calls, and every call may fail. */
module EthTxManager {
  import opened Wrappers

  const TWO_64: nat := 0x1_0000_0000_0000_0000

  /** A transaction signed for the payload. Its hash stands for these fields. */
  datatype Tx = Tx(nonce: nat, gas: nat, gasPrice: nat)

  /** What L1 mined at one nonce of the sender: a transaction for the payload with the status
      of its receipt, or another one. */
  datatype Entry = Foreign | Ours(tx: Tx, ok: bool)

  datatype Status = Created | Sent | Failed | Confirmed | Reorged | Done

  datatype MonitoredTx = MonitoredTx(
    nonce: nat, gas: nat, gasOffset: nat, gasPrice: nat, status: Status, blockNumber: Option<nat>, history: set<Tx>)

  /** monitoredTx.Tx */
  function BuildTx(m: MonitoredTx): Tx {
    Tx(m.nonce, (m.gas + m.gasOffset) % TWO_64, m.gasPrice)
  }

  ghost predicate MinedAs(mined: seq<Entry>, tx: Tx, ok: bool) {
    tx.nonce < |mined| && mined[tx.nonce] == Ours(tx, ok)
  }

  /** One transaction per nonce, in the order of nonces, and for the payload only what was sent. */
  ghost predicate L1Law(mined: seq<Entry>, sent: set<Tx>) {
    forall i :: 0 <= i < |mined| && mined[i].Ours? ==> mined[i].tx in sent && mined[i].tx.nonce == i
  }

  /** What a stored record says about L1: everything sent was stored before, and no history
      transaction is above the nonce, which L1 has reached. */
  ghost predicate RecordOk(mined: seq<Entry>, sent: set<Tx>, m: MonitoredTx) {
    && m.nonce <= |mined|
    && sent <= m.history
    && (forall t :: t in m.history ==> t.nonce <= m.nonce)
    && (m.status == Confirmed ==> exists t :: t in m.history && MinedAs(mined, t, true))
  }

  /** No history transaction below the nonce was mined successfully. */
  ghost predicate NoPastSuccess(mined: seq<Entry>, m: MonitoredTx) {
    forall t :: t in m.history && t.nonce < m.nonce ==> !MinedAs(mined, t, true)
  }

  /** All history transactions below the nonce were mined and failed. */
  ghost predicate PastFailed(mined: seq<Entry>, m: MonitoredTx) {
    forall t :: t in m.history && t.nonce < m.nonce ==> MinedAs(mined, t, false)
  }

  ghost predicate SuccessAt(mined: seq<Entry>, i: nat)
    requires i < |mined|
  {
    mined[i].Ours? && mined[i].ok
  }

  /** The payload succeeded at most once. */
  ghost predicate AtMostOnce(mined: seq<Entry>) {
    forall i, j :: 0 <= i < |mined| && 0 <= j < |mined| && SuccessAt(mined, i) && SuccessAt(mined, j) ==> i == j
  }

  lemma FailedIsNoSuccess(mined: seq<Entry>, m: MonitoredTx)
    requires PastFailed(mined, m)
    ensures NoPastSuccess(mined, m)
  {
  }

  /** Every success of the payload is the one at the stored nonce. */
  lemma SucceedsAtMostOnce(mined: seq<Entry>, sent: set<Tx>, m: MonitoredTx)
    requires L1Law(mined, sent) && RecordOk(mined, sent, m) && NoPastSuccess(mined, m)
    ensures AtMostOnce(mined)
  {
    forall i | 0 <= i < |mined| && mined[i].Ours? && mined[i].ok ensures i == m.nonce {
      assert MinedAs(mined, mined[i].tx, true);
    }
  }

  // ---- the checks of the history ----

  datatype Answer = CheckError | NotMined | Mined(ok: bool)

  /** A receipt once seen stays. */
  ghost predicate Agrees(mined: seq<Entry>, seen: map<Tx, Answer>) {
    forall t :: t in seen && seen[t].Mined? ==> MinedAs(mined, t, seen[t].ok)
  }

  ghost predicate AnySuccess(seen: map<Tx, Answer>) {
    exists t :: t in seen && seen[t] == Mined(true)
  }

  ghost predicate AnyFailure(seen: map<Tx, Answer>) {
    exists t :: t in seen && seen[t] == Mined(false)
  }

  ghost predicate AnyMissing(seen: map<Tx, Answer>) {
    exists t :: t in seen && seen[t] == NotMined
  }

  /** The nonce is reviewed when some receipt failed, none succeeded, and none was missing. A
      check that failed counts as neither. */
  ghost predicate ReviewsNonce(seen: map<Tx, Answer>) {
    !AnySuccess(seen) && AnyFailure(seen) && !AnyMissing(seen)
  }

  ghost predicate AllAnswered(seen: map<Tx, Answer>) {
    forall t :: t in seen ==> seen[t] != CheckError
  }

  ghost predicate NonceSeenMined(seen: map<Tx, Answer>, nonce: nat) {
    exists t :: t in seen && t.nonce == nonce && seen[t].Mined?
  }

  /** Where a check failed at the nonce of the record, another history transaction of that
      nonce was seen mined. */
  ghost predicate ErrorsSettled(m: MonitoredTx, seen: map<Tx, Answer>) {
    forall t :: t in seen && seen[t] == CheckError && t.nonce == m.nonce ==> NonceSeenMined(seen, m.nonce)
  }

  /** An L1 that is in line with the record and with the answers. */
  ghost predicate Fits(mined: seq<Entry>, sent: set<Tx>, m: MonitoredTx, seen: map<Tx, Answer>) {
    L1Law(mined, sent) && RecordOk(mined, sent, m) && Agrees(mined, seen)
  }

  /** Whatever L1 is, as far as the answers tell, moving the nonce leaves no success behind where
      there was none before. */
  ghost predicate SafeMove(m: MonitoredTx, nonce: nat, seen: map<Tx, Answer>) {
    forall mined, sent :: Fits(mined, sent, m, seen) && NoPastSuccess(mined, m) && nonce <= |mined| ==>
      NoPastSuccess(mined, m.(nonce := nonce))
  }

  /** Moving the nonce to the one of the account, once all the history is mined and failed as
      far as the checks could tell, is safe if and only if the failed checks are settled: a
      condition on the answers alone. With all checks answered the past was mined and failed. */
  lemma NonceReviewIsSafe(mined: seq<Entry>, sent: set<Tx>, m: MonitoredTx, seen: map<Tx, Answer>, nonce: nat)
    requires Fits(mined, sent, m, seen) && seen.Keys == m.history
    requires ReviewsNonce(seen) && m.nonce < nonce <= |mined|
    ensures SafeMove(m, nonce, seen) <==> ErrorsSettled(m, seen)
    ensures AllAnswered(seen) ==> ErrorsSettled(m, seen) && PastFailed(mined, m.(nonce := nonce))
  {
    if ErrorsSettled(m, seen) {
      forall mined', sent' | Fits(mined', sent', m, seen) && NoPastSuccess(mined', m) && nonce <= |mined'|
        ensures NoPastSuccess(mined', m.(nonce := nonce))
      {
        SettledIsSafe(mined', sent', m, seen, nonce);
      }
    } else {
      var t :| t in seen && seen[t] == CheckError && t.nonce == m.nonce && !NonceSeenMined(seen, m.nonce);
      UnsettledIsUnsafe(mined, sent, m, seen, nonce, t);
    }
    if AllAnswered(seen) {
      forall t | t in m.history ensures MinedAs(mined, t, false) {
        assert seen[t].Mined? && !seen[t].ok;
      }
    }
  }

  lemma SettledIsSafe(mined: seq<Entry>, sent: set<Tx>, m: MonitoredTx, seen: map<Tx, Answer>, nonce: nat)
    requires Fits(mined, sent, m, seen) && NoPastSuccess(mined, m)
    requires seen.Keys == m.history && !AnySuccess(seen) && !AnyMissing(seen) && ErrorsSettled(m, seen)
    ensures NoPastSuccess(mined, m.(nonce := nonce))
  {
    forall t | t in m.history && t.nonce == m.nonce ensures !MinedAs(mined, t, true) {
      if seen[t] == CheckError {
        var u :| u in seen && u.nonce == m.nonce && seen[u].Mined?;
        assert MinedAs(mined, u, false);
      } else {
        assert MinedAs(mined, t, false);
      }
    }
  }

  /** The failures of the past and nothing else, and a success of t. */
  ghost function Otherwise(mined: seq<Entry>, t: Tx): (otherwise: seq<Entry>)
    ensures |otherwise| == |mined|
  {
    seq(|mined|, i requires 0 <= i < |mined| =>
      if i == t.nonce then Ours(t, true) else if mined[i].Ours? && !mined[i].ok then mined[i] else Foreign)
  }

  /** An unsettled transaction may have succeeded: the L1 where it did fits the answers. */
  lemma UnsettledIsUnsafe(mined: seq<Entry>, sent: set<Tx>, m: MonitoredTx, seen: map<Tx, Answer>, nonce: nat, t: Tx)
    requires Fits(mined, sent, m, seen) && seen.Keys == m.history && !AnySuccess(seen)
    requires m.nonce < nonce <= |mined|
    requires t in seen && t.nonce == m.nonce && !NonceSeenMined(seen, m.nonce)
    ensures !SafeMove(m, nonce, seen)
  {
    var mined' := Otherwise(mined, t);
    assert MinedAs(mined', t, true);
    assert Agrees(mined', seen);
    assert Fits(mined', m.history, m, seen) && NoPastSuccess(mined', m);
    assert !NoPastSuccess(mined', m.(nonce := nonce));
  }

  /** A failed check below the nonce of the record is no risk: A failed there before, and B at
      the nonce was seen to fail. */
  lemma PastErrorIsSafe()
    ensures
      var a, b := Tx(0, 1, 1), Tx(1, 1, 1);
      var seen := map[a := CheckError, b := Mined(false)];
      var m := MonitoredTx(1, 1, 0, 1, Sent, None, {a, b});
      ReviewsNonce(seen) && Fits([Ours(a, false), Ours(b, false)], {a, b}, m, seen) && SafeMove(m, 2, seen)
  {
    var a, b := Tx(0, 1, 1), Tx(1, 1, 1);
    var seen := map[a := CheckError, b := Mined(false)];
    var m := MonitoredTx(1, 1, 0, 1, Sent, None, {a, b});
    assert b in seen && seen[b] == Mined(false);
    assert seen.Keys == m.history;
    NonceReviewIsSafe([Ours(a, false), Ours(b, false)], {a, b}, m, seen, 2);
  }

  /** The failed check is what can go wrong: B succeeded but its check failed, A failed
      before, and the account has moved on. The nonce is reviewed and the payload can be
      mined a second time. */
  lemma MissedSuccessDuplicates()
    ensures
      var a, b, c := Tx(0, 1, 1), Tx(1, 1, 1), Tx(2, 1, 1);
      var seen := map[a := Mined(false), b := CheckError];
      var mined := [Ours(a, false), Ours(b, true)];
      var m := MonitoredTx(1, 1, 0, 1, Sent, None, {a, b});
      var later := m.(nonce := 2, history := {a, b, c});
      && Fits(mined, {a, b}, m, seen) && PastFailed(mined, m) && ReviewsNonce(seen) && !ErrorsSettled(m, seen)
      && BuildTx(m.(nonce := 2)) == c
      && L1Law(mined + [Ours(c, true)], {a, b, c}) && RecordOk(mined + [Ours(c, true)], {a, b, c}, later)
      && !AtMostOnce(mined + [Ours(c, true)])
  {
    var a, b, c := Tx(0, 1, 1), Tx(1, 1, 1), Tx(2, 1, 1);
    var seen := map[a := Mined(false), b := CheckError];
    assert a in seen && seen[a] == Mined(false) && b in seen;
    assert !NonceSeenMined(seen, b.nonce);
    var mined := [Ours(a, false), Ours(b, true), Ours(c, true)];
    assert SuccessAt(mined, 1) && SuccessAt(mined, 2);
    assert mined == [Ours(a, false), Ours(b, true)] + [Ours(c, true)];
    assert BuildTx(MonitoredTx(1, 1, 0, 1, Sent, None, {a, b}).(nonce := 2)) == c;
  }

  // ---- one cycle ----

  /** How a call that writes ends: without an error, or with one before or after it took effect. */
  datatype Fault = Fine | Before | After

  /** How the calls of one cycle end: the checks that fail, the answers for gas and gas price,
      whether the network already knows the transaction, whether it is waited for long enough, the
      block of the receipt, and whether a failed one is worth going on with. */
  datatype Calls = Calls(
    checkFails: set<Tx>,
    nonceFails: bool, nonceUpdate: Fault,
    gas: Option<nat>, gasPrice: Option<nat>, gasUpdate: Fault,
    signFails: bool, historyUpdate: Fault,
    known: bool, send: Fault, sentUpdate: Fault,
    waits: bool,
    block: nat, continues: bool, lastUpdate: Fault)
  {
    /** No call reports an error, apart from the checks of the history. */
    ghost predicate NoErrors() {
      && !nonceFails && nonceUpdate.Fine? && gas.Some? && gasPrice.Some? && gasUpdate.Fine?
      && !signFails && historyUpdate.Fine? && send.Fine? && sentUpdate.Fine? && lastUpdate.Fine?
    }
  }

  function Max(a: nat, b: nat): nat { if a < b then b else a }

  /** The receipt of a transaction on L1. */
  ghost function ReceiptOf(mined: seq<Entry>, tx: Tx): Option<bool> {
    if MinedAs(mined, tx, true) then Some(true) else if MinedAs(mined, tx, false) then Some(false) else None
  }

  /** The record got its prices: those of one not yet sent are left alone. */
  ghost predicate IsPriced(m: MonitoredTx, c: Calls) {
    m.status == Sent ==> c.gas.Some? && c.gasPrice.Some? && c.gasUpdate.Fine?
  }

  /** The transaction is signed and in the stored history. */
  ghost predicate IsSigned(m: MonitoredTx, c: Calls, tx: Tx) {
    IsPriced(m, c) && !c.signFails && (tx in m.history || c.historyUpdate.Fine?)
  }

  /** Signing and sending, from record m and what was sent before to record m' and what was sent
      then. Gas and gas price are raised if m had been sent before; the transaction is signed with
      them and stored; once it is, it is sent unless the network knows it; and once that is done
      its receipt is waited for. An error ends it there. */
  ghost predicate Attempted(m: MonitoredTx, sent: set<Tx>, c: Calls, m': MonitoredTx, sent': set<Tx>,
                            mined: seq<Entry>, receipt: Option<bool>)
  {
    var tx := BuildTx(m');
    var raised := m.status == Sent && c.gas.Some? && c.gasPrice.Some? && !c.gasUpdate.Before?;
    var done := IsSigned(m, c, tx) && (c.known || (c.send.Fine? && (m.status == Created ==> c.sentUpdate.Fine?)));
    && m' == m.(gas := if raised then Max(m.gas, c.gas.value) else m.gas,
                gasPrice := if raised then Max(m.gasPrice, c.gasPrice.value) else m.gasPrice,
                history := if IsPriced(m, c) && !c.signFails && !c.historyUpdate.Before? then m.history + {tx}
                           else m.history,
                status := if IsSigned(m, c, tx) && !c.known && c.send.Fine? && m.status == Created
                             && !c.sentUpdate.Before? then Sent else m.status)
    && sent' == (if IsSigned(m, c, tx) && !c.known && !c.send.Before? then sent + {tx} else sent)
    && receipt == if done && c.waits then ReceiptOf(mined, tx) else None
  }

  /** The record after the receipt of what was sent. */
  ghost function Finished(m: MonitoredTx, receipt: Option<bool>, c: Calls): MonitoredTx {
    if receipt == Some(true) then m.(status := Confirmed, blockNumber := Some(c.block))
    else if receipt == Some(false) && !c.continues then m.(status := Failed, blockNumber := Some(c.block))
    else m
  }

  /** The nonce has to be reviewed and that fails. */
  ghost predicate ReviewFails(seen: map<Tx, Answer>, c: Calls) {
    ReviewsNonce(seen) && (c.nonceFails || !c.nonceUpdate.Fine?)
  }

  /** Exactly the failing checks have no answer, and what L1 had mined is answered so. */
  ghost predicate Truthful(mined: seq<Entry>, fails: set<Tx>, seen: map<Tx, Answer>) {
    forall t :: t in seen ==>
      && (seen[t] == CheckError <==> t in fails)
      && (t !in fails && ReceiptOf(mined, t).Some? ==> seen[t] == Mined(ReceiptOf(mined, t).value))
  }

  lemma TruthfulMore(mined: seq<Entry>, mined': seq<Entry>, fails: set<Tx>, seen: map<Tx, Answer>,
                     tx: Tx, answer: Answer)
    requires Truthful(mined, fails, seen) && mined <= mined'
    requires answer == CheckError <==> tx in fails
    requires answer.Mined? ==> MinedAs(mined', tx, answer.ok)
    requires answer.NotMined? ==> !MinedAs(mined', tx, true) && !MinedAs(mined', tx, false)
    ensures Truthful(mined, fails, seen[tx := answer])
  {
  }

  lemma AgreesMore(mined: seq<Entry>, mined': seq<Entry>, seen: map<Tx, Answer>, tx: Tx, answer: Answer)
    requires Agrees(mined, seen) && mined <= mined'
    requires answer.Mined? ==> MinedAs(mined', tx, answer.ok)
    ensures Agrees(mined', seen[tx := answer])
  {
  }

  /** Without a failing check a success that was there before is found. */
  lemma TruthfulFinds(mined: seq<Entry>, seen: map<Tx, Answer>, history: set<Tx>)
    requires Truthful(mined, {}, seen) && (!AnySuccess(seen) ==> seen.Keys == history)
    ensures (exists t :: t in history && MinedAs(mined, t, true)) ==> AnySuccess(seen)
  {
    if t :| t in history && MinedAs(mined, t, true) {
      assert t in seen ==> seen[t] == Mined(true);
    }
  }

  datatype Event =
    | Cycle(calls: Calls)
    | Notice(fromBlock: nat, update: Fault)
    | OwnerTurn(reorg: Option<nat>, reorgUpdate: Fault, ownerUpdate: Fault)

  /** What an event does to the record, as far as it does not depend on L1: a reorg notice opens a
      payload with a receipt from its block on, the owner sets a confirmed one as done, and a
      cycle looks only at those created, sent or reorged. */
  ghost predicate Follows(m: MonitoredTx, e: Event, m': MonitoredTx) {
    match e
    case Notice(fromBlock, update) =>
      if m.blockNumber.Some? && fromBlock <= m.blockNumber.value && !update.Before?
      then m' == m.(status := Reorged, blockNumber := None) else m' == m
    case OwnerTurn(_, _, update) =>
      && m' == m.(status := m'.status, blockNumber := m'.blockNumber)
      && (m.status == Confirmed && !update.Before? ==> m'.status == Done)
    case Cycle(_) =>
      && m'.nonce >= m.nonce && m.history <= m'.history
      && (m.status in {Failed, Confirmed, Done} ==> m' == m)
  }

  class Client {
    /** the transactions of the sender that L1 mined, by nonce */
    var mined: seq<Entry>
    /** the transactions for the payload that may have reached L1 */
    var sent: set<Tx>
    /** the record in the storage */
    var stored: MonitoredTx

    ghost predicate Valid() reads this {
      L1Law(mined, sent) && RecordOk(mined, sent, stored)
    }

    /** Add: the payload starts at the nonce of an account with any past. */
    constructor (before: nat, gas: nat, gasOffset: nat, gasPrice: nat)
      ensures Valid() && PastFailed(mined, stored)
      ensures stored == MonitoredTx(before, gas, gasOffset, gasPrice, Created, None, {})
      ensures |mined| == before && sent == {}
    {
      mined := seq(before, _ => Foreign);
      sent := {};
      stored := MonitoredTx(before, gas, gasOffset, gasPrice, Created, None, {});
    }

    /** L1 mines any number of transactions of the sender. */
    method Advance()
      requires L1Law(mined, sent)
      modifies `mined
      ensures L1Law(mined, sent) && old(mined) <= mined
    {
      var n: int := *;
      while n > 0
        invariant L1Law(mined, sent) && old(mined) <= mined
      {
        n := n - 1;
        var ours: bool := *;
        if ours && sent != {} {
          var tx :| tx in sent;
          var ok: bool := *;
          if tx.nonce == |mined| {
            mined := mined + [Ours(tx, ok)];
          }
        } else {
          mined := mined + [Foreign];
        }
      }
    }

    /** The receipt that L1 has for a transaction. */
    method Receipt(tx: Tx) returns (receipt: Option<bool>)
      ensures receipt == ReceiptOf(mined, tx)
    {
      if tx.nonce < |mined| && mined[tx.nonce].Ours? && mined[tx.nonce].tx == tx {
        receipt := Some(mined[tx.nonce].ok);
      } else {
        receipt := None;
      }
    }

    /** CheckTxWasMined */
    method CheckTxWasMined(tx: Tx, fails: bool) returns (answer: Answer)
      requires L1Law(mined, sent)
      modifies `mined
      ensures L1Law(mined, sent) && old(mined) <= mined
      ensures fails <==> answer == CheckError
      ensures answer.Mined? ==> MinedAs(mined, tx, answer.ok)
      ensures answer.NotMined? ==> !MinedAs(mined, tx, true) && !MinedAs(mined, tx, false)
    {
      Advance();
      if fails {
        return CheckError;
      }
      var receipt := Receipt(tx);
      answer := if receipt.Some? then Mined(receipt.value) else NotMined;
    }

    /** storage.Update */
    method Update(m: MonitoredTx, fault: Fault) returns (ok: bool)
      modifies `stored
      ensures stored == if fault.Before? then old(stored) else m
      ensures ok <==> fault.Fine?
    {
      ok := fault.Fine?;
      if !fault.Before? {
        stored := m;
      }
    }

    /** SendTx */
    method SendTx(tx: Tx, fault: Fault) returns (ok: bool)
      requires L1Law(mined, sent)
      modifies `sent
      ensures L1Law(mined, sent) && sent == if fault.Before? then old(sent) else old(sent) + {tx}
      ensures ok <==> fault.Fine?
    {
      ok := fault.Fine?;
      if !fault.Before? {
        sent := sent + {tx};
      }
    }

    /** The loop over the history. It stops at the first success. */
    method CheckHistory(fails: set<Tx>)
      returns (confirmed: bool, hasFailedReceipts: bool, allMined: bool, ghost seen: map<Tx, Answer>)
      requires L1Law(mined, sent)
      modifies `mined
      ensures L1Law(mined, sent) && old(mined) <= mined
      ensures Agrees(mined, seen) && seen.Keys <= stored.history
      ensures confirmed <==> AnySuccess(seen)
      ensures hasFailedReceipts <==> AnyFailure(seen)
      ensures allMined <==> !AnyMissing(seen)
      ensures !confirmed ==> seen.Keys == stored.history
      ensures Truthful(old(mined), fails, seen)
    {
      confirmed, hasFailedReceipts, allMined, seen := false, false, true, map[];
      var todo := stored.history;
      while todo != {} && !confirmed
        invariant L1Law(mined, sent) && old(mined) <= mined
        invariant todo <= stored.history && seen.Keys == stored.history - todo
        invariant Agrees(mined, seen) && Truthful(old(mined), fails, seen)
        invariant confirmed <==> AnySuccess(seen)
        invariant hasFailedReceipts <==> AnyFailure(seen)
        invariant allMined <==> !AnyMissing(seen)
        decreases |todo|
      {
        hide Agrees, AnySuccess, AnyFailure, AnyMissing, Truthful;
        var tx :| tx in todo;
        todo := todo - {tx};
        ghost var before := mined;
        var answer := CheckTxWasMined(tx, tx in fails);
        AgreesMore(before, mined, seen, tx, answer);
        TruthfulMore(old(mined), mined, fails, seen, tx, answer);
        AnyOf(seen, tx, answer);
        seen := seen[tx := answer];
        match answer {
          case CheckError =>
          case NotMined => allMined := false;
          case Mined(ok) =>
            if ok {
              confirmed := true;
            } else {
              hasFailedReceipts := true;
            }
        }
      }
    }

    /** reviewMonitoredTxNonce, and storing its result. */
    method ReviewNonce(ghost seen: map<Tx, Answer>, nonceFails: bool, update: Fault) returns (ok: bool)
      requires Valid() && Agrees(mined, seen) && seen.Keys == stored.history && ReviewsNonce(seen)
      modifies `mined, `stored
      ensures Valid() && old(mined) <= mined
      ensures ok <==> !nonceFails && update.Fine?
      ensures stored == if nonceFails || update.Before? then old(stored)
                        else old(stored).(nonce := Max(old(stored.nonce), |mined|))
      ensures stored.nonce > old(stored.nonce) ==>
        && (SafeMove(old(stored), stored.nonce, seen) <==> ErrorsSettled(old(stored), seen))
        && (ErrorsSettled(old(stored), seen) && old(NoPastSuccess(mined, stored)) ==> NoPastSuccess(mined, stored))
      ensures stored.nonce == old(stored.nonce) ==>
        (NoPastSuccess(mined, stored) <==> old(NoPastSuccess(mined, stored)))
      ensures stored.nonce > old(stored.nonce) && AllAnswered(seen) ==> PastFailed(mined, stored)
      ensures stored.nonce == old(stored.nonce) && old(PastFailed(mined, stored)) ==> PastFailed(mined, stored)
    {
      var m := stored;
      Advance();
      PastLater(old(mined), mined, stored, stored);
      RecordLater(old(mined), mined, sent, stored);
      AgreesLater(old(mined), mined, seen);
      if nonceFails {
        return false;
      }
      if |mined| > m.nonce {
        m := m.(nonce := |mined|);
        NonceReviewIsSafe(mined, sent, stored, seen, |mined|);
        hide SafeMove;
        if ErrorsSettled(stored, seen) && NoPastSuccess(mined, stored) {
          SettledIsSafe(mined, sent, stored, seen, |mined|);
        }
      }
      ok := Update(m, update);
    }

    /** reviewMonitoredTx, and storing its result: gas and gas price only go up. */
    method ReviewGas(gas: Option<nat>, gasPrice: Option<nat>, update: Fault) returns (ok: bool)
      requires Valid()
      modifies `stored
      ensures Valid() && Extends(old(stored), stored)
      ensures ok <==> gas.Some? && gasPrice.Some? && update.Fine?
      ensures stored == if gas.None? || gasPrice.None? || update.Before? then old(stored)
                        else old(stored).(gas := Max(old(stored.gas), gas.value),
                                          gasPrice := Max(old(stored.gasPrice), gasPrice.value))
    {
      var m := stored;
      if gas.None? {
        return false;
      }
      if gas.value > m.gas {
        m := m.(gas := gas.value);
      }
      if gasPrice.None? {
        return false;
      }
      if gasPrice.value > m.gasPrice {
        m := m.(gasPrice := gasPrice.value);
      }
      ok := Update(m, update);
    }

    /** Signing with the stored fields; a new transaction goes to the stored history before
        anything else happens to it. */
    method Sign(fails: bool, update: Fault) returns (tx: Tx, ok: bool)
      requires Valid()
      modifies `stored
      ensures Valid() && Extends(old(stored), stored)
      ensures tx == BuildTx(old(stored))
      ensures tx == Tx(old(stored.nonce), (old(stored.gas) + old(stored.gasOffset)) % 0x1_0000_0000_0000_0000,
                       old(stored.gasPrice))
      ensures ok <==> !fails && (tx in old(stored.history) || update.Fine?)
      ensures stored == if fails || update.Before? then old(stored)
                        else old(stored).(history := old(stored.history) + {tx})
      ensures ok ==> tx in stored.history
    {
      var m := stored;
      tx := BuildTx(m);
      if fails {
        return tx, false;
      }
      ok := true;
      if tx !in m.history {
        m := m.(history := m.history + {tx});
        ok := Update(m, update);
      } else {
        assert m.history + {tx} == m.history;
      }
    }

    /** Sending unless the network has it, and the move from created to sent. */
    method Send(tx: Tx, known: bool, send: Fault, update: Fault) returns (ok: bool)
      requires Valid() && tx in stored.history
      modifies `sent, `stored
      ensures Valid() && Extends(old(stored), stored) && tx in stored.history
      ensures sent == if known || send.Before? then old(sent) else old(sent) + {tx}
      ensures ok <==> known || (send.Fine? && (old(stored.status) != Created || update.Fine?))
      ensures stored == if !known && send.Fine? && old(stored.status) == Created && !update.Before?
                        then old(stored).(status := Sent) else old(stored)
    {
      ok := true;
      if !known {
        ok := SendTx(tx, send);
        if ok && stored.status == Created {
          ok := Update(stored.(status := Sent), update);
        }
      }
    }

    /** WaitTxToBeMined and GetTxReceipt. */
    method WaitForReceipt(tx: Tx, waits: bool) returns (receipt: Option<bool>)
      requires Valid()
      modifies `mined
      ensures Valid() && old(mined) <= mined
      ensures receipt == if waits then ReceiptOf(mined, tx) else None
    {
      Advance();
      RecordLater(old(mined), mined, sent, stored);
      receipt := None;
      if waits {
        receipt := Receipt(tx);
      }
    }

    /** What monitorTx does while nothing is confirmed. */
    method SignAndSend(c: Calls) returns (receipt: Option<bool>)
      requires Valid()
      modifies this
      ensures Valid() && old(mined) <= mined && Extends(old(stored), stored)
      ensures receipt == Some(true) ==> exists t :: t in stored.history && MinedAs(mined, t, true)
      ensures Attempted(old(stored), old(sent), c, stored, sent, mined, receipt)
    {
      var ok := true;
      receipt := None;
      if stored.status == Sent {
        ok := ReviewGas(c.gas, c.gasPrice, c.gasUpdate);
        if !ok {
          return;
        }
      }
      var tx;
      tx, ok := Sign(c.signFails, c.historyUpdate);
      if !ok {
        return;
      }
      ok := Send(tx, c.known, c.send, c.sentUpdate);
      if !ok {
        return;
      }
      receipt := WaitForReceipt(tx, c.waits);
      if receipt == Some(true) { assert MinedAs(mined, tx, true); }
    }

    /** The end of monitorTx: the status and block after a receipt. A failed receipt that is worth
        going on with changes nothing. */
    method Finish(success: bool, block: nat, continues: bool, update: Fault)
      requires Valid()
      requires success ==> exists t :: t in stored.history && MinedAs(mined, t, true)
      modifies `stored
      ensures Valid() && Extends(old(stored), stored)
      ensures stored == if update.Before? || (!success && continues) then old(stored)
                        else old(stored).(status := if success then Confirmed else Failed, blockNumber := Some(block))
    {
      var m := stored;
      if success {
        m := m.(status := Confirmed, blockNumber := Some(block));
      } else {
        if continues {
          return;
        }
        m := m.(status := Failed, blockNumber := Some(block));
      }
      var _ := Update(m, update);
    }

    /** One monitoring of the payload. A success seen in the history confirms it. Without one the
        nonce is reviewed if need be, which is safe exactly if the failed checks are settled, and
        unless the payload was reorged the transaction is signed, stored and sent again. */
    method MonitorTx(c: Calls)
      returns (ghost seen: map<Tx, Answer>, ghost account: nat, ghost middle: MonitoredTx, ghost receipt: Option<bool>)
      requires Valid()
      modifies this
      ensures Valid() && old(mined) <= mined
      ensures stored.nonce >= old(stored.nonce) && old(stored.history) <= stored.history
      ensures Truthful(old(mined), c.checkFails, seen)
      ensures !AnySuccess(seen) ==> seen.Keys == old(stored.history)
      ensures |old(mined)| <= account <= |mined|
      // a success confirms
      ensures AnySuccess(seen) ==>
        && sent == old(sent)
        && stored == if c.lastUpdate.Before? then old(stored)
                     else old(stored).(status := Confirmed, blockNumber := Some(c.block))
      // the review of the nonce
      ensures stored.nonce == if ReviewsNonce(seen) && !c.nonceFails && !c.nonceUpdate.Before?
                              then Max(old(stored.nonce), account) else old(stored.nonce)
      ensures stored.nonce > old(stored.nonce) ==>
        && (SafeMove(old(stored), stored.nonce, seen) <==> ErrorsSettled(old(stored), seen))
        && (ErrorsSettled(old(stored), seen) && old(NoPastSuccess(mined, stored)) ==> NoPastSuccess(mined, stored))
      ensures stored.nonce == old(stored.nonce) ==>
        (NoPastSuccess(mined, stored) <==> old(NoPastSuccess(mined, stored)))
      ensures old(PastFailed(mined, stored)) && AllAnswered(seen) ==> PastFailed(mined, stored)
      // without a success
      ensures !AnySuccess(seen) && (old(stored.status) == Reorged || ReviewFails(seen, c)) ==>
        sent == old(sent) && stored == old(stored).(nonce := stored.nonce)
      ensures !AnySuccess(seen) && old(stored.status) != Reorged && !ReviewFails(seen, c) ==>
        && Attempted(old(stored).(nonce := stored.nonce), old(sent), c, middle, sent, mined, receipt)
        && stored == if c.lastUpdate.Before? then middle else Finished(middle, receipt, c)
    {
      hide Agrees, AnySuccess, AnyFailure, AnyMissing, SafeMove, ErrorsSettled, AllAnswered, Truthful;
      hide L1Law, RecordOk, NoPastSuccess, PastFailed, MinedAs, ReceiptOf, Attempted;
      receipt, middle := None, stored;
      var confirmed, hasFailedReceipts, allMined;
      confirmed, hasFailedReceipts, allMined, seen := CheckHistory(c.checkFails);
      account := |mined|;
      RecordLater(old(mined), mined, sent, stored);
      PastLater(old(mined), mined, stored, stored);
      if !confirmed && hasFailedReceipts && allMined {
        var ok := ReviewNonce(seen, c.nonceFails, c.nonceUpdate);
        account := |mined|;
        if !ok {
          return;
        }
      }
      RecordLater(mined, mined, sent, stored);
      ghost var reviewed, before := stored, mined;
      if confirmed {
        SuccessSeen(mined, seen, stored.history);
        Finish(true, c.block, c.continues, c.lastUpdate);
        PastLater(before, mined, reviewed, stored);
      } else {
        if stored.status == Reorged {
          return;
        }
        var r := SignAndSend(c);
        receipt := r;
        middle := stored;
        if r.Some? {
          Finish(r.value, c.block, c.continues, c.lastUpdate);
        }
        ExtendsTwice(reviewed, middle, stored);
        PastLater(before, mined, reviewed, stored);
      }
    }

    /** Reorg: every payload with a receipt from the block on is monitored again, also one that
        its owner has set as done. */
    method Reorg(fromBlock: nat, update: Fault)
      requires Valid()
      modifies `stored
      ensures Valid() && Extends(old(stored), stored)
      ensures stored == if old(stored.blockNumber).Some? && fromBlock <= old(stored.blockNumber).value
                           && !update.Before?
                        then old(stored).(status := Reorged, blockNumber := None) else old(stored)
    {
      if stored.blockNumber.Some? && fromBlock <= stored.blockNumber.value {
        var _ := Update(stored.(status := Reorged, blockNumber := None), update);
      }
    }

    /** setStatusDone, whatever the status is. */
    method SetStatusDone(update: Fault)
      requires Valid()
      modifies `stored
      ensures Valid() && Extends(old(stored), stored)
      ensures stored == if update.Before? then old(stored) else old(stored).(status := Done)
    {
      var _ := Update(stored.(status := Done), update);
    }

    /** One result in ProcessPendingMonitoredTxs: the owner sets as done what it read as confirmed.
        A reorg notice may come in between, and its status is then overwritten. */
    method ProcessResult(reorg: Option<nat>, reorgUpdate: Fault, update: Fault)
      requires Valid()
      modifies `stored
      ensures Valid() && Extends(old(stored), stored)
      ensures old(stored.status) == Confirmed && !update.Before? ==> stored.status == Done
      ensures stored.status == Done ==> old(stored.status) == Confirmed || old(stored.status) == Done
      ensures reorg.None? && old(stored.status) != Confirmed ==> stored == old(stored)
      ensures stored == old(stored).(status := stored.status, blockNumber := stored.blockNumber)
    {
      var result := stored.status;
      if reorg.Some? {
        Reorg(reorg.value, reorgUpdate);
      }
      if result == Confirmed {
        SetStatusDone(update);
      }
    }

    /** What happens to a payload at one time. */
    method Step(e: Event) returns (ghost unsettled: bool, ghost answered: bool)
      requires Valid()
      modifies this
      ensures Valid() && old(mined) <= mined
      ensures !unsettled && old(NoPastSuccess(mined, stored)) ==> NoPastSuccess(mined, stored)
      ensures answered && old(PastFailed(mined, stored)) ==> PastFailed(mined, stored)
      ensures answered ==> !unsettled
      ensures unsettled ==> e.Cycle? && stored.nonce > old(stored.nonce)
      ensures Follows(old(stored), e, stored)
      ensures e.Cycle? && old(stored.status) in {Created, Sent, Reorged} && e.calls.NoErrors()
        && e.calls.checkFails == {} && (exists t :: t in old(stored.history) && MinedAs(old(mined), t, true))
        ==> stored.status == Confirmed
    {
      hide L1Law, RecordOk, PastFailed, NoPastSuccess, AtMostOnce, ErrorsSettled, AllAnswered, SafeMove, MinedAs;
      hide Truthful, Attempted, ReceiptOf;
      unsettled, answered := false, true;
      ghost var before, was := mined, stored;
      RecordLater(mined, mined, sent, stored);
      match e {
        case Notice(fromBlock, update) => Reorg(fromBlock, update);
        case OwnerTurn(reorg, reorgUpdate, update) => ProcessResult(reorg, reorgUpdate, update);
        case Cycle(calls) =>
          if stored.status == Created || stored.status == Sent || stored.status == Reorged {
            ghost var seen, account, middle, receipt := MonitorTx(calls);
            unsettled := stored.nonce > was.nonce && !ErrorsSettled(was, seen);
            answered := AllAnswered(seen);
            if answered { AnsweredIsSettled(was, seen); }
            if calls.checkFails == {} { TruthfulFinds(before, seen, was.history); }
            return;
          }
      }
      PastLater(before, mined, was, stored);
    }

    /** Any sequence of monitoring cycles, reorg notices and turns of the owner. The payload
        succeeded at most once unless in some cycle the nonce moved with a failed check
        at its own nonce unsettled; and with all checks answered, all history below the nonce was
        mined and failed. */
    method Run(events: seq<Event>) returns (ghost unsettled: bool, ghost answered: bool, ghost trace: seq<MonitoredTx>)
      requires Valid() && PastFailed(mined, stored)
      modifies this
      ensures Valid() && old(mined) <= mined
      ensures !unsettled ==> NoPastSuccess(mined, stored) && AtMostOnce(mined)
      ensures answered ==> !unsettled && PastFailed(mined, stored)
      ensures |trace| == |events| + 1 && trace[0] == old(stored) && trace[|events|] == stored
      ensures forall i :: 0 <= i < |events| ==> Follows(trace[i], events[i], trace[i + 1])
      ensures unsettled ==> exists i :: 0 <= i < |events| && events[i].Cycle? && trace[i + 1].nonce > trace[i].nonce
    {
      hide L1Law, RecordOk, PastFailed, NoPastSuccess, AtMostOnce;
      unsettled, answered, trace := false, true, [stored];
      ghost var moved := 0;
      FailedIsNoSuccess(mined, stored);
      for i := 0 to |events|
        invariant Valid() && old(mined) <= mined
        invariant !unsettled ==> NoPastSuccess(mined, stored)
        invariant answered ==> !unsettled && PastFailed(mined, stored)
        invariant |trace| == i + 1 && trace[0] == old(stored) && trace[i] == stored
        invariant forall k :: 0 <= k < i ==> Follows(trace[k], events[k], trace[k + 1])
        invariant unsettled ==> 0 <= moved < i && events[moved].Cycle? && trace[moved + 1].nonce > trace[moved].nonce
      {
        ghost var u, a := Step(events[i]);
        unsettled := unsettled || u;
        moved := if u then i else moved;
        answered := answered && a;
        trace := trace + [stored];
      }
      if !unsettled { SucceedsAtMostOnce(mined, sent, stored); }
    }
  }

  /** A record that differs in gas, gas price, status, and history at its own nonce only. */
  ghost predicate Extends(m: MonitoredTx, m': MonitoredTx) {
    && m'.nonce == m.nonce && m'.gas >= m.gas && m'.gasPrice >= m.gasPrice && m'.gasOffset == m.gasOffset
    && m.history <= m'.history
    && (forall t :: t in m'.history && t !in m.history ==> t.nonce == m.nonce)
  }

  lemma ExtendsTwice(m: MonitoredTx, m': MonitoredTx, m'': MonitoredTx)
    requires Extends(m, m') && (Extends(m', m'') || m' == m'')
    ensures Extends(m, m'')
  {
  }

  /** The past is settled: neither a growing chain nor an extended record changes it. */
  lemma PastLater(mined: seq<Entry>, mined': seq<Entry>, m: MonitoredTx, m': MonitoredTx)
    requires mined <= mined' && m.nonce <= |mined| && (m == m' || Extends(m, m'))
    ensures NoPastSuccess(mined, m) <==> NoPastSuccess(mined', m')
    ensures PastFailed(mined, m) <==> PastFailed(mined', m')
  {
  }

  lemma RecordLater(mined: seq<Entry>, mined': seq<Entry>, sent: set<Tx>, m: MonitoredTx)
    requires mined <= mined' && RecordOk(mined, sent, m)
    ensures RecordOk(mined', sent, m) && m.nonce <= |mined|
  {
  }

  lemma AnsweredIsSettled(m: MonitoredTx, seen: map<Tx, Answer>)
    requires AllAnswered(seen)
    ensures ErrorsSettled(m, seen)
  {
  }

  lemma SuccessSeen(mined: seq<Entry>, seen: map<Tx, Answer>, history: set<Tx>)
    requires Agrees(mined, seen) && AnySuccess(seen) && seen.Keys <= history
    ensures exists t :: t in history && MinedAs(mined, t, true)
  {
  }

  lemma AgreesLater(mined: seq<Entry>, mined': seq<Entry>, seen: map<Tx, Answer>)
    requires Agrees(mined, seen) && mined <= mined'
    ensures Agrees(mined', seen)
  {
  }

  lemma AnyOf(seen: map<Tx, Answer>, tx: Tx, answer: Answer)
    requires tx !in seen
    ensures AnySuccess(seen[tx := answer]) <==> AnySuccess(seen) || answer == Mined(true)
    ensures AnyFailure(seen[tx := answer]) <==> AnyFailure(seen) || answer == Mined(false)
    ensures AnyMissing(seen[tx := answer]) <==> AnyMissing(seen) || answer == NotMined
  {
    var more := seen[tx := answer];
    assert more[tx] == answer;
    assert forall t :: t in seen ==> t in more && more[t] == seen[t];
  }
}
