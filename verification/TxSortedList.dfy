/** sequencer/txtracker.go: the fields of a transaction the queues look at. */
module TxTrackers {
  datatype Tx = Tx(hash: string, nonce: nat, gasPrice: int, cost: int, receivedAt: int)
}

/** sequencer/txsorted_list.go */
module TxSortedLists {
  import opened TxTrackers

  ghost predicate Descending(s: seq<Tx>) {
    forall i, j :: 0 <= i < j < |s| ==> s[i].gasPrice >= s[j].gasPrice
  }

  ghost predicate Distinct(s: seq<Tx>) {
    forall i, j :: 0 <= i < j < |s| ==> s[i].hash != s[j].hash
  }

  /** The transactions of one gas price, in order. */
  ghost function AtPrice(s: seq<Tx>, price: int): seq<Tx> {
    if s == [] then []
    else if s[|s| - 1].gasPrice == price then AtPrice(s[..|s| - 1], price) + [s[|s| - 1]]
    else AtPrice(s[..|s| - 1], price)
  }

  ghost function Without(s: seq<Tx>, hash: string): seq<Tx> {
    if s == [] then []
    else if s[|s| - 1].hash == hash then Without(s[..|s| - 1], hash)
    else Without(s[..|s| - 1], hash) + [s[|s| - 1]]
  }

  /** `sorted` is `arrivals` by descending gas price, earlier arrivals first among equals. */
  ghost predicate ByPriceThenArrival(sorted: seq<Tx>, arrivals: seq<Tx>) {
    && Descending(sorted)
    && forall price :: AtPrice(sorted, price) == AtPrice(arrivals, price)
  }

  lemma {:induction false} AtPriceConcat(s: seq<Tx>, t: seq<Tx>, price: int)
    ensures AtPrice(s + t, price) == AtPrice(s, price) + AtPrice(t, price)
  {
    if t == [] {
      assert s + t == s;
    } else {
      AtPriceConcat(s, t[..|t| - 1], price);
      assert (s + t)[..|s + t| - 1] == s + t[..|t| - 1];
    }
  }

  lemma {:induction false} AtPriceNone(s: seq<Tx>, price: int)
    requires forall i :: 0 <= i < |s| ==> s[i].gasPrice != price
    ensures AtPrice(s, price) == []
  {
    if s != [] { AtPriceNone(s[..|s| - 1], price); }
  }

  lemma {:induction false} AtPriceMember(s: seq<Tx>, price: int, tx: Tx)
    ensures tx in AtPrice(s, price) <==> tx in s && tx.gasPrice == price
  {
    if s != [] {
      AtPriceMember(s[..|s| - 1], price, tx);
      assert s == s[..|s| - 1] + [s[|s| - 1]];
    }
  }

  /** Both lists hold the same transactions. */
  lemma SameMembers(sorted: seq<Tx>, arrivals: seq<Tx>, tx: Tx)
    requires ByPriceThenArrival(sorted, arrivals)
    ensures tx in sorted <==> tx in arrivals
  {
    AtPriceMember(sorted, tx.gasPrice, tx);
    AtPriceMember(arrivals, tx.gasPrice, tx);
  }

  lemma {:induction false} WithoutConcat(s: seq<Tx>, t: seq<Tx>, hash: string)
    ensures Without(s + t, hash) == Without(s, hash) + Without(t, hash)
  {
    if t == [] {
      assert s + t == s;
    } else {
      WithoutConcat(s, t[..|t| - 1], hash);
      assert (s + t)[..|s + t| - 1] == s + t[..|t| - 1];
    }
  }

  lemma {:induction false} WithoutAbsent(s: seq<Tx>, hash: string)
    requires forall i :: 0 <= i < |s| ==> s[i].hash != hash
    ensures Without(s, hash) == s
  {
    if s != [] {
      WithoutAbsent(s[..|s| - 1], hash);
      assert s == s[..|s| - 1] + [s[|s| - 1]];
    }
  }

  lemma AtPriceOne(s: seq<Tx>, tx: Tx, price: int)
    ensures AtPrice(s + [tx], price) == if tx.gasPrice == price then AtPrice(s, price) + [tx] else AtPrice(s, price)
  {
    assert (s + [tx])[..|s|] == s;
  }

  lemma WithoutOne(s: seq<Tx>, tx: Tx, hash: string)
    ensures Without(s + [tx], hash) == if tx.hash == hash then Without(s, hash) else Without(s, hash) + [tx]
  {
    assert (s + [tx])[..|s|] == s;
  }

  lemma {:induction false} AtPriceWithout(s: seq<Tx>, hash: string, price: int)
    ensures AtPrice(Without(s, hash), price) == Without(AtPrice(s, price), hash)
  {
    if s != [] {
      var front, last := s[..|s| - 1], s[|s| - 1];
      AtPriceWithout(front, hash, price);
      AtPriceOne(Without(front, hash), last, price);
      WithoutOne(AtPrice(front, price), last, hash);
    }
  }

  lemma WithoutMiddle(left: seq<Tx>, tx: Tx, right: seq<Tx>)
    requires forall k :: 0 <= k < |left| ==> left[k].hash != tx.hash
    requires forall k :: 0 <= k < |right| ==> right[k].hash != tx.hash
    ensures Without(left + [tx] + right, tx.hash) == left + right
  {
    hide Without;
    WithoutConcat(left + [tx], right, tx.hash);
    WithoutOne(left, tx, tx.hash);
    WithoutAbsent(left, tx.hash);
    WithoutAbsent(right, tx.hash);
  }

  /** Dropping the transaction at `i` is dropping its hash. */
  lemma WithoutAt(s: seq<Tx>, i: nat)
    requires i < |s| && Distinct(s)
    ensures Without(s, s[i].hash) == s[..i] + s[i + 1..]
  {
    hide Without;
    var left, right := s[..i], s[i + 1..];
    assert forall k :: 0 <= k < |left| ==> left[k].hash != s[i].hash;
    assert forall k :: 0 <= k < |right| ==> right[k].hash != s[i].hash;
    hide Distinct;
    WithoutMiddle(left, s[i], right);
    assert s == left + [s[i]] + right;
  }

  lemma InsertAtPrice(left: seq<Tx>, tx: Tx, right: seq<Tx>, price: int)
    requires forall k :: 0 <= k < |right| ==> right[k].gasPrice < tx.gasPrice
    ensures AtPrice(left + [tx] + right, price) == AtPrice(left + right + [tx], price)
  {
    hide AtPrice;
    AtPriceConcat(left + [tx], right, price);
    AtPriceConcat(left, right, price);
    AtPriceOne(left, tx, price);
    AtPriceOne(left + right, tx, price);
    if price == tx.gasPrice {
      AtPriceNone(right, price);
      assert AtPrice(left, price) + [] == AtPrice(left, price);
      assert AtPrice(left + [tx], price) + [] == AtPrice(left + [tx], price);
    }
  }

  /** Inserting behind every price that is not lower keeps the order. */
  lemma InsertKeepsOrder(sorted: seq<Tx>, arrivals: seq<Tx>, tx: Tx, i: nat)
    requires ByPriceThenArrival(sorted, arrivals) && i <= |sorted|
    requires forall k :: 0 <= k < i ==> sorted[k].gasPrice >= tx.gasPrice
    requires forall k :: i <= k < |sorted| ==> sorted[k].gasPrice < tx.gasPrice
    ensures ByPriceThenArrival(sorted[..i] + [tx] + sorted[i..], arrivals + [tx])
  {
    hide AtPrice;
    forall price
      ensures AtPrice(sorted[..i] + [tx] + sorted[i..], price) == AtPrice(arrivals + [tx], price)
    {
      hide Descending;
      InsertAtPrice(sorted[..i], tx, sorted[i..], price);
      assert sorted[..i] + sorted[i..] == sorted;
      AtPriceOne(sorted, tx, price);
      AtPriceOne(arrivals, tx, price);
    }
  }

  lemma DropKeepsOrder(sorted: seq<Tx>, arrivals: seq<Tx>, i: nat)
    requires ByPriceThenArrival(sorted, arrivals) && Distinct(sorted) && i < |sorted|
    ensures ByPriceThenArrival(sorted[..i] + sorted[i + 1..], Without(arrivals, sorted[i].hash))
  {
    var hash := sorted[i].hash;
    WithoutAt(sorted, i);
    forall price
      ensures AtPrice(sorted[..i] + sorted[i + 1..], price) == AtPrice(Without(arrivals, hash), price)
    {
      AtPriceWithout(sorted, hash, price);
      AtPriceWithout(arrivals, hash, price);
    }
  }

  lemma SameBefore(s: seq<Tx>, x: Tx, t: seq<Tx>, y: Tx, price: int)
    requires x.gasPrice == y.gasPrice
    requires AtPrice(s + [x], price) == AtPrice(t + [y], price)
    ensures AtPrice(s, price) == AtPrice(t, price)
    ensures x.gasPrice == price ==> x == y
  {
    hide AtPrice;
    AtPriceOne(s, x, price);
    AtPriceOne(t, y, price);
    if x.gasPrice == price {
      LastOf(AtPrice(s, price), x, AtPrice(t, price), y);
    }
  }

  lemma SameLastPrice(s: seq<Tx>, t: seq<Tx>)
    requires Descending(s) && Descending(t) && s != [] && t != []
    requires s[|s| - 1] in t && t[|t| - 1] in s
    ensures s[|s| - 1].gasPrice == t[|t| - 1].gasPrice
  {
    var i :| 0 <= i < |t| && t[i] == s[|s| - 1];
    var j :| 0 <= j < |s| && s[j] == t[|t| - 1];
  }

  /** Descending lists with the same transactions at every price end in the same one, and
      agree before it too. */
  lemma SameLast(s: seq<Tx>, t: seq<Tx>)
    requires ByPriceThenArrival(s, t) && Descending(t) && s != [] && t != []
    ensures s[|s| - 1] == t[|t| - 1]
    ensures ByPriceThenArrival(s[..|s| - 1], t[..|t| - 1])
  {
    hide AtPrice, Descending;
    var last, last' := s[|s| - 1], t[|t| - 1];
    SameMembers(s, t, last);
    SameMembers(s, t, last');
    SameLastPrice(s, t);
    DescendingPrefix(s);
    var s', t' := s[..|s| - 1], t[..|t| - 1];
    assert s == s' + [last] && t == t' + [last'];
    SameBefore(s', last, t', last', last.gasPrice);
    forall price ensures AtPrice(s', price) == AtPrice(t', price) {
      assert AtPrice(s, price) == AtPrice(t, price);
      SameBefore(s', last, t', last', price);
    }
  }

  lemma DescendingPrefix(s: seq<Tx>)
    requires Descending(s) && s != []
    ensures Descending(s[..|s| - 1])
  {
  }

  lemma LastOf(s: seq<Tx>, x: Tx, t: seq<Tx>, y: Tx)
    requires s + [x] == t + [y]
    ensures s == t && x == y
  {
    assert (s + [x])[..|s|] == s && (t + [y])[..|t|] == t;
    assert (s + [x])[|s|] == x && (t + [y])[|t|] == y;
    assert |s + [x]| == |t + [y]|;
  }

  /** The order leaves no choice: two lists ordered the same way are the same list. */
  lemma {:induction false} OrderIsUnique(s: seq<Tx>, t: seq<Tx>)
    requires ByPriceThenArrival(s, t) && Descending(t)
    ensures s == t
  {
    if s == [] || t == [] {
      if t != [] { SameMembers(s, t, t[0]); }
      if s != [] { SameMembers(s, t, s[0]); }
    } else {
      SameLast(s, t);
      hide ByPriceThenArrival;
      OrderIsUnique(s[..|s| - 1], t[..|t| - 1]);
      assert s == s[..|s| - 1] + [s[|s| - 1]] && t == t[..|t| - 1] + [t[|t| - 1]];
    }
  }

  /** The map and the list hold the same transactions. */
  ghost predicate Indexed(list: map<string, Tx>, sorted: seq<Tx>) {
    && (forall i :: 0 <= i < |sorted| ==> sorted[i].hash in list && list[sorted[i].hash] == sorted[i])
    && (forall h :: h in list ==> list[h].hash == h && list[h] in sorted)
  }

  lemma InsertKeepsDistinct(s: seq<Tx>, tx: Tx, i: nat)
    requires Distinct(s) && i <= |s|
    requires forall k :: 0 <= k < |s| ==> s[k].hash != tx.hash
    ensures Distinct(s[..i] + [tx] + s[i..])
  {
  }

  lemma InsertKeepsIndex(list: map<string, Tx>, sorted: seq<Tx>, tx: Tx, i: nat)
    requires Indexed(list, sorted) && i <= |sorted| && tx.hash !in list
    ensures Indexed(list[tx.hash := tx], sorted[..i] + [tx] + sorted[i..])
  {
    var s := sorted[..i] + [tx] + sorted[i..];
    assert s[i] == tx;
    forall h | h in list ensures list[h] in s {
      var k :| 0 <= k < |sorted| && sorted[k] == list[h];
      assert s[if k < i then k else k + 1] == sorted[k];
    }
  }

  lemma DropMember(s: seq<Tx>, i: nat, tx: Tx)
    requires Distinct(s) && i < |s|
    ensures tx in s[..i] + s[i + 1..] <==> tx in s && tx.hash != s[i].hash
  {
    var left, right := s[..i], s[i + 1..];
    assert s == left + [s[i]] + right;
    assert tx in right ==> exists k :: i < k < |s| && s[k] == tx;
    assert tx in left ==> exists k :: 0 <= k < i && s[k] == tx;
  }

  lemma DropKeepsIndex(list: map<string, Tx>, sorted: seq<Tx>, i: nat)
    requires Indexed(list, sorted) && Distinct(sorted) && i < |sorted|
    ensures Indexed(list - {sorted[i].hash}, sorted[..i] + sorted[i + 1..])
  {
    hide Distinct;
    var s := sorted[..i] + sorted[i + 1..];
    forall tx ensures tx in s <==> tx in sorted && tx.hash != sorted[i].hash { DropMember(sorted, i, tx); }
    forall k | 0 <= k < |s| ensures s[k] in sorted && s[k].hash != sorted[i].hash {
      assert s[k] in s;
    }
  }

  lemma DropKeepsDistinct(s: seq<Tx>, i: nat)
    requires Distinct(s) && i < |s|
    ensures Distinct(s[..i] + s[i + 1..])
  {
  }

  /** sort.Search: the first index at which `f` holds, n when there is none. */
  method Search(n: nat, f: nat -> bool) returns (i: nat)
    requires forall a, b :: 0 <= a < b < n && f(a) ==> f(b)
    ensures i <= n
    ensures forall k :: 0 <= k < i ==> !f(k)
    ensures forall k :: i <= k < n ==> f(k)
  {
    i := 0;
    var j := n;
    while i < j
      invariant 0 <= i <= j <= n
      invariant forall k :: 0 <= k < i ==> !f(k)
      invariant forall k :: j <= k < n ==> f(k)
    {
      var h := (i + j) / 2;
      if !f(h) {
        i := h + 1;
      } else {
        j := h;
      }
    }
  }

  class TxSortedList {
    var list: map<string, Tx>
    var sorted: seq<Tx>
    /** the transactions held, in the order they were added */
    ghost var arrivals: seq<Tx>

    ghost predicate Valid() reads this {
      && ByPriceThenArrival(sorted, arrivals)
      && Distinct(sorted)
      && Indexed(list, sorted)
    }

    constructor ()
      ensures Valid() && list == map[] && sorted == [] && arrivals == []
    {
      list, sorted, arrivals := map[], [], [];
    }

    method Add(tx: Tx) returns (added: bool)
      requires Valid()
      modifies this
      ensures Valid()
      ensures added <==> tx.hash !in old(list)
      ensures list == if added then old(list)[tx.hash := tx] else old(list)
      ensures arrivals == if added then old(arrivals) + [tx] else old(arrivals)
      ensures !added ==> sorted == old(sorted)
    {
      added := tx.hash !in list;
      if added {
        ghost var before := list;
        list := list[tx.hash := tx];
        assert list - {tx.hash} == before;
        AddSort(tx);
      }
    }

    /** The bisection of addSort: the first transaction with a lower price. */
    method InsertionPoint(tx: Tx) returns (i: nat)
      requires Descending(sorted)
      ensures i <= |sorted|
      ensures forall k :: 0 <= k < i ==> sorted[k].gasPrice >= tx.gasPrice
      ensures forall k :: i <= k < |sorted| ==> sorted[k].gasPrice < tx.gasPrice
    {
      var s := sorted;
      var below := (k: nat) => k < |s| && tx.gasPrice > s[k].gasPrice;
      i := Search(|s|, below);
      assert forall k {:trigger s[k]} :: 0 <= k < |s| ==> (below(k) <==> tx.gasPrice > s[k].gasPrice);
    }

    /** The map already holds the transaction. */
    method AddSort(tx: Tx)
      requires ByPriceThenArrival(sorted, arrivals) && Distinct(sorted)
      requires tx.hash in list && list[tx.hash] == tx
      requires Indexed(list - {tx.hash}, sorted)
      modifies `sorted, `arrivals
      ensures Valid() && arrivals == old(arrivals) + [tx]
    {
      hide AtPrice;
      var i := InsertionPoint(tx);
      InsertKeepsOrder(sorted, arrivals, tx, i);
      InsertKeepsIndex(list - {tx.hash}, sorted, tx, i);
      InsertKeepsDistinct(sorted, tx, i);
      assert (list - {tx.hash})[tx.hash := tx] == list;
      hide ByPriceThenArrival, Indexed, Distinct;
      sorted := sorted[..i] + [tx] + sorted[i..];
      arrivals := arrivals + [tx];
    }

    /** The scan of delete: from the first transaction with no higher price down to the one
        with the hash, giving up at the end of the list or at another price. It never has to
        for a transaction that is held. */
    method Position(tx: Tx) returns (found: bool, i: nat)
      requires Valid() && tx in sorted
      ensures found && i < |sorted| && sorted[i] == tx
    {
      hide AtPrice, Indexed;
      var s := sorted;
      ghost var at :| 0 <= at < |s| && s[at] == tx;
      var notAbove := (k: nat) => k < |s| && tx.gasPrice >= s[k].gasPrice;
      i := Search(|s|, notAbove);
      assert forall k {:trigger s[k]} :: 0 <= k < |s| ==> (notAbove(k) <==> tx.gasPrice >= s[k].gasPrice);
      while i < |sorted| && sorted[i].gasPrice == tx.gasPrice && sorted[i].hash != tx.hash
        invariant i <= at
        invariant tx.gasPrice >= sorted[i].gasPrice
        decreases at - i
      {
        i := i + 1;
      }
      found := i < |sorted| && sorted[i].gasPrice == tx.gasPrice;
    }

    method Delete(tx: Tx) returns (deleted: bool)
      requires Valid()
      modifies this
      ensures Valid()
      ensures deleted <==> tx.hash in old(list)
      ensures list == old(list) - {tx.hash}
      ensures arrivals == Without(old(arrivals), tx.hash)
      ensures !deleted ==> sorted == old(sorted)
    {
      deleted := false;
      if tx.hash in list {
        var held := list[tx.hash];
        var found, i := Position(held);
        if found {
          DropKeepsOrder(sorted, arrivals, i);
          DropKeepsIndex(list, sorted, i);
          DropKeepsDistinct(sorted, i);
          hide ByPriceThenArrival, Indexed, Distinct;
          list := list - {held.hash};
          arrivals := Without(arrivals, held.hash);
          sorted := sorted[..i] + sorted[i + 1..];
          deleted := true;
        }
      } else {
        forall k | 0 <= k < |arrivals| ensures arrivals[k].hash != tx.hash {
          SameMembers(sorted, arrivals, arrivals[k]);
        }
        WithoutAbsent(arrivals, tx.hash);
      }
    }

    method GetByIndex(i: nat) returns (tx: Tx)
      requires Valid() && i < |sorted|
      ensures tx == sorted[i] && tx in arrivals
    {
      tx := sorted[i];
      SameMembers(sorted, arrivals, tx);
    }

    /** Reading every index gives the transactions held, best price first and earlier arrivals
        first among equals. */
    method ReadAll() returns (l: seq<Tx>)
      requires Valid()
      ensures ByPriceThenArrival(l, arrivals)
      ensures |l| == |arrivals| && multiset(l) == multiset(arrivals)
    {
      hide AtPrice, ByPriceThenArrival, Indexed;
      l := [];
      for i := 0 to |sorted|
        invariant l == sorted[..i]
      {
        var tx := GetByIndex(i);
        l := l + [tx];
      }
      assert l == sorted;
      SameTransactions(sorted, arrivals);
    }
  }

  /** A list ordered by price and arrival is a permutation of the arrivals. */
  lemma SameTransactions(sorted: seq<Tx>, arrivals: seq<Tx>)
    requires ByPriceThenArrival(sorted, arrivals)
    ensures multiset(sorted) == multiset(arrivals) && |sorted| == |arrivals|
  {
    forall tx ensures multiset(sorted)[tx] == multiset(arrivals)[tx] {
      CountAtPrice(sorted, tx);
      CountAtPrice(arrivals, tx);
    }
    assert |multiset(sorted)| == |sorted| && |multiset(arrivals)| == |arrivals|;
  }

  lemma {:induction false} CountAtPrice(s: seq<Tx>, tx: Tx)
    ensures multiset(AtPrice(s, tx.gasPrice))[tx] == multiset(s)[tx]
  {
    if s != [] {
      CountAtPrice(s[..|s| - 1], tx);
      assert s == s[..|s| - 1] + [s[|s| - 1]];
    }
  }

  /** Three transactions: the dearer ones first, of equal price the earlier one first. */
  method BestFirst() returns (l: seq<Tx>)
    ensures l == [Tx("b", 0, 20, 0, 0), Tx("c", 0, 20, 0, 0), Tx("a", 0, 10, 0, 0)]
  {
    var a, b, c := Tx("a", 0, 10, 0, 0), Tx("b", 0, 20, 0, 0), Tx("c", 0, 20, 0, 0);
    var list := new TxSortedList();
    var _ := list.Add(a);
    var _ := list.Add(b);
    var _ := list.Add(c);
    l := list.ReadAll();
    BestFirstIs(a, b, c, l);
  }

  lemma BestFirstIs(a: Tx, b: Tx, c: Tx, l: seq<Tx>)
    requires a.gasPrice < b.gasPrice == c.gasPrice && ByPriceThenArrival(l, [] + [a] + [b] + [c])
    ensures l == [b, c, a]
  {
    hide AtPrice;
    forall price ensures AtPrice([] + [a] + [b] + [c], price) == AtPrice([b, c, a], price) {
      MovedLast(a, b, c, price);
    }
    assert Descending([b, c, a]);
    hide Descending;
    OrderIsUnique(l, [b, c, a]);
  }

  lemma MovedLast(a: Tx, b: Tx, c: Tx, price: int)
    requires a.gasPrice != b.gasPrice == c.gasPrice
    ensures AtPrice([] + [a] + [b] + [c], price) == AtPrice([b, c, a], price)
  {
    hide AtPrice;
    AtPriceNone([], price);
    AtPriceOne([], a, price);
    AtPriceOne([] + [a], b, price);
    AtPriceOne([] + [a] + [b], c, price);
    AtPriceOne([], b, price);
    AtPriceOne([] + [b], c, price);
    AtPriceOne([] + [b] + [c], a, price);
    assert [] + [b] + [c] + [a] == [b, c, a];
  }

  datatype Op = Add(tx: Tx) | Delete(tx: Tx)

  /** The transactions that survive a run of operations, in the order they arrived. */
  ghost function Survivors(ops: seq<Op>): seq<Tx> {
    if ops == [] then []
    else
      var before := Survivors(ops[..|ops| - 1]);
      match ops[|ops| - 1]
      case Add(tx) => if exists t :: t in before && t.hash == tx.hash then before else before + [tx]
      case Delete(tx) => Without(before, tx.hash)
  }

  /** Every run of additions and deletions leaves its survivors, best price first. */
  method Replay(ops: seq<Op>) returns (l: TxSortedList)
    ensures fresh(l) && l.Valid()
    ensures ByPriceThenArrival(l.sorted, Survivors(ops))
    ensures l.list.Values == set t | t in Survivors(ops)
  {
    l := new TxSortedList();
    for n := 0 to |ops|
      invariant l.Valid() && fresh(l) && l.arrivals == Survivors(ops[..n])
    {
      assert ops[..n + 1][..n] == ops[..n];
      ghost var before := l.arrivals;
      forall t ensures t in l.sorted <==> t in before { SameMembers(l.sorted, before, t); }
      match ops[n] {
        case Add(tx) =>
          var _ := l.Add(tx);
        case Delete(tx) =>
          var _ := l.Delete(tx);
      }
    }
    assert ops[..|ops|] == ops;
    forall t ensures t in l.list.Values <==> t in l.arrivals {
      SameMembers(l.sorted, l.arrivals, t);
      if t in l.sorted { assert t.hash in l.list; }
    }
  }
}
