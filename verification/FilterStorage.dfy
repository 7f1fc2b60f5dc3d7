/** jsonrpc/storage.go: the filters of the JSON-RPC server, indexed by id, by web socket
    connection and by type. */
module FilterStorage {
  import opened Wrappers

  type Conn = nat

  datatype FilterType = LogFilter | BlockFilter | PendingTxFilter

  datatype Filter = Filter(id: string, kind: FilterType, conn: Option<Conn>)

  // ---- what the indexes should hold ----

  ghost function OfType(all: map<string, Filter>, kind: FilterType): map<string, Filter> {
    map id | id in all && all[id].kind == kind && all[id].conn.Some? :: all[id]
  }

  ghost function OfConn(all: map<string, Filter>, conn: Conn): map<string, Filter> {
    map id | id in all && all[id].conn == Some(conn) :: all[id]
  }

  /** Both sides of the index by connection: its entries are right, none is empty, and every
      connection of a filter has one. */
  ghost predicate ConnsOk(all: map<string, Filter>, byConn: map<Conn, map<string, Filter>>) {
    && (forall c :: c in byConn ==> byConn[c] == OfConn(all, c) && byConn[c] != map[])
    && (forall id :: id in all && all[id].conn.Some? ==> all[id].conn.value in byConn)
  }

  ghost predicate TypesOk(all: map<string, Filter>, blocks: map<string, Filter>, logs: map<string, Filter>,
                          pendingTxs: map<string, Filter>)
  {
    && blocks == OfType(all, BlockFilter) && logs == OfType(all, LogFilter)
    && pendingTxs == OfType(all, PendingTxFilter)
  }

  ghost predicate Keyed(all: map<string, Filter>) {
    forall id :: id in all ==> all[id].id == id
  }

  // ---- adding and removing one filter ----

  /** The index entry of one type after a filter is created. */
  function AddTo(index: map<string, Filter>, kind: FilterType, f: Filter): map<string, Filter> {
    if f.kind == kind && f.conn.Some? then index[f.id := f] else index
  }

  /** The filter being replaced, if any, is in no index that the new one is not in too. */
  predicate Replaceable(all: map<string, Filter>, f: Filter) {
    f.id in all ==> all[f.id].conn.None? || (all[f.id].conn == f.conn && all[f.id].kind == f.kind)
  }

  lemma AddOfType(all: map<string, Filter>, kind: FilterType, f: Filter)
    requires Replaceable(all, f)
    ensures OfType(all[f.id := f], kind) == AddTo(OfType(all, kind), kind, f)
  {
  }

  lemma RemoveOfType(all: map<string, Filter>, kind: FilterType, f: Filter)
    requires f.id in all && all[f.id] == f
    ensures OfType(all - {f.id}, kind) == if f.kind == kind then OfType(all, kind) - {f.id} else OfType(all, kind)
  {
  }

  lemma RemoveOfConn(all: map<string, Filter>, conn: Conn, id: string)
    ensures OfConn(all - {id}, conn) == OfConn(all, conn) - {id}
  {
  }

  function AddConn(byConn: map<Conn, map<string, Filter>>, f: Filter): map<Conn, map<string, Filter>> {
    if f.conn.None? then byConn
    else
      var c := f.conn.value;
      byConn[c := (if c in byConn then byConn[c] else map[])[f.id := f]]
  }

  lemma AddOfConn(all: map<string, Filter>, conn: Conn, f: Filter)
    requires Replaceable(all, f)
    ensures OfConn(all[f.id := f], conn)
         == if f.conn == Some(conn) then OfConn(all, conn)[f.id := f] else OfConn(all, conn)
  {
  }

  lemma AddKeepsConns(all: map<string, Filter>, byConn: map<Conn, map<string, Filter>>, f: Filter)
    requires ConnsOk(all, byConn) && Replaceable(all, f)
    ensures ConnsOk(all[f.id := f], AddConn(byConn, f))
  {
    var all', byConn' := all[f.id := f], AddConn(byConn, f);
    if f.conn.Some? && f.conn.value !in byConn { NoneOf(all, byConn, f.conn.value); }
    hide OfConn, Replaceable;
    forall c | c in byConn' ensures byConn'[c] == OfConn(all', c) && byConn'[c] != map[] {
      AddOfConn(all, c, f);
      if f.conn == Some(c) { assert f.id in byConn'[c]; }
    }
  }

  function RemoveConn(byConn: map<Conn, map<string, Filter>>, f: Filter): map<Conn, map<string, Filter>> {
    if f.conn.None? || f.conn.value !in byConn then byConn
    else
      var c := f.conn.value;
      var left := byConn[c] - {f.id};
      if left == map[] then byConn - {c} else byConn[c := left]
  }

  lemma RemoveKeepsConns(all: map<string, Filter>, byConn: map<Conn, map<string, Filter>>, f: Filter)
    requires ConnsOk(all, byConn) && f.id in all && all[f.id] == f
    ensures ConnsOk(all - {f.id}, RemoveConn(byConn, f))
  {
    var all', byConn' := all - {f.id}, RemoveConn(byConn, f);
    RemoveKeepsEntries(all, byConn, f);
    forall c | c in byConn' ensures byConn'[c] == OfConn(all', c) && byConn'[c] != map[] {
      EntryKept(all, byConn, f, c);
    }
    hide OfConn, RemoveConn;
  }

  lemma EntryKept(all: map<string, Filter>, byConn: map<Conn, map<string, Filter>>, f: Filter, c: Conn)
    requires ConnsOk(all, byConn) && f.id in all && all[f.id] == f && c in RemoveConn(byConn, f)
    ensures RemoveConn(byConn, f)[c] == OfConn(all - {f.id}, c) && RemoveConn(byConn, f)[c] != map[]
  {
    RemoveOfConn(all, c, f.id);
    assert f.conn != Some(c) ==> f.id !in OfConn(all, c);
    assert c in byConn && byConn[c] == OfConn(all, c) && byConn[c] != map[];
    hide OfConn, ConnsOk;
  }

  lemma RemoveKeepsEntries(all: map<string, Filter>, byConn: map<Conn, map<string, Filter>>, f: Filter)
    requires ConnsOk(all, byConn) && f.id in all && all[f.id] == f
    ensures var all', byConn' := all - {f.id}, RemoveConn(byConn, f);
      forall id :: id in all' && all'[id].conn.Some? ==> all'[id].conn.value in byConn'
  {
    var all', byConn' := all - {f.id}, RemoveConn(byConn, f);
    forall id | id in all' && all'[id].conn.Some? ensures all'[id].conn.value in byConn' {
      if f.conn == all[id].conn { assert id in byConn[f.conn.value] - {f.id}; }
    }
  }

  /** What is left of `before` when all but the filters in `todo` have been deleted. */
  ghost predicate Left(before: map<string, Filter>, ids: set<string>, todo: set<string>, all: map<string, Filter>) {
    all == before - (ids - todo)
  }

  lemma NoneGone(all: map<string, Filter>, ids: set<string>)
    ensures Left(all, ids, ids, all)
  {
    assert ids - ids == {};
  }

  lemma OneGone(before: map<string, Filter>, ids: set<string>, todo: set<string>, all: map<string, Filter>, id: string)
    requires Left(before, ids, todo, all) && id in todo && todo <= ids && id in before
    ensures id in all && all[id] == before[id]
    ensures Left(before, ids, todo - {id}, all - {id})
  {
    assert ids - (todo - {id}) == (ids - todo) + {id};
  }

  lemma AllGone(before: map<string, Filter>, ids: set<string>, all: map<string, Filter>)
    requires Left(before, ids, {}, all)
    ensures all == before - ids
  {
    assert ids - {} == ids;
  }

  class Storage {
    var all: map<string, Filter>
    var byConn: map<Conn, map<string, Filter>>
    var blocks: map<string, Filter>
    var logs: map<string, Filter>
    var pendingTxs: map<string, Filter>

    ghost predicate Valid() reads this {
      Keyed(all) && ConnsOk(all, byConn) && TypesOk(all, blocks, logs, pendingTxs)
    }

    constructor ()
      ensures Valid() && all == map[] && byConn == map[]
    {
      all, byConn, blocks, logs, pendingTxs := map[], map[], map[], map[], map[];
    }

    /** The index by connection of a new filter. */
    method IndexConn(f: Filter)
      modifies `byConn
      ensures byConn == AddConn(old(byConn), f)
    {
      if f.conn.Some? {
        var c := f.conn.value;
        if c !in byConn {
          byConn := byConn[c := map[]];
        }
        byConn := byConn[c := byConn[c][f.id := f]];
      }
    }

    /** The index by type of a new filter. */
    method IndexType(f: Filter)
      modifies `blocks, `logs, `pendingTxs
      ensures blocks == AddTo(old(blocks), BlockFilter, f)
      ensures logs == AddTo(old(logs), LogFilter, f)
      ensures pendingTxs == AddTo(old(pendingTxs), PendingTxFilter, f)
    {
      if f.conn.Some? {
        match f.kind {
          case BlockFilter => blocks := blocks[f.id := f];
          case LogFilter => logs := logs[f.id := f];
          case PendingTxFilter => pendingTxs := pendingTxs[f.id := f];
        }
      }
    }

    /** createFilter with the id that was generated, None when that failed. The indexes stay
        right exactly when the id is new or the filter it replaces was in the same ones. */
    method CreateFilter(kind: FilterType, conn: Option<Conn>, id: Option<string>) returns (r: Option<string>)
      requires Valid()
      modifies this
      ensures r == id
      ensures id.None? ==> Valid() && all == old(all)
      ensures id.Some? ==> all == old(all)[id.value := Filter(id.value, kind, conn)]
      ensures id.Some? ==> byConn == AddConn(old(byConn), Filter(id.value, kind, conn))
      ensures id.Some? ==> (Valid() <==> Replaceable(old(all), Filter(id.value, kind, conn)))
    {
      hide Keyed, ConnsOk, TypesOk, Replaceable, AddConn, AddTo;
      r := id;
      if id.None? {
        return;
      }
      var f := Filter(id.value, kind, conn);
      Created(all, byConn, blocks, logs, pendingTxs, f);
      all := all[f.id := f];
      IndexConn(f);
      IndexType(f);
    }

    method DropType(f: Filter)
      modifies `blocks, `logs, `pendingTxs
      ensures blocks == if f.kind == BlockFilter then old(blocks) - {f.id} else old(blocks)
      ensures logs == if f.kind == LogFilter then old(logs) - {f.id} else old(logs)
      ensures pendingTxs == if f.kind == PendingTxFilter then old(pendingTxs) - {f.id} else old(pendingTxs)
    {
      match f.kind {
        case BlockFilter => blocks := blocks - {f.id};
        case LogFilter => logs := logs - {f.id};
        case PendingTxFilter => pendingTxs := pendingTxs - {f.id};
      }
    }

    method DropConn(f: Filter)
      modifies `byConn
      ensures byConn == RemoveConn(old(byConn), f)
    {
      if f.conn.Some? && f.conn.value in byConn {
        var c := f.conn.value;
        byConn := byConn[c := byConn[c] - {f.id}];
        if byConn[c] == map[] {
          byConn := byConn - {c};
        }
      }
    }

    method DeleteFilter(f: Filter)
      requires Valid() && f.id in all && all[f.id] == f
      modifies this
      ensures Valid() && all == old(all) - {f.id}
    {
      hide ConnsOk, TypesOk, RemoveConn;
      RemoveKeepsConns(all, byConn, f);
      RemoveKeepsTypes(all, blocks, logs, pendingTxs, f);
      DropType(f);
      DropConn(f);
      all := all - {f.id};
    }

    method UninstallFilter(id: string) returns (found: bool)
      requires Valid()
      modifies this
      ensures Valid() && found == (id in old(all)) && all == old(all) - {id}
    {
      found := id in all;
      if found {
        DeleteFilter(all[id]);
      }
    }

    method DeleteAll(filters: map<string, Filter>)
      requires Valid()
      requires forall id :: id in filters ==> id in all && all[id] == filters[id] && filters[id].id == id
      modifies this
      ensures Valid() && all == old(all) - filters.Keys
    {
      hide Keyed, ConnsOk, TypesOk, Left;
      var todo := filters.Keys;
      NoneGone(all, filters.Keys);
      while todo != {}
        invariant Valid() && todo <= filters.Keys && Left(old(all), filters.Keys, todo, all)
        decreases |todo|
      {
        var id :| id in todo;
        OneGone(old(all), filters.Keys, todo, all, id);
        todo := todo - {id};
        DeleteFilter(filters[id]);
      }
      AllGone(old(all), filters.Keys, all);
    }

    /** Every filter of the connection goes, and no other. */
    method UninstallFilterByWSConn(conn: Conn)
      requires Valid()
      modifies this
      ensures Valid() && conn !in byConn
      ensures all == old(all) - old(OfConn(all, conn)).Keys
    {
      if conn !in byConn {
        NoneOf(all, byConn, conn);
        return;
      }
      DeleteAll(byConn[conn]);
      Emptied(old(all), all, byConn, conn);
    }
  }

  lemma Created(all: map<string, Filter>, byConn: map<Conn, map<string, Filter>>, blocks: map<string, Filter>,
                logs: map<string, Filter>, pendingTxs: map<string, Filter>, f: Filter)
    requires Keyed(all) && ConnsOk(all, byConn) && TypesOk(all, blocks, logs, pendingTxs)
    ensures Keyed(all[f.id := f])
    ensures ConnsOk(all[f.id := f], AddConn(byConn, f))
            && TypesOk(all[f.id := f], AddTo(blocks, BlockFilter, f), AddTo(logs, LogFilter, f),
                       AddTo(pendingTxs, PendingTxFilter, f))
            <==> Replaceable(all, f)
  {
    hide OfType, OfConn, AddConn, AddTo, ConnsOk, Replaceable;
    if Replaceable(all, f) {
      AddKeepsConns(all, byConn, f);
      AddOfType(all, BlockFilter, f);
      AddOfType(all, LogFilter, f);
      AddOfType(all, PendingTxFilter, f);
    } else {
      Stale(all, byConn, blocks, logs, pendingTxs, f);
    }
  }

  lemma RemoveKeepsTypes(all: map<string, Filter>, blocks: map<string, Filter>, logs: map<string, Filter>,
                         pendingTxs: map<string, Filter>, f: Filter)
    requires TypesOk(all, blocks, logs, pendingTxs) && f.id in all && all[f.id] == f
    ensures TypesOk(all - {f.id},
                    if f.kind == BlockFilter then blocks - {f.id} else blocks,
                    if f.kind == LogFilter then logs - {f.id} else logs,
                    if f.kind == PendingTxFilter then pendingTxs - {f.id} else pendingTxs)
  {
    hide OfType;
    RemoveOfType(all, BlockFilter, f);
    RemoveOfType(all, LogFilter, f);
    RemoveOfType(all, PendingTxFilter, f);
  }

  /** A replaced filter stays behind in an index of its own. */
  lemma Stale(all: map<string, Filter>, byConn: map<Conn, map<string, Filter>>, blocks: map<string, Filter>,
              logs: map<string, Filter>, pendingTxs: map<string, Filter>, f: Filter)
    requires ConnsOk(all, byConn) && TypesOk(all, blocks, logs, pendingTxs) && !Replaceable(all, f)
    ensures !ConnsOk(all[f.id := f], AddConn(byConn, f))
         || !TypesOk(all[f.id := f], AddTo(blocks, BlockFilter, f), AddTo(logs, LogFilter, f),
                     AddTo(pendingTxs, PendingTxFilter, f))
  {
    var g, all' := all[f.id], all[f.id := f];
    var c := g.conn.value;
    if g.conn != f.conn {
      assert f.id in OfConn(all, c) && f.id in AddConn(byConn, f)[c] && f.id !in OfConn(all', c);
    } else {
      assert f.id in OfType(all, g.kind) && f.id !in OfType(all', g.kind);
    }
  }

  lemma NoneOf(all: map<string, Filter>, byConn: map<Conn, map<string, Filter>>, conn: Conn)
    requires ConnsOk(all, byConn) && conn !in byConn
    ensures OfConn(all, conn) == map[]
  {
  }

  lemma Emptied(before: map<string, Filter>, all: map<string, Filter>, byConn: map<Conn, map<string, Filter>>,
                conn: Conn)
    requires ConnsOk(all, byConn) && all == before - OfConn(before, conn).Keys
    ensures conn !in byConn
  {
    assert OfConn(all, conn) == map[];
  }

  /** The same id is given to a filter of another connection: the entry of the first connection
      still holds the replaced filter, which no longer exists. */
  method StaleByReuse() returns (s: Storage)
    ensures fresh(s) && !s.Valid()
    ensures 1 in s.byConn && s.byConn[1] == map["x" := Filter("x", BlockFilter, Some(1))]
    ensures s.all == map["x" := Filter("x", BlockFilter, Some(2))]
  {
    hide Keyed, ConnsOk, TypesOk;
    s := new Storage();
    var f, g := Filter("x", BlockFilter, Some(1)), Filter("x", BlockFilter, Some(2));
    var _ := s.CreateFilter(BlockFilter, Some(1), Some("x"));
    assert s.all == map["x" := f];
    assert s.byConn[1] == map["x" := f];
    var _ := s.CreateFilter(BlockFilter, Some(2), Some("x"));
    assert map["x" := f]["x" := g] == map["x" := g];
  }

  /** A filter without a connection is in no index, one with a connection in two. */
  method OnlyConnectedAreIndexed() returns (s: Storage)
    ensures fresh(s) && s.Valid()
    ensures s.all == map["x" := Filter("x", BlockFilter, None), "y" := Filter("y", LogFilter, Some(1))]
    ensures s.byConn == map[1 := map["y" := Filter("y", LogFilter, Some(1))]]
    ensures s.logs == map["y" := Filter("y", LogFilter, Some(1))] && s.blocks == map[] && s.pendingTxs == map[]
  {
    s := new Storage();
    var x, y := Filter("x", BlockFilter, None), Filter("y", LogFilter, Some(1));
    hide ConnsOk, Keyed, TypesOk;
    var _ := s.CreateFilter(BlockFilter, None, Some("x"));
    assert s.all == map["x" := x] && s.byConn == map[];
    var _ := s.CreateFilter(LogFilter, Some(1), Some("y"));
    assert s.byConn == map[1 := map["y" := y]];
    OfTwo(s.all, s.blocks, s.logs, s.pendingTxs, x, y);
  }

  lemma OfTwo(all: map<string, Filter>, blocks: map<string, Filter>, logs: map<string, Filter>,
              pendingTxs: map<string, Filter>, x: Filter, y: Filter)
    requires x == Filter("x", BlockFilter, None) && y == Filter("y", LogFilter, Some(1))
    requires all == map["x" := x]["y" := y] && TypesOk(all, blocks, logs, pendingTxs)
    ensures all == map["x" := x, "y" := y]
    ensures logs == map["y" := y] && blocks == map[] && pendingTxs == map[]
  {
  }
}
