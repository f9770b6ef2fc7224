/** The topology store: the connection to the global topology, the cache of
    connections to each cell's topology, closing them all, and the registry of
    backend implementations. The backend's Factory.Create is a foreign call; its
    outcome for each call is a parameter (`created`). */
module Store {
  import opened TopoErrors
  import opened Records
  import opened Paths
  import opened Text
  import Kv
  import opened Memorytopo
  import opened Cells

  /** A cached cell connection together with the cell record it was made from. */
  datatype CellConn = CellConn(cell: Cell, conn: Conn)

  /** strings.Join(ServerAddresses, ","): the form in which addresses are compared. */
  function JoinedAddresses(c: Cell): string {
    Join(c.serverAddresses, ",")
  }

  /** A cached connection is reused when the joined addresses and the root are unchanged. */
  predicate SameConfig(cached: Cell, current: Cell) {
    JoinedAddresses(cached) == JoinedAddresses(current) && cached.root == current.root
  }

  /** The comparison is on the joined string: one address "a,b" and the two addresses
      "a" and "b" count as the same configuration. */
  lemma JoinedComparison()
    ensures SameConfig(Cell("c", ["a,b"], "/r"), Cell("c", ["a", "b"], "/r"))
  {
    assert ["a", "b"][1..] == ["b"];
    assert Join(["a", "b"], ",") == "a" + "," + "b";
  }

  /** How a failed Factory.Create is reported: a NoNode failure as a fresh NoNode
      error, anything else wrapped. */
  function FactoryError(e: Error): (r: Error)
    ensures Is(e, NoNode) ==> r == Topo(NoNode)
    ensures !Is(e, NoNode) ==> r == Wrapped(e) && forall c :: Is(r, c) <==> Is(e, c)
  {
    if Is(e, NoNode) then Topo(NoNode) else Wrapped(e)
  }

  /** One ConnForCell on a cell other than the global one, once its record was read
      (`record`): what it returns, the cache afterwards, and the cached connection
      it closes, if any. */
  datatype Lookup = Lookup(result: Result<Conn>, cache: map<string, CellConn>, closes: Option<Conn>)

  /** The cache logic of ConnForCell as written: a connection made for another
      configuration is closed but stays cached when the factory then fails. */
  function LookupAsWritten(cache: map<string, CellConn>, cell: string, record: Result<Cell>, created: Result<Conn>): Lookup {
    if record.Err? then Lookup(Err(record.error), cache, None)
    else if cell in cache && SameConfig(cache[cell].cell, record.value) then Lookup(Ok(cache[cell].conn), cache, None)
    else
      var closes := if cell in cache then Some(cache[cell].conn) else None;
      match created
      case Ok(c) => Lookup(Ok(c), cache[cell := CellConn(record.value, c)], closes)
      case Err(e) => Lookup(Err(FactoryError(e)), cache, closes)
  }

  /** The cache logic with the closed connection evicted: a connection leaves the
      cache when it is closed, and a new one enters it only when the factory made it. */
  function LookupEvicting(cache: map<string, CellConn>, cell: string, record: Result<Cell>, created: Result<Conn>): Lookup {
    if record.Err? then Lookup(Err(record.error), cache, None)
    else if cell in cache && SameConfig(cache[cell].cell, record.value) then Lookup(Ok(cache[cell].conn), cache, None)
    else
      var closes := if cell in cache then Some(cache[cell].conn) else None;
      match created
      case Ok(c) => Lookup(Ok(c), cache[cell := CellConn(record.value, c)], closes)
      case Err(e) => Lookup(Err(FactoryError(e)), cache - {cell}, closes)
  }

  /** The rules of the cache: an unreadable cell record is returned as is; the cached
      connection is returned, with nothing closed or created, exactly when the
      configuration is unchanged; otherwise the old connection is closed, and the new
      one is cached only if the factory made it, a failure leaving no entry for the cell. */
  lemma LookupRules(cache: map<string, CellConn>, cell: string, record: Result<Cell>, created: Result<Conn>)
    ensures var l := LookupEvicting(cache, cell, record, created);
      && (record.Err? ==> l == Lookup(Err(record.error), cache, None))
      && (record.Ok? && cell in cache && SameConfig(cache[cell].cell, record.value) ==>
            l == Lookup(Ok(cache[cell].conn), cache, None))
      && (record.Ok? && cell in cache ==> (l.closes.None? <==> SameConfig(cache[cell].cell, record.value)))
      && (record.Ok? && !(cell in cache && SameConfig(cache[cell].cell, record.value)) ==>
            (cell in cache ==> l.closes == Some(cache[cell].conn))
            && (cell !in cache ==> l.closes.None?)
            && (created.Ok? ==> l.result == created && cell in l.cache && l.cache[cell] == CellConn(record.value, created.value))
            && (created.Err? ==> l.result == Err(FactoryError(created.error)) && cell !in l.cache))
      && (forall k :: k != cell ==> (k in l.cache <==> k in cache) && (k in cache ==> l.cache[k] == cache[k]))
  {
  }

  /** A second lookup with an unchanged cell record returns the connection the first
      one made, without calling the factory again. */
  lemma LookupCaches(cache: map<string, CellConn>, cell: string, ci: Cell, created: Result<Conn>, created2: Result<Conn>)
    requires LookupEvicting(cache, cell, Ok(ci), created).result.Ok?
    ensures var first := LookupEvicting(cache, cell, Ok(ci), created);
      LookupEvicting(first.cache, cell, Ok(ci), created2) == Lookup(first.result, first.cache, None)
  {
  }

  /** No connection is cached twice. */
  ghost predicate DistinctConns(cache: map<string, CellConn>) {
    forall a, b :: a in cache && b in cache && a != b ==> cache[a].conn != cache[b].conn
  }

  /** None of the cached connections has been closed. */
  ghost predicate NoneClosed(cache: map<string, CellConn>, closed: set<Conn>) {
    forall k :: k in cache ==> cache[k].conn !in closed
  }

  /** With eviction, a closed connection is never handed out again: when the factory
      makes connections that are new (neither closed nor cached), the cache never
      holds a closed connection and a lookup never returns one. */
  lemma ClosedNeverReturned(cache: map<string, CellConn>, cell: string, record: Result<Cell>, created: Result<Conn>, closed: set<Conn>)
    requires DistinctConns(cache) && NoneClosed(cache, closed)
    requires created.Ok? ==> created.value !in closed && forall k :: k in cache ==> cache[k].conn != created.value
    ensures var l := LookupEvicting(cache, cell, record, created);
      var closedAfter := closed + (if l.closes.Some? then {l.closes.value} else {});
      DistinctConns(l.cache) && NoneClosed(l.cache, closedAfter)
      && (l.result.Ok? ==> l.result.value !in closedAfter)
  {
    var l := LookupEvicting(cache, cell, record, created);
    var closedAfter := closed + (if l.closes.Some? then {l.closes.value} else {});
    if l.closes.Some? {
      forall k | k in l.cache ensures l.cache[k].conn != l.closes.value {
        if k != cell {
          assert l.cache[k] == cache[k];
        }
      }
    }
  }

  /** As written, the connection closed on a configuration change stays cached when
      the factory fails, and if the cell's configuration then changes back, the next
      lookup returns that closed connection. */
  lemma StaleClosedConnReturned(c: Conn)
    ensures var before := Cell("zone1", ["host1"], "/a");
      var after := Cell("zone1", ["host2"], "/a");
      var first := LookupAsWritten(map["zone1" := CellConn(before, c)], "zone1", Ok(after), Err(Opaque(0)));
      var second := LookupAsWritten(first.cache, "zone1", Ok(before), Err(Opaque(0)));
      first.closes == Some(c) && second.result == Ok(c)
  {
    assert Join(["host1"], ",") == "host1";
    assert Join(["host2"], ",") == "host2";
  }

  /** An error Close reports: the global connection's close failure, or that of one of `cells`. */
  ghost predicate ClosingFailure(e: Error, hadGlobal: bool, globalCloseErr: Option<Error>, cells: set<string>, closeErr: map<string, Error>) {
    (hadGlobal && globalCloseErr.Some? && e == Wrapped(globalCloseErr.value))
    || exists k :: k in cells && k in closeErr && e == Wrapped(closeErr[k])
  }

  /** The global connection, and the cell connections cached by cell name. */
  class TopoStore {
    var global: Option<Conn>
    var cellConns: map<string, CellConn>

    /** What NewWithFactory builds around the global connection. */
    constructor (globalConn: Conn)
      ensures global == Some(globalConn) && cellConns == map[]
    {
      global := Some(globalConn);
      cellConns := map[];
    }

    /** ConnForCell: a cancelled context first; the global cell's own connection;
        otherwise the cell record is read from the global topology and the cache
        consulted (see LookupEvicting). A connection the call replaces is closed. */
    method ConnForCell(cell: string, ctxErr: Option<Error>, globalFault: Option<Error>, created: Result<Conn>)
      returns (r: Result<Conn>)
      requires global.Some?
      modifies this, (if cell in cellConns then {cellConns[cell].conn} else {})
      ensures global == old(global)
      ensures ctxErr.Some? ==> r == Err(ctxErr.value) && cellConns == old(cellConns)
      ensures ctxErr.None? && cell == GlobalCell ==> r == Ok(global.value) && cellConns == old(cellConns)
      ensures cell in old(cellConns) && (ctxErr.Some? || cell == GlobalCell) ==> unchanged(old(cellConns)[cell].conn)
      ensures ctxErr.None? && cell != GlobalCell ==>
        var l := LookupEvicting(old(cellConns), cell, GetCell(old(global.value.data), cell, None, globalFault), created);
        r == l.result && cellConns == l.cache && (l.closes.Some? ==> l.closes.value.closed)
        && (l.closes.None? && cell in old(cellConns) ==> unchanged(old(cellConns)[cell].conn))
    {
      if ctxErr.Some? {
        return Err(ctxErr.value);
      }
      if cell == GlobalCell {
        return Ok(global.value);
      }
      var record := GetCell(global.value.data, cell, None, globalFault);
      if record.Err? {
        return Err(record.error);
      }
      var ci := record.value;
      if cell in cellConns {
        var cc := cellConns[cell];
        if SameConfig(cc.cell, ci) {
          return Ok(cc.conn);
        }
        cc.conn.Close();
        cellConns := cellConns - {cell};
      }
      match created {
        case Ok(c) =>
          cellConns := cellConns[cell := CellConn(ci, c)];
          return Ok(c);
        case Err(e) =>
          return Err(FactoryError(e));
      }
    }

    /** Close: closes the global connection and every cached one, empties the cache and
        drops the global connection. The error, when some close failed, lists the
        failures (`closeErr` says which cells' connections fail to close). */
    method Close(globalCloseErr: Option<Error>, closeErr: map<string, Error>) returns (r: Option<Error>)
      modifies this, (if global.Some? then {global.value} else {}), set k | k in cellConns :: cellConns[k].conn
      ensures global == None && cellConns == map[]
      ensures old(global).Some? ==> old(global).value.closed
      ensures forall k :: k in old(cellConns) ==> old(cellConns)[k].conn.closed
      ensures r.Some? <==> (old(global).Some? && globalCloseErr.Some?) || exists k :: k in old(cellConns) && k in closeErr
      ensures r.Some? ==>
        (r.value.Formatted?
         && (old(global).Some? && globalCloseErr.Some? ==> Wrapped(globalCloseErr.value) in r.value.causes)
         && (forall k :: k in old(cellConns) && k in closeErr ==> Wrapped(closeErr[k]) in r.value.causes)
         && (forall e :: e in r.value.causes ==> ClosingFailure(e, old(global).Some?, globalCloseErr, old(cellConns).Keys, closeErr)))
    {
      var errs: seq<Error> := [];
      if global.Some? {
        global.value.Close();
        if globalCloseErr.Some? {
          errs := errs + [Wrapped(globalCloseErr.value)];
        }
        global := None;
      }
      var cellErrs := CloseCellConns(cellConns, closeErr);
      errs := errs + cellErrs;
      cellConns := map[];
      if |errs| > 0 {
        return Some(Formatted(errs));
      }
      return None;
    }
  }

  /** The loop of Close over the cached connections: each is closed, and each failure
      is reported wrapped, in whatever order the map yields the cells. */
  method CloseCellConns(conns: map<string, CellConn>, closeErr: map<string, Error>) returns (errs: seq<Error>)
    modifies set k | k in conns :: conns[k].conn
    ensures forall k :: k in conns ==> conns[k].conn.closed
    ensures forall k :: k in conns && k in closeErr ==> Wrapped(closeErr[k]) in errs
    ensures forall e :: e in errs ==> ClosingFailure(e, false, None, conns.Keys, closeErr)
    ensures |errs| > 0 <==> exists k :: k in conns && k in closeErr
  {
    errs := [];
    var remaining := conns.Keys;
    while remaining != {}
      invariant remaining <= conns.Keys
      invariant forall k :: k in conns && k !in remaining ==> conns[k].conn.closed
      invariant forall k :: k in conns && k !in remaining && k in closeErr ==> Wrapped(closeErr[k]) in errs
      invariant forall e :: e in errs ==> ClosingFailure(e, false, None, conns.Keys - remaining, closeErr)
      invariant |errs| > 0 <==> exists k :: k in conns && k !in remaining && k in closeErr
      decreases |remaining|
    {
      var k :| k in remaining;
      conns[k].conn.Close();
      if k in closeErr {
        errs := errs + [Wrapped(closeErr[k])];
      }
      remaining := remaining - {k};
    }
  }

  /** NewWithFactory: the global connection is the factory's connection for the
      global cell; its failure is returned as is. */
  method NewWithFactory(created: Result<Conn>) returns (r: Result<TopoStore>)
    ensures created.Err? ==> r == Err(created.error)
    ensures created.Ok? ==> r.Ok? && fresh(r.value) && r.value.global == Some(created.value) && r.value.cellConns == map[]
  {
    if created.Err? {
      return Err(created.error);
    }
    var ts := new TopoStore(created.value);
    return Ok(ts);
  }

  /** The registered backend implementations, by name. */
  class Registry {
    var factories: set<string>

    constructor ()
      ensures factories == {}
    {
      factories := {};
    }

    /** RegisterFactory: a name may be registered once; a second registration is fatal. */
    method RegisterFactory(name: string)
      requires name !in factories
      modifies this
      ensures factories == old(factories) + {name}
    {
      factories := factories + {name};
    }

    /** OpenServer: NoImplementation for a name nobody registered; otherwise the store
        built on that implementation's connection to the global topology. */
    method OpenServer(implementation: string, created: Result<Conn>) returns (r: Result<TopoStore>)
      ensures implementation !in factories ==> r == Err(Topo(NoImplementation))
      ensures implementation in factories && created.Err? ==> r == Err(created.error)
      ensures implementation in factories && created.Ok? ==>
        r.Ok? && fresh(r.value) && r.value.global == Some(created.value) && r.value.cellConns == map[]
    {
      if implementation !in factories {
        return Err(Topo(NoImplementation));
      }
      r := NewWithFactory(created);
    }
  }
}
