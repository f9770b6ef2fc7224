/** Multipooler records, kept in each cell's topology under
    `poolers/<cell>-<uid>/Pooler`: the pooler-type rules, the identifier string,
    the reads and writes of one record, and the listings of a cell. Every
    operation here first obtains the cell's connection (ConnForCell, modelled
    in the Store module); its failure arrives as `connErr`. */
module MultiPoolers {
  import opened TopoErrors
  import opened Records
  import opened Paths
  import opened Text
  import opened Sorting
  import Kv
  import opened Memorytopo
  import opened Retry

  // ----- Pooler types -----

  /** Only a change from REPLICA to REPLICA leaves the replication graph alone. */
  predicate IsTrivialPoolerTypeChange(oldType: PoolerType, newType: PoolerType) {
    match oldType
    case Replica => newType == Replica
    case _ => false
  }

  predicate IsInServingGraph(t: PoolerType) {
    t == Primary || t == Replica
  }

  predicate IsRunningQueryService(t: PoolerType) {
    match t
    case Primary => true
    case Replica => true
    case _ => false
  }

  /** Every type but PRIMARY replicates from a primary. */
  predicate IsReplicaPoolerType(t: PoolerType) {
    !t.Primary?
  }

  /** The type rules: a trivial change is REPLICA to REPLICA, serving and running
      the query service coincide, and only PRIMARY is not a replica type. */
  lemma PoolerTypeRules(t: PoolerType, u: PoolerType)
    ensures IsTrivialPoolerTypeChange(t, u) <==> t == Replica && u == Replica
    ensures IsInServingGraph(t) <==> IsRunningQueryService(t)
    ensures IsReplicaPoolerType(t) <==> t != Primary
    ensures IsInServingGraph(t) && IsReplicaPoolerType(t) <==> t == Replica
  {
  }

  // ----- Identifiers and paths -----

  /** The pooler type a new record starts with (the enum's zero value). */
  const UnsetPoolerType := OtherType(0)

  /** NewMultiPooler: a record naming only the pooler's identity and host, with an empty port map. */
  function NewMultiPooler(uid: Uint32, cell: string, host: string): (p: MultiPooler)
    ensures p.id == ID(MultipoolerComponent, cell, uid, "")
    ensures p.hostname == host && p.portMap == map[]
    ensures p.database == "" && p.shard == "" && p.poolerType == UnsetPoolerType
  {
    MultiPooler(ID(MultipoolerComponent, cell, uid, ""), "", "", host, map[], UnsetPoolerType, 0)
  }

  /** MultiPoolerIDString: the cell, a dash, and the uid in decimal. */
  function MultiPoolerIDString(id: ID): string {
    id.cell + "-" + Decimal(id.uid as nat)
  }

  /** Index of the last '-' in s, or -1. */
  function LastDash(s: string): (k: int)
    ensures -1 <= k < |s|
    ensures k >= 0 ==> s[k] == '-'
    ensures forall j :: k < j < |s| ==> s[j] != '-'
    decreases |s|
  {
    if s == [] then -1
    else if s[|s| - 1] == '-' then |s| - 1
    else LastDash(s[..|s| - 1])
  }

  /** The identifier string splits back into cell and uid at its last dash. */
  lemma IDStringSplits(id: ID)
    ensures var s := MultiPoolerIDString(id);
      LastDash(s) == |id.cell|
      && s[..|id.cell|] == id.cell
      && ParseDecimal(s[|id.cell| + 1..]) == id.uid as nat
  {
    var s := MultiPoolerIDString(id);
    var digits := Decimal(id.uid as nat);
    assert s[|id.cell|] == '-';
    forall j | |id.cell| < j < |s| ensures s[j] != '-' {
      assert s[j] == digits[j - |id.cell| - 1];
    }
    assert s[|id.cell| + 1..] == digits;
    DecimalRoundTrip(id.uid as nat);
  }

  /** Two poolers share an identifier string exactly when they share cell and uid. */
  lemma {:induction false} IDStringInjective(a: ID, b: ID)
    ensures MultiPoolerIDString(a) == MultiPoolerIDString(b) <==> a.cell == b.cell && a.uid == b.uid
  {
    if MultiPoolerIDString(a) == MultiPoolerIDString(b) {
      IDStringSplits(a);
      IDStringSplits(b);
    }
  }

  lemma IDStringExamples()
    ensures MultiPoolerIDString(ID(MultipoolerComponent, "zone1", 100, "")) == "zone1-100"
    ensures MultiPoolerIDString(ID(MultipoolerComponent, "prod", 0, "")) == "prod-0"
  {
    assert Decimal(1) == "1";
    assert Decimal(10) == "10";
    assert Decimal(100) == "100";
  }

  /** MultiPoolerInfo.String: the identifier string inside "MultiPooler{...}". */
  function InfoString(id: ID): (s: string)
    ensures |s| == |MultiPoolerIDString(id)| + 13
    ensures s[..12] == "MultiPooler{" && s[|s| - 1] == '}'
    ensures s[12..|s| - 1] == MultiPoolerIDString(id)
  {
    "MultiPooler{" + MultiPoolerIDString(id) + "}"
  }

  function Addr(p: MultiPooler): string {
    AddrOf(p.hostname, p.portMap)
  }

  /** path.Join(PoolersPath, MultiPoolerIDString(id), PoolerFile). */
  function PoolerPath(id: ID): Path {
    Under(PoolersPath, MultiPoolerIDString(id), PoolerFile)
  }

  /** An identifier string is one path segment when the cell name is. */
  lemma IDStringIsSegment(id: ID)
    requires IsSegment(id.cell)
    ensures IsSegment(MultiPoolerIDString(id))
  {
    var digits := Decimal(id.uid as nat);
    var s := MultiPoolerIDString(id);
    forall j | 0 <= j < |s| ensures s[j] != '/' {
      if j > |id.cell| {
        assert s[j] == digits[j - |id.cell| - 1];
      } else if j < |id.cell| {
        assert s[j] == id.cell[j];
      }
    }
  }

  /** A pooler's record lies at poolers/<cell>-<uid>/Pooler, and poolers with
      different cells or uids are stored in different files. */
  lemma PoolerPathsDistinct(a: ID, b: ID)
    requires IsSegment(a.cell) && IsSegment(b.cell)
    requires a.cell != b.cell || a.uid != b.uid
    ensures PoolerPath(a) != PoolerPath(b)
    ensures PoolerPath(a) == [PoolersPath, MultiPoolerIDString(a), PoolerFile]
  {
    IDStringInjective(a, b);
    IDStringIsSegment(a);
    IDStringIsSegment(b);
    UnderSegment(PoolersPath, MultiPoolerIDString(a), PoolerFile);
    UnderSegment(PoolersPath, MultiPoolerIDString(b), PoolerFile);
    assert PoolerPath(a)[1] != PoolerPath(b)[1];
  }

  // ----- One record -----

  /** What a read of one record returns: the record and the version it was read at. */
  datatype MultiPoolerInfo = MultiPoolerInfo(pooler: MultiPooler, version: nat)

  const PoolerKind: Kind<MultiPooler> :=
    Kind((p: MultiPooler) => PoolerValue(p), DecodePooler, NewMultiPooler(0, "", ""), (p: MultiPooler) => PoolerPath(p.id),
         (p: MultiPooler) => p.id.cell)

  /** GetMultiPooler: every failure comes back wrapped, so errors.Is still sees its code. */
  function GetMultiPooler(d: Kv.Data, id: ID, connErr: Option<Error>, fault: Option<Error>): (r: Result<MultiPoolerInfo>)
    ensures connErr.Some? ==> r == Err(Wrapped(connErr.value))
    ensures connErr.None? && fault.None? ==>
      (r.Ok? <==> PoolerPath(id) in d.files && d.files[PoolerPath(id)].value.PoolerValue?)
    ensures r.Ok? ==> PoolerPath(id) in d.files && d.files[PoolerPath(id)] == Kv.Entry(PoolerValue(r.value.pooler), r.value.version)
    ensures connErr.None? && fault.None? && PoolerPath(id) !in d.files ==> r == Err(Wrapped(Topo(NoNode)))
    ensures r.Err? ==> r.error.Wrapped?
  {
    if connErr.Some? then Err(Wrapped(connErr.value))
    else match Kv.Get(d, PoolerPath(id), fault)
      case Err(e) => Err(Wrapped(e))
      case Ok(entry) =>
        match DecodePooler(entry.value)
        case Err(e) => Err(Wrapped(e))
        case Ok(p) => Ok(MultiPoolerInfo(p, entry.version))
  }

  /** CreateMultiPooler: NodeExists when the pooler already exists. */
  method CreateMultiPooler(conn: Conn, p: MultiPooler, connErr: Option<Error>, fault: Option<Error>) returns (r: Option<Error>)
    modifies conn
    ensures connErr.Some? ==> r == connErr && conn.data == old(conn.data)
    ensures connErr.None? ==>
      var w := Kv.Create(old(conn.data), PoolerPath(p.id), PoolerValue(p), fault);
      r == ErrorOf(w.result) && conn.data == w.data
    ensures conn.OnlyFilesChanged()
  {
    if connErr.Some? {
      return connErr;
    }
    var created := conn.Create(PoolerPath(p.id), PoolerValue(p), fault);
    return ErrorOf(created);
  }

  /** DeleteMultiPooler: removes the record whatever its version. */
  method DeleteMultiPooler(conn: Conn, id: ID, connErr: Option<Error>, fault: Option<Error>) returns (r: Option<Error>)
    modifies conn
    ensures connErr.Some? ==> r == connErr && conn.data == old(conn.data)
    ensures connErr.None? ==>
      var w := Kv.Delete(old(conn.data), PoolerPath(id), None, fault);
      r == ErrorOf(w.result) && conn.data == w.data
    ensures conn.OnlyFilesChanged()
  {
    if connErr.Some? {
      return connErr;
    }
    var deleted := conn.Delete(PoolerPath(id), None, fault);
    return ErrorOf(deleted);
  }

  /** UpdateMultiPooler: writes the record on condition of the version it was read at;
      on success the info carries the new version. */
  method UpdateMultiPooler(conn: Conn, info: MultiPoolerInfo, connErr: Option<Error>, fault: Option<Error>)
    returns (r: Option<Error>, updated: MultiPoolerInfo)
    modifies conn
    ensures connErr.Some? ==> r == connErr && updated == info && conn.data == old(conn.data)
    ensures connErr.None? ==>
      var w := Kv.Update(old(conn.data), PoolerPath(info.pooler.id), PoolerValue(info.pooler), Some(info.version), fault);
      r == ErrorOf(w.result) && conn.data == w.data
      && updated == (if w.result.Ok? then info.(version := w.result.value) else info)
    ensures conn.OnlyFilesChanged()
  {
    updated := info;
    if connErr.Some? {
      return connErr, updated;
    }
    var written := conn.Update(PoolerPath(info.pooler.id), PoolerValue(info.pooler), Some(info.version), fault);
    if written.Err? {
      return Some(written.error), updated;
    }
    updated := info.(version := written.value);
    return None, updated;
  }

  /** A record written back at the version it was read at is stored, and its new version
      is fresh: writing again at the old version is refused with BadVersion. */
  lemma UpdateAtReadVersion(d: Kv.Data, id: ID, p: MultiPooler)
    requires Kv.Valid(d)
    requires GetMultiPooler(d, id, None, None).Ok? && p.id == id
    ensures var info := GetMultiPooler(d, id, None, None).value;
      var w := Kv.Update(d, PoolerPath(id), PoolerValue(p), Some(info.version), None);
      w.result.Ok? && GetMultiPooler(w.data, id, None, None) == Ok(MultiPoolerInfo(p, w.result.value))
      && Kv.Update(w.data, PoolerPath(id), PoolerValue(p), Some(info.version), None).result == Err(Topo(BadVersion))
  {
  }

  /** UpdateMultiPoolerFields: the retry loop on the pooler's record, read from the
      pooler's cell and written through the connection of the updated record's cell. */
  method UpdateMultiPoolerFields(conn: Conn, id: ID, update: MultiPooler -> Result<MultiPooler>, env: seq<Attempt>)
    returns (r: Outcome<MultiPooler>)
    modifies conn
    ensures var ran := Run(PoolerKind, CellRecord(id.cell), PoolerPath(id), update, old(conn.data), env);
      r == ran.outcome && conn.data == ran.data
    ensures conn.OnlyFilesChanged()
  {
    r := UpdateFields(conn, PoolerKind, CellRecord(id.cell), PoolerPath(id), update, env);
  }

  /** InitMultiPooler: create the record; when it exists and updating is allowed,
      overwrite it at the version read, but never move a pooler to another
      database or shard. Read and write failures of the update come back formatted.
      The faults are what the backend's Create, Get and Update return instead of
      acting; a connection failure recurs for the read. */
  method InitMultiPooler(conn: Conn, p: MultiPooler, allowPrimaryOverride: bool, allowUpdate: bool, connErr: Option<Error>,
                         createFault: Option<Error>, getFault: Option<Error>, updateFault: Option<Error>)
    returns (r: Option<Error>)
    modifies conn
    ensures connErr.Some? ==>
      (conn.data == old(conn.data)
       && r == (if Is(connErr.value, NodeExists) && allowUpdate then Some(Formatted([Wrapped(connErr.value)])) else connErr))
    ensures connErr.None? ==>
      var created := Kv.Create(old(conn.data), PoolerPath(p.id), PoolerValue(p), createFault);
      if created.result.Ok? || !Is(created.result.error, NodeExists) || !allowUpdate then
        r == ErrorOf(created.result) && conn.data == created.data
      else match GetMultiPooler(old(conn.data), p.id, None, getFault)
        case Err(e) => r == Some(Formatted([e])) && conn.data == old(conn.data)
        case Ok(existing) =>
          if existing.pooler.database != p.database || existing.pooler.shard != p.shard then
            r == Some(ShardChangeRefused) && conn.data == old(conn.data)
          else
            var written := Kv.Update(old(conn.data), PoolerPath(p.id), PoolerValue(p), Some(existing.version), updateFault);
            conn.data == written.data && r == (if written.result.Ok? then None else Some(Formatted([written.result.error])))
    ensures conn.OnlyFilesChanged()
  {
    r := CreateMultiPooler(conn, p, connErr, createFault);
    if r.Some? && Is(r.value, NodeExists) && allowUpdate {
      var existing := GetMultiPooler(conn.data, p.id, connErr, getFault);
      if existing.Err? {
        return Some(Formatted([existing.error]));
      }
      if existing.value.pooler.database != p.database || existing.value.pooler.shard != p.shard {
        return Some(ShardChangeRefused);
      }
      var written, _ := UpdateMultiPooler(conn, existing.value.(pooler := p), connErr, updateFault);
      if written.Some? {
        return Some(Formatted([written.value]));
      }
      return None;
    }
  }

  /** InitMultiPooler on a healthy store: a new pooler is created; an existing one is
      refused with NodeExists unless updating is allowed; with updating allowed, a
      pooler of another database or shard is refused and left as it was, and
      otherwise the stored record becomes exactly the new one. */
  lemma InitOutcomes(d: Kv.Data, p: MultiPooler, allowUpdate: bool)
    requires Kv.Valid(d)
    ensures PoolerPath(p.id) !in d.files ==>
      var d1 := Kv.Create(d, PoolerPath(p.id), PoolerValue(p), None).data;
      GetMultiPooler(d1, p.id, None, None).Ok? && GetMultiPooler(d1, p.id, None, None).value.pooler == p
    ensures PoolerPath(p.id) in d.files ==> Kv.Create(d, PoolerPath(p.id), PoolerValue(p), None).result == Err(Topo(NodeExists))
    ensures GetMultiPooler(d, p.id, None, None).Ok? ==>
      var existing := GetMultiPooler(d, p.id, None, None).value;
      var d1 := Kv.Update(d, PoolerPath(p.id), PoolerValue(p), Some(existing.version), None).data;
      GetMultiPooler(d1, p.id, None, None).Ok? && GetMultiPooler(d1, p.id, None, None).value.pooler == p
  {
  }

  // ----- Listings of a cell -----

  /** GetMultiPoolersByCellOptions.DatabaseShard; None when either pointer is nil. */
  datatype DatabaseShard = DatabaseShard(database: string, shard: string)

  /** A listing together with the error returned beside it. */
  datatype Listing = Listing(infos: seq<MultiPoolerInfo>, err: Option<Error>)

  /** The filter of the List path: it applies only when a database is named, and then
      an empty shard matches every shard. */
  predicate ListMatches(opt: Option<DatabaseShard>, p: MultiPooler) {
    opt.Some? && opt.value.database != "" ==>
      opt.value.database == p.database && (opt.value.shard == "" || opt.value.shard == p.shard)
  }

  /** The filter of GetMultiPoolerMap: each non-empty field must match on its own. */
  predicate MapMatches(opt: Option<DatabaseShard>, p: MultiPooler) {
    opt.Some? ==>
      (opt.value.database == "" || opt.value.database == p.database)
      && (opt.value.shard == "" || opt.value.shard == p.shard)
  }

  /** The two filters agree whenever a database is named, and differ when only a shard is. */
  lemma FiltersAgreeOnDatabase(opt: Option<DatabaseShard>, p: MultiPooler)
    ensures opt.None? || opt.value.database != "" ==> (ListMatches(opt, p) <==> MapMatches(opt, p))
    ensures opt.Some? && opt.value.database == "" ==> ListMatches(opt, p)
    ensures opt.Some? && opt.value.database == "" ==> (MapMatches(opt, p) <==> opt.value.shard == "" || opt.value.shard == p.shard)
  {
  }

  predicate AllDecode(entries: seq<Kv.ListEntry>) {
    forall i :: 0 <= i < |entries| ==> entries[i].value.PoolerValue?
  }

  /** The records of the List path that pass the filter, in list order. */
  function ListSelect(entries: seq<Kv.ListEntry>, opt: Option<DatabaseShard>): seq<MultiPoolerInfo>
    requires AllDecode(entries)
  {
    if entries == [] then []
    else
      var info := MultiPoolerInfo(entries[0].value.pooler, entries[0].version);
      (if ListMatches(opt, info.pooler) then [info] else []) + ListSelect(entries[1..], opt)
  }

  /** a is b with some elements left out, order kept. */
  predicate SubsequenceOf<T(==)>(a: seq<T>, b: seq<T>)
    decreases |b|
  {
    if a == [] then true
    else if b == [] then false
    else (a[0] == b[0] && SubsequenceOf(a[1..], b[1..])) || SubsequenceOf(a, b[1..])
  }

  function InfosOf(entries: seq<Kv.ListEntry>): (r: seq<MultiPoolerInfo>)
    requires AllDecode(entries)
    ensures |r| == |entries|
    ensures forall i :: 0 <= i < |entries| ==> r[i] == MultiPoolerInfo(entries[i].value.pooler, entries[i].version)
  {
    if entries == [] then [] else [MultiPoolerInfo(entries[0].value.pooler, entries[0].version)] + InfosOf(entries[1..])
  }

  /** The List path keeps, in order, exactly the listed records that pass the filter,
      each with its own version. */
  lemma {:induction false} ListSelectIsFilter(entries: seq<Kv.ListEntry>, opt: Option<DatabaseShard>)
    requires AllDecode(entries)
    ensures SubsequenceOf(ListSelect(entries, opt), InfosOf(entries))
    ensures forall x :: x in ListSelect(entries, opt) <==> x in InfosOf(entries) && ListMatches(opt, x.pooler)
    decreases |entries|
  {
    if entries != [] {
      ListSelectIsFilter(entries[1..], opt);
      var info := MultiPoolerInfo(entries[0].value.pooler, entries[0].version);
      var rest := ListSelect(entries[1..], opt);
      assert InfosOf(entries) == [info] + InfosOf(entries[1..]);
      assert InfosOf(entries)[1..] == InfosOf(entries[1..]);
      if ListMatches(opt, info.pooler) {
        assert ListSelect(entries, opt) == [info] + rest;
        assert ([info] + rest)[1..] == rest;
      } else {
        assert ListSelect(entries, opt) == rest;
        SubsequenceSkip(rest, info, InfosOf(entries[1..]));
      }
    }
  }

  lemma SubsequenceSkip<T>(a: seq<T>, x: T, b: seq<T>)
    requires SubsequenceOf(a, b)
    ensures SubsequenceOf(a, [x] + b)
  {
    assert ([x] + b)[1..] == b;
  }

  /** GetMultiPoolersByCell. When List is not available (NoImplementation) or refuses
      (ResourceExhausted), the result is that of reading the poolers one by one,
      given as `individually`. A missing directory gives an empty result. */
  method GetMultiPoolersByCell(connErr: Option<Error>, listed: Result<seq<Kv.ListEntry>>, opt: Option<DatabaseShard>, individually: Listing)
    returns (r: Listing)
    ensures connErr.Some? ==> r == Listing([], connErr)
    ensures connErr.None? && (listed.Err? || listed.value == []) ==>
      var err := ErrorOf(listed);
      r == (if err.Some? && (Is(err.value, NoImplementation) || Is(err.value, ResourceExhausted)) then individually
            else if err.Some? && Is(err.value, NoNode) then Listing([], None)
            else Listing([], err))
    ensures connErr.None? && listed.Ok? && listed.value != [] && !AllDecode(listed.value) ==> r == Listing([], Some(DecodeFailed))
    ensures connErr.None? && listed.Ok? && listed.value != [] && AllDecode(listed.value) ==>
      r == Listing(ListSelect(listed.value, opt), None)
  {
    if connErr.Some? {
      return Listing([], connErr);
    }
    if listed.Err? || listed.value == [] {
      var err := ErrorOf(listed);
      if err.Some? && (Is(err.value, NoImplementation) || Is(err.value, ResourceExhausted)) {
        return individually;
      }
      if err.Some? && Is(err.value, NoNode) {
        return Listing([], None);
      }
      return Listing([], err);
    }
    var entries := listed.value;
    var poolers: seq<MultiPoolerInfo> := [];
    var n := 0;
    while n < |entries|
      invariant 0 <= n <= |entries|
      invariant AllDecode(entries[..n])
      invariant poolers == ListSelect(entries[..n], opt)
    {
      var decoded := DecodePooler(entries[n].value);
      if decoded.Err? {
        return Listing([], Some(decoded.error));
      }
      var p := decoded.value;
      SelectAppend(entries[..n], entries[n], opt);
      assert entries[..n + 1] == entries[..n] + [entries[n]];
      if ListMatches(opt, p) {
        poolers := poolers + [MultiPoolerInfo(p, entries[n].version)];
      }
    n := n + 1;
    }
    assert entries[..n] == entries;
    return Listing(poolers, None);
  }

  lemma {:induction false} SelectAppend(entries: seq<Kv.ListEntry>, e: Kv.ListEntry, opt: Option<DatabaseShard>)
    requires AllDecode(entries) && e.value.PoolerValue?
    ensures AllDecode(entries + [e])
    ensures ListSelect(entries + [e], opt) ==
      ListSelect(entries, opt) + (if ListMatches(opt, e.value.pooler) then [MultiPoolerInfo(e.value.pooler, e.version)] else [])
    decreases |entries|
  {
    if entries == [] {
      assert entries + [e] == [e];
    } else {
      assert (entries + [e])[1..] == entries[1..] + [e];
      SelectAppend(entries[1..], e, opt);
    }
  }

  /** What GetMultiPoolerMap promises of its map and error for the ids it read: each
      entry is a record read for an id under that id's string and passes the filter;
      every record read that passes the filter has an entry; and the error is
      PartialResult exactly when some read failed other than with NoNode. */
  ghost predicate ReadInto(ids: seq<ID>, read: ID -> Result<MultiPoolerInfo>, opt: Option<DatabaseShard>,
                           m: map<string, MultiPoolerInfo>, err: Option<Error>)
  {
    && (forall k :: k in m ==>
          exists id :: id in ids && k == MultiPoolerIDString(id) && read(id) == Ok(m[k]) && MapMatches(opt, m[k].pooler))
    && (forall id :: id in ids && read(id).Ok? && MapMatches(opt, read(id).value.pooler) ==> MultiPoolerIDString(id) in m)
    && (err.Some? <==> exists id :: id in ids && read(id).Err? && !Is(read(id).error, NoNode))
    && (err.Some? ==> err == Some(Topo(PartialResult)))
  }

  /** GetMultiPoolerMap, read sequentially: `read` is what GetMultiPooler returns for
      each id. Failed reads are left out of the map, and any failure other than a
      missing record makes the result partial. */
  method GetMultiPoolerMap(ids: seq<ID>, read: ID -> Result<MultiPoolerInfo>, opt: Option<DatabaseShard>)
    returns (m: map<string, MultiPoolerInfo>, err: Option<Error>)
    ensures ReadInto(ids, read, opt, m, err)
  {
    m := map[];
    err := None;
    var i := 0;
    while i < |ids|
      invariant 0 <= i <= |ids|
      invariant ReadInto(ids[..i], read, opt, m, err)
    {
      var got := read(ids[i]);
      ghost var m0 := m;
      assert forall id :: id in ids[..i + 1] <==> id in ids[..i] || id == ids[i] by {
        assert ids[..i + 1] == ids[..i] + [ids[i]];
      }
      if got.Err? {
        if err.None? && !Is(got.error, NoNode) {
          err := Some(Topo(PartialResult));
        }
      } else if MapMatches(opt, got.value.pooler) {
        m := m[MultiPoolerIDString(ids[i]) := got.value];
      }
      i := i + 1;
    }
    assert ids[..i] == ids;
  }

  /** The infos of the map for ids in order, skipping ids the map does not hold. */
  function Present(ids: seq<ID>, m: map<string, MultiPoolerInfo>): seq<MultiPoolerInfo> {
    if ids == [] then []
    else (if MultiPoolerIDString(ids[0]) in m then [m[MultiPoolerIDString(ids[0])]] else []) + Present(ids[1..], m)
  }

  /** The identifier strings of the ids the map holds, in order. */
  function PresentKeys(ids: seq<ID>, m: map<string, MultiPoolerInfo>): (r: seq<string>)
    ensures forall k :: k in r ==> k in m
  {
    if ids == [] then []
    else (if MultiPoolerIDString(ids[0]) in m then [MultiPoolerIDString(ids[0])] else []) + PresentKeys(ids[1..], m)
  }

  /** Present lists, one for one, the map's entries for PresentKeys. */
  lemma {:induction false} PresentMatchesKeys(ids: seq<ID>, m: map<string, MultiPoolerInfo>)
    ensures |Present(ids, m)| == |PresentKeys(ids, m)|
    ensures forall i :: 0 <= i < |Present(ids, m)| ==> Present(ids, m)[i] == m[PresentKeys(ids, m)[i]]
    decreases |ids|
  {
    if ids != [] {
      PresentMatchesKeys(ids[1..], m);
    }
  }

  /** Keys taken in order from a sequence sorted by key stay sorted. */
  lemma {:induction false} PresentKeysSorted(ids: seq<ID>, m: map<string, MultiPoolerInfo>)
    requires SortedBy(ids, MultiPoolerIDString)
    ensures forall i, j :: 0 <= i < j < |PresentKeys(ids, m)| ==> !Below(PresentKeys(ids, m)[j], PresentKeys(ids, m)[i])
    ensures forall k :: k in PresentKeys(ids, m) ==> exists i :: 0 <= i < |ids| && k == MultiPoolerIDString(ids[i])
    decreases |ids|
  {
    if ids != [] {
      assert SortedBy(ids[1..], MultiPoolerIDString);
      PresentKeysSorted(ids[1..], m);
      var rest := PresentKeys(ids[1..], m);
      var key := MultiPoolerIDString(ids[0]);
      forall k | k in rest ensures !Below(k, key) {
        var i :| 0 <= i < |ids[1..]| && k == MultiPoolerIDString(ids[1..][i]);
        assert ids[1..][i] == ids[i + 1];
      }
      forall k | k in PresentKeys(ids, m) ensures exists i :: 0 <= i < |ids| && k == MultiPoolerIDString(ids[i]) {
        if k != key {
          assert k in rest;
          var i :| 0 <= i < |ids[1..]| && k == MultiPoolerIDString(ids[1..][i]);
          assert ids[1..][i] == ids[i + 1];
        }
      }
    }
  }

  /** GetMultiPoolersIndividuallyByCell: the ids (as GetMultiPoolerIDsByCell returns
      them) sorted by identifier string, read through GetMultiPoolerMap, and the
      records found listed in that order; a partial result is reported beside them. */
  method GetMultiPoolersIndividuallyByCell(ids: Result<seq<ID>>, read: ID -> Result<MultiPoolerInfo>, opt: Option<DatabaseShard>)
    returns (r: Listing)
    ensures ids.Err? ==> r == Listing([], Some(ids.error))
    ensures ids.Ok? ==> exists m: map<string, MultiPoolerInfo>, err: Option<Error> ::
      ReadInto(ids.value, read, opt, m, err) && r == Listing(Present(SortBy(ids.value, MultiPoolerIDString), m), err)
  {
    if ids.Err? {
      return Listing([], Some(ids.error));
    }
    var sorted := SortBy(ids.value, MultiPoolerIDString);
    // GetMultiPoolerMap fails only with PartialResult, which is passed on beside the records.
    var m, err := GetMultiPoolerMap(sorted, read, opt);
    var poolers := CollectPresent(sorted, m);
    r := Listing(poolers, err);
    SameIdsSameReads(sorted, ids.value, read, opt, m, err);
    assert ReadInto(ids.value, read, opt, m, err) && r == Listing(Present(sorted, m), err);
  }

  /** The loop over the sorted ids that picks their records out of the map. */
  method CollectPresent(ids: seq<ID>, m: map<string, MultiPoolerInfo>) returns (poolers: seq<MultiPoolerInfo>)
    ensures poolers == Present(ids, m)
  {
    poolers := [];
    var i := 0;
    while i < |ids|
      invariant 0 <= i <= |ids|
      invariant poolers == Present(ids[..i], m)
    {
      PresentAppend(ids[..i], ids[i], m);
      assert ids[..i + 1] == ids[..i] + [ids[i]];
      var key := MultiPoolerIDString(ids[i]);
      if key in m {
        poolers := poolers + [m[key]];
      }
      i := i + 1;
    }
    assert ids[..i] == ids;
  }

  lemma {:induction false} PresentAppend(ids: seq<ID>, id: ID, m: map<string, MultiPoolerInfo>)
    ensures Present(ids + [id], m) ==
      Present(ids, m) + (if MultiPoolerIDString(id) in m then [m[MultiPoolerIDString(id)]] else [])
    decreases |ids|
  {
    var tail := if MultiPoolerIDString(id) in m then [m[MultiPoolerIDString(id)]] else [];
    if ids == [] {
      assert ids + [id] == [id];
      assert Present([id], m) == tail + Present([], m);
    } else {
      var head := if MultiPoolerIDString(ids[0]) in m then [m[MultiPoolerIDString(ids[0])]] else [];
      assert (ids + [id])[0] == ids[0];
      assert (ids + [id])[1..] == ids[1..] + [id];
      PresentAppend(ids[1..], id, m);
      calc {
        Present(ids + [id], m);
        head + Present(ids[1..] + [id], m);
        head + (Present(ids[1..], m) + tail);
        (head + Present(ids[1..], m)) + tail;
        Present(ids, m) + tail;
      }
    }
  }

  /** Reading the ids in another order gives the same map and error. */
  lemma SameIdsSameReads(a: seq<ID>, b: seq<ID>, read: ID -> Result<MultiPoolerInfo>, opt: Option<DatabaseShard>,
                         m: map<string, MultiPoolerInfo>, err: Option<Error>)
    requires multiset(a) == multiset(b)
    requires ReadInto(a, read, opt, m, err)
    ensures ReadInto(b, read, opt, m, err)
  {
    assert forall id :: id in a <==> id in b by {
      forall id ensures id in a <==> id in b {
        assert id in a <==> id in multiset(a);
        assert id in b <==> id in multiset(b);
      }
    }
  }

  /** The records come in ascending identifier-string order of the ids they were read for. */
  lemma IndividuallyInIdOrder(ids: seq<ID>, m: map<string, MultiPoolerInfo>)
    ensures var sorted := SortBy(ids, MultiPoolerIDString);
      |Present(sorted, m)| == |PresentKeys(sorted, m)|
      && (forall i :: 0 <= i < |Present(sorted, m)| ==> Present(sorted, m)[i] == m[PresentKeys(sorted, m)[i]])
      && (forall i, j :: 0 <= i < j < |PresentKeys(sorted, m)| ==> !Below(PresentKeys(sorted, m)[j], PresentKeys(sorted, m)[i]))
  {
    var sorted := SortBy(ids, MultiPoolerIDString);
    PresentMatchesKeys(sorted, m);
    PresentKeysSorted(sorted, m);
  }
}
