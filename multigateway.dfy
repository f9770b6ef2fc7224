/** Multigateway records, kept in each cell's topology under
    `gateways/<component>-<cell>-<name>/<GatewayFile>`: the identifier string,
    the reads and writes of one record, and the listings of a cell. As for
    poolers, a failure to obtain the cell's connection arrives as `connErr`. */
module MultiGateways {
  import opened TopoErrors
  import opened Records
  import opened Paths
  import opened Text
  import Kv
  import opened Memorytopo
  import opened Retry
  import opened Utils

  // ----- Identifiers and paths -----

  /** NewMultiGateway: a record for the gateway's identity and host with an empty port
      map. An empty name is replaced by an eight-character random name drawn from
      `words` (see Utils.RandomString); None only when those words run out. */
  method NewMultiGateway(name: string, cell: string, host: string, words: seq<nat>) returns (g: Option<MultiGateway>)
    requires forall i :: 0 <= i < |words| ==> words[i] < 0x8000_0000_0000_0000
    ensures name != "" ==> g == Some(MultiGateway(ID(MultigatewayComponent, cell, 0, name), host, map[]))
    ensures name == "" ==> (g.Some? <==> |words| >= 1 && |Kept(Chunks(words))| >= 8)
    ensures g.Some? ==>
      (g.value.id.component == MultigatewayComponent && g.value.id.cell == cell
       && g.value.hostname == host && g.value.portMap == map[])
    ensures name == "" && g.Some? ==>
      |g.value.id.name| == 8 && forall i :: 0 <= i < 8 ==> g.value.id.name[i] in Alphanums
  {
    var chosen := name;
    if name == "" {
      var random := RandomString(8, words);
      if random.None? {
        return None;
      }
      chosen := random.value;
      KeptInAlphabet(Chunks(words));
    }
    return Some(MultiGateway(ID(MultigatewayComponent, cell, 0, chosen), host, map[]));
  }

  /** MultiGatewayIDString: the component's printable name, the cell and the name, joined by dashes. */
  function MultiGatewayIDString(id: ID): string {
    ComponentTypeToString(id.component) + "-" + id.cell + "-" + id.name
  }

  /** The printable name of the gateway component. */
  lemma GatewayComponentName()
    ensures ComponentTypeToString(MultigatewayComponent) == "multigateway"
  {
    GatewayChunks();
    ToLowerAppend("MULT" + "IGAT", "EWAY");
    ToLowerAppend("MULT", "IGAT");
  }

  lemma GatewayChunks()
    ensures "MULTIGATEWAY" == "MULT" + "IGAT" + "EWAY"
    ensures "multigateway" == "mult" + "igat" + "eway"
    ensures ToLower("MULT") == "mult" && ToLower("IGAT") == "igat" && ToLower("EWAY") == "eway"
  {
  }

  lemma IDStringExamples()
    ensures MultiGatewayIDString(ID(MultigatewayComponent, "zone1", 0, "100")) == "multigateway-zone1-100"
    ensures MultiGatewayIDString(ID(MultigatewayComponent, "prod", 0, "sleepy")) == "multigateway-prod-sleepy"
  {
    GatewayComponentName();
    Spelled(ComponentTypeToString(MultigatewayComponent));
  }

  lemma Spelled(lower: string)
    requires lower == "multigateway"
    ensures lower + "-" + "zone1" + "-" + "100" == "multigateway-zone1-100"
    ensures lower + "-" + "prod" + "-" + "sleepy" == "multigateway-prod-sleepy"
  {
  }

  /** Within one component and cell, gateways share an identifier string exactly when
      they share a name. */
  lemma IDStringInjectiveInCell(a: ID, b: ID)
    requires a.component == b.component && a.cell == b.cell
    ensures MultiGatewayIDString(a) == MultiGatewayIDString(b) <==> a.name == b.name
  {
    var prefix := ComponentTypeToString(a.component) + "-" + a.cell + "-";
    assert MultiGatewayIDString(a) == prefix + a.name;
    assert MultiGatewayIDString(b) == prefix + b.name;
    if MultiGatewayIDString(a) == MultiGatewayIDString(b) {
      assert a.name == MultiGatewayIDString(a)[|prefix|..];
      assert b.name == MultiGatewayIDString(b)[|prefix|..];
    }
  }

  /** Across cells the string is ambiguous when a cell or name holds a dash: the gateway
      "c" of cell "a-b" and the gateway "b-c" of cell "a" get the same string. Each cell
      has its own topology, so their records do not collide. */
  lemma IDStringAmbiguousAcrossCells(c: Component)
    ensures var a := ID(c, "a-b", 0, "c");
      var b := ID(c, "a", 0, "b-c");
      a.cell != b.cell && MultiGatewayIDString(a) == MultiGatewayIDString(b)
  {
    var p := ComponentTypeToString(c);
    assert "-" + "a-b" + "-" + "c" == "-" + "a" + "-" + "b-c";
    assert p + "-" + "a-b" + "-" + "c" == p + ("-" + "a-b" + "-" + "c");
    assert p + "-" + "a" + "-" + "b-c" == p + ("-" + "a" + "-" + "b-c");
  }

  /** MultiGatewayInfo.String: the identifier string inside "MultiGateway{...}". */
  function InfoString(id: ID): (s: string)
    ensures |s| == |MultiGatewayIDString(id)| + 14
    ensures s[..13] == "MultiGateway{" && s[|s| - 1] == '}'
    ensures s[13..|s| - 1] == MultiGatewayIDString(id)
  {
    "MultiGateway{" + MultiGatewayIDString(id) + "}"
  }

  function Addr(g: MultiGateway): string {
    AddrOf(g.hostname, g.portMap)
  }

  /** path.Join(GatewaysPath, MultiGatewayIDString(id), GatewayFile). */
  function GatewayPath(id: ID): Path {
    Under(GatewaysPath, MultiGatewayIDString(id), GatewayFile)
  }

  // ----- One record -----

  datatype MultiGatewayInfo = MultiGatewayInfo(gateway: MultiGateway, version: nat)

  const GatewayKind: Kind<MultiGateway> :=
    Kind((g: MultiGateway) => GatewayValue(g), DecodeGateway, MultiGateway(ID(Unnamed(0), "", 0, ""), "", map[]),
         (g: MultiGateway) => GatewayPath(g.id), (g: MultiGateway) => g.id.cell)

  /** GetMultiGateway: every failure comes back wrapped, so errors.Is still sees its code. */
  function GetMultiGateway(d: Kv.Data, id: ID, connErr: Option<Error>, fault: Option<Error>): (r: Result<MultiGatewayInfo>)
    ensures connErr.Some? ==> r == Err(Wrapped(connErr.value))
    ensures connErr.None? && fault.None? ==>
      (r.Ok? <==> GatewayPath(id) in d.files && d.files[GatewayPath(id)].value.GatewayValue?)
    ensures r.Ok? ==> GatewayPath(id) in d.files && d.files[GatewayPath(id)] == Kv.Entry(GatewayValue(r.value.gateway), r.value.version)
    ensures connErr.None? && fault.None? && GatewayPath(id) !in d.files ==> r == Err(Wrapped(Topo(NoNode)))
    ensures r.Err? ==> r.error.Wrapped?
  {
    if connErr.Some? then Err(Wrapped(connErr.value))
    else match Kv.Get(d, GatewayPath(id), fault)
      case Err(e) => Err(Wrapped(e))
      case Ok(entry) =>
        match DecodeGateway(entry.value)
        case Err(e) => Err(Wrapped(e))
        case Ok(g) => Ok(MultiGatewayInfo(g, entry.version))
  }

  /** CreateMultiGateway: NodeExists when the gateway already exists. */
  method CreateMultiGateway(conn: Conn, g: MultiGateway, connErr: Option<Error>, fault: Option<Error>) returns (r: Option<Error>)
    modifies conn
    ensures connErr.Some? ==> r == connErr && conn.data == old(conn.data)
    ensures connErr.None? ==>
      var w := Kv.Create(old(conn.data), GatewayPath(g.id), GatewayValue(g), fault);
      r == ErrorOf(w.result) && conn.data == w.data
    ensures conn.OnlyFilesChanged()
  {
    if connErr.Some? {
      return connErr;
    }
    var created := conn.Create(GatewayPath(g.id), GatewayValue(g), fault);
    return ErrorOf(created);
  }

  /** DeleteMultiGateway: removes the record whatever its version. */
  method DeleteMultiGateway(conn: Conn, id: ID, connErr: Option<Error>, fault: Option<Error>) returns (r: Option<Error>)
    modifies conn
    ensures connErr.Some? ==> r == connErr && conn.data == old(conn.data)
    ensures connErr.None? ==>
      var w := Kv.Delete(old(conn.data), GatewayPath(id), None, fault);
      r == ErrorOf(w.result) && conn.data == w.data
    ensures conn.OnlyFilesChanged()
  {
    if connErr.Some? {
      return connErr;
    }
    var deleted := conn.Delete(GatewayPath(id), None, fault);
    return ErrorOf(deleted);
  }

  /** UpdateMultiGateway: writes the record on condition of the version it was read at;
      on success the info carries the new version. */
  method UpdateMultiGateway(conn: Conn, info: MultiGatewayInfo, connErr: Option<Error>, fault: Option<Error>)
    returns (r: Option<Error>, updated: MultiGatewayInfo)
    modifies conn
    ensures connErr.Some? ==> r == connErr && updated == info && conn.data == old(conn.data)
    ensures connErr.None? ==>
      var w := Kv.Update(old(conn.data), GatewayPath(info.gateway.id), GatewayValue(info.gateway), Some(info.version), fault);
      r == ErrorOf(w.result) && conn.data == w.data
      && updated == (if w.result.Ok? then info.(version := w.result.value) else info)
    ensures conn.OnlyFilesChanged()
  {
    updated := info;
    if connErr.Some? {
      return connErr, updated;
    }
    var written := conn.Update(GatewayPath(info.gateway.id), GatewayValue(info.gateway), Some(info.version), fault);
    if written.Err? {
      return Some(written.error), updated;
    }
    updated := info.(version := written.value);
    return None, updated;
  }

  /** UpdateMultiGatewayFields: the retry loop on the gateway's record, read from the
      gateway's cell and written through the connection of the updated record's cell. */
  method UpdateMultiGatewayFields(conn: Conn, id: ID, update: MultiGateway -> Result<MultiGateway>, env: seq<Attempt>)
    returns (r: Outcome<MultiGateway>)
    modifies conn
    ensures var ran := Run(GatewayKind, CellRecord(id.cell), GatewayPath(id), update, old(conn.data), env);
      r == ran.outcome && conn.data == ran.data
    ensures conn.OnlyFilesChanged()
  {
    r := UpdateFields(conn, GatewayKind, CellRecord(id.cell), GatewayPath(id), update, env);
  }

  /** InitMultiGateway: create the record, and when it exists and updating is allowed,
      overwrite it at the version read, whatever it held. */
  method InitMultiGateway(conn: Conn, g: MultiGateway, allowUpdate: bool, connErr: Option<Error>,
                          createFault: Option<Error>, getFault: Option<Error>, updateFault: Option<Error>)
    returns (r: Option<Error>)
    modifies conn
    ensures connErr.Some? ==>
      (conn.data == old(conn.data)
       && r == (if Is(connErr.value, NodeExists) && allowUpdate then Some(Formatted([Wrapped(connErr.value)])) else connErr))
    ensures connErr.None? ==>
      var created := Kv.Create(old(conn.data), GatewayPath(g.id), GatewayValue(g), createFault);
      if created.result.Ok? || !Is(created.result.error, NodeExists) || !allowUpdate then
        r == ErrorOf(created.result) && conn.data == created.data
      else match GetMultiGateway(old(conn.data), g.id, None, getFault)
        case Err(e) => r == Some(Formatted([e])) && conn.data == old(conn.data)
        case Ok(existing) =>
          var written := Kv.Update(old(conn.data), GatewayPath(g.id), GatewayValue(g), Some(existing.version), updateFault);
          conn.data == written.data && r == (if written.result.Ok? then None else Some(Formatted([written.result.error])))
    ensures conn.OnlyFilesChanged()
  {
    r := CreateMultiGateway(conn, g, connErr, createFault);
    if r.Some? && Is(r.value, NodeExists) && allowUpdate {
      var existing := GetMultiGateway(conn.data, g.id, connErr, getFault);
      if existing.Err? {
        return Some(Formatted([existing.error]));
      }
      var written, _ := UpdateMultiGateway(conn, existing.value.(gateway := g), connErr, updateFault);
      if written.Some? {
        return Some(Formatted([written.value]));
      }
      return None;
    }
  }

  /** InitMultiGateway on a healthy store: a new gateway is created; an existing one is
      refused with NodeExists unless updating is allowed, and is otherwise replaced by
      the new record, with no check of what it held. */
  lemma InitOutcomes(d: Kv.Data, g: MultiGateway)
    requires Kv.Valid(d)
    ensures GatewayPath(g.id) !in d.files ==>
      var d1 := Kv.Create(d, GatewayPath(g.id), GatewayValue(g), None).data;
      GetMultiGateway(d1, g.id, None, None).Ok? && GetMultiGateway(d1, g.id, None, None).value.gateway == g
    ensures GatewayPath(g.id) in d.files ==> Kv.Create(d, GatewayPath(g.id), GatewayValue(g), None).result == Err(Topo(NodeExists))
    ensures GetMultiGateway(d, g.id, None, None).Ok? ==>
      var existing := GetMultiGateway(d, g.id, None, None).value;
      var d1 := Kv.Update(d, GatewayPath(g.id), GatewayValue(g), Some(existing.version), None).data;
      GetMultiGateway(d1, g.id, None, None).Ok? && GetMultiGateway(d1, g.id, None, None).value.gateway == g
  {
  }

  // ----- Listings of a cell -----

  predicate AllGateways(entries: seq<Kv.ListEntry>) {
    forall i :: 0 <= i < |entries| ==> entries[i].value.GatewayValue?
  }

  /** A missing gateways directory is an empty cell; any other listing error is returned. */
  function ListingError(listed: Result<seq<Kv.ListEntry>>): (err: Option<Error>)
    requires listed.Err?
    ensures Is(listed.error, NoNode) ==> err.None?
    ensures !Is(listed.error, NoNode) ==> err == Some(listed.error)
  {
    if Is(listed.error, NoNode) then None else Some(listed.error)
  }

  /** GetMultiGatewaysByCell: one info per listed record, in list order, each with its
      own version; no filtering. A record that does not decode fails the whole call. */
  method GetMultiGatewaysByCell(connErr: Option<Error>, listed: Result<seq<Kv.ListEntry>>)
    returns (infos: seq<MultiGatewayInfo>, err: Option<Error>)
    ensures connErr.Some? ==> infos == [] && err == connErr
    ensures connErr.None? && listed.Err? ==> infos == [] && err == ListingError(listed)
    ensures connErr.None? && listed.Ok? && !AllGateways(listed.value) ==> infos == [] && err == Some(DecodeFailed)
    ensures connErr.None? && listed.Ok? && AllGateways(listed.value) ==>
      err.None? && |infos| == |listed.value|
      && forall i :: 0 <= i < |infos| ==>
        infos[i] == MultiGatewayInfo(listed.value[i].value.gateway, listed.value[i].version)
  {
    if connErr.Some? {
      return [], connErr;
    }
    if listed.Err? {
      return [], ListingError(listed);
    }
    var entries := listed.value;
    infos := [];
    var n := 0;
    while n < |entries|
      invariant 0 <= n <= |entries|
      invariant |infos| == n
      invariant forall i :: 0 <= i < n ==>
        entries[i].value.GatewayValue? && infos[i] == MultiGatewayInfo(entries[i].value.gateway, entries[i].version)
    {
      var decoded := DecodeGateway(entries[n].value);
      if decoded.Err? {
        return [], Some(decoded.error);
      }
      infos := infos + [MultiGatewayInfo(decoded.value, entries[n].version)];
      n := n + 1;
    }
    return infos, None;
  }

  /** GetMultiGatewayIDsByCell: one ID per listed record, taken from the decoded record
      rather than from the path it was listed under. */
  method GetMultiGatewayIDsByCell(connErr: Option<Error>, listed: Result<seq<Kv.ListEntry>>)
    returns (ids: seq<ID>, err: Option<Error>)
    ensures connErr.Some? ==> ids == [] && err == connErr
    ensures connErr.None? && listed.Err? ==> ids == [] && err == ListingError(listed)
    ensures connErr.None? && listed.Ok? && !AllGateways(listed.value) ==> ids == [] && err == Some(DecodeFailed)
    ensures connErr.None? && listed.Ok? && AllGateways(listed.value) ==>
      err.None? && |ids| == |listed.value|
      && forall i :: 0 <= i < |ids| ==> ids[i] == listed.value[i].value.gateway.id
  {
    if connErr.Some? {
      return [], connErr;
    }
    if listed.Err? {
      return [], ListingError(listed);
    }
    var entries := listed.value;
    var result := new ID[|entries|];
    var i := 0;
    while i < |entries|
      invariant 0 <= i <= |entries|
      invariant forall j :: 0 <= j < i ==> entries[j].value.GatewayValue? && result[j] == entries[j].value.gateway.id
    {
      var decoded := DecodeGateway(entries[i].value);
      if decoded.Err? {
        return [], Some(decoded.error);
      }
      result[i] := decoded.value.id;
      i := i + 1;
    }
    return result[..], None;
  }
}
