/** The records the topology stores (protobuf messages of the clustermetadata
    package), reduced to the fields the core reads or writes, and the value a
    file holds. Protobuf encoding is not modelled: a file holds the record
    itself, and reading it as a record of another kind fails. */
module Records {
  import opened TopoErrors
  import opened Text

  newtype Uint32 = x: int | 0 <= x < 0x1_0000_0000
  newtype Int32 = x: int | -0x8000_0000 <= x < 0x8000_0000

  /** An ID_ComponentType value: one the generated name table lists, carrying
      its enum name (for instance "MULTIPOOLER"), or a number it does not list. */
  datatype Component = Named(enumName: string) | Unnamed(code: int)

  const MultipoolerComponent := Named("MULTIPOOLER")
  const MultigatewayComponent := Named("MULTIGATEWAY")

  /** clustermetadata.ID: poolers are identified by cell and uid, gateways by cell and name. */
  datatype ID = ID(component: Component, cell: string, uid: Uint32, name: string)

  /** PoolerType: the two values the core distinguishes, and every other one. */
  datatype PoolerType = Primary | Replica | OtherType(code: int)

  datatype MultiPooler = MultiPooler(
    id: ID,
    database: string,
    shard: string,
    hostname: string,
    portMap: map<string, Int32>,
    poolerType: PoolerType,
    servingStatus: int)

  datatype MultiGateway = MultiGateway(id: ID, hostname: string, portMap: map<string, Int32>)

  datatype Cell = Cell(name: string, serverAddresses: seq<string>, root: string)

  datatype Database = Database(name: string, backupLocation: string, durabilityPolicy: string, cells: seq<string>)

  /** What a file of the topology holds. */
  datatype Value =
    | CellValue(cell: Cell)
    | DatabaseValue(database: Database)
    | PoolerValue(pooler: MultiPooler)
    | GatewayValue(gateway: MultiGateway)
    | OtherValue(bytes: seq<int>)

  /** Addr of a multipooler or multigateway: the host name alone when the port map
      has no "grpc" entry, otherwise the host name, a colon and the port in decimal. */
  function AddrOf(hostname: string, portMap: map<string, Int32>): (s: string)
    ensures "grpc" !in portMap ==> s == hostname
    ensures "grpc" in portMap ==> |s| > |hostname| + 1 && s[..|hostname| + 1] == hostname + ":"
  {
    if "grpc" !in portMap then hostname
    else hostname + ":" + SignedDecimal(portMap["grpc"] as int)
  }

  /** The port can be read back from an address: the text after the host name and
      colon is the decimal form of the grpc port. */
  lemma AddrPortRoundTrip(hostname: string, portMap: map<string, Int32>)
    requires "grpc" in portMap && portMap["grpc"] >= 0
    ensures var s := AddrOf(hostname, portMap);
      AllDigits(s[|hostname| + 1..]) && ParseDecimal(s[|hostname| + 1..]) == portMap["grpc"] as int
  {
    var s := AddrOf(hostname, portMap);
    assert s[|hostname| + 1..] == Decimal(portMap["grpc"] as int);
    DecimalRoundTrip(portMap["grpc"] as int);
  }

  /** The zero-valued messages the retry loops start from when the file is missing. */
  const EmptyCell := Cell("", [], "")
  const EmptyDatabase := Database("", "", "", [])

  function DecodeCell(v: Value): (r: Result<Cell>)
    ensures r.Ok? <==> v.CellValue?
    ensures r.Ok? ==> CellValue(r.value) == v
    ensures r.Err? ==> r.error == DecodeFailed
  {
    if v.CellValue? then Ok(v.cell) else Err(DecodeFailed)
  }

  function DecodeDatabase(v: Value): (r: Result<Database>)
    ensures r.Ok? <==> v.DatabaseValue?
    ensures r.Ok? ==> DatabaseValue(r.value) == v
    ensures r.Err? ==> r.error == DecodeFailed
  {
    if v.DatabaseValue? then Ok(v.database) else Err(DecodeFailed)
  }

  function DecodePooler(v: Value): (r: Result<MultiPooler>)
    ensures r.Ok? <==> v.PoolerValue?
    ensures r.Ok? ==> PoolerValue(r.value) == v
    ensures r.Err? ==> r.error == DecodeFailed
  {
    if v.PoolerValue? then Ok(v.pooler) else Err(DecodeFailed)
  }

  function DecodeGateway(v: Value): (r: Result<MultiGateway>)
    ensures r.Ok? <==> v.GatewayValue?
    ensures r.Ok? ==> GatewayValue(r.value) == v
    ensures r.Err? ==> r.error == DecodeFailed
  {
    if v.GatewayValue? then Ok(v.gateway) else Err(DecodeFailed)
  }
}
