/** Database records, kept in the global topology under
    `databases/<name>/Database`. */
module Databases {
  import opened TopoErrors
  import opened Records
  import opened Paths
  import opened Sorting
  import Kv
  import opened Memorytopo
  import opened Retry

  const DatabasesDir: Path := [DatabasesPath]

  /** path.Join(DatabasesPath, database, DatabaseFile). */
  function PathForDatabase(database: string): Path {
    Under(DatabasesPath, database, DatabaseFile)
  }

  /** A plain name sits between the directory and the file name. */
  lemma DatabasePathLayout(database: string)
    requires IsSegment(database)
    ensures PathForDatabase(database) == [DatabasesPath, database, DatabaseFile]
    ensures Render(PathForDatabase(database)) == DatabasesPath + "/" + database + "/" + DatabaseFile
  {
    UnderSegment(DatabasesPath, database, DatabaseFile);
    RenderThree(DatabasesPath, database, DatabaseFile);
  }

  /** Different plain names are stored in different files, inside the databases directory. */
  lemma DatabasePathsDistinct(a: string, b: string)
    requires IsSegment(a) && IsSegment(b) && a != b
    ensures PathForDatabase(a) != PathForDatabase(b)
    ensures PathForDatabase(a)[..1] == DatabasesDir && PathForDatabase(a)[1] == a
  {
    DatabasePathLayout(a);
    DatabasePathLayout(b);
  }

  /** How database records are stored, for the retry loop. */
  const DatabaseKind: Kind<Database> :=
    Kind((db: Database) => DatabaseValue(db), DecodeDatabase, EmptyDatabase, (db: Database) => PathForDatabase(db.name),
         (db: Database) => "")

  /** The names GetCellNames and GetDatabaseNames find under a directory when
      nothing fails: none when the directory is missing. */
  ghost function NamesUnder(conn: Conn, dir: Path): Result<seq<string>>
    reads conn
  {
    if !conn.IsNode(dir) then Ok([])
    else if dir in conn.data.files then Err(NotADirectory)
    else Ok(SortedSet(conn.ChildNames(dir)))
  }

  /** What GetCellNames and GetDatabaseNames return once the context is live: a listing
      failure (the backend's factory error or an injected fault) is returned, except
      NoNode, which means there are no names. */
  ghost function ListedNames(conn: Conn, dir: Path, fault: Option<Error>): Result<seq<string>>
    reads conn
  {
    if conn.factoryErr.Some? then (if Is(conn.factoryErr.value, NoNode) then Ok([]) else Err(conn.factoryErr.value))
    else if fault.Some? then (if Is(fault.value, NoNode) then Ok([]) else Err(fault.value))
    else NamesUnder(conn, dir)
  }

  /** GetDatabaseNames: the names under the databases directory, sorted; none when
      the directory does not exist. */
  method GetDatabaseNames(conn: Conn, ctxErr: Option<Error>, fault: Option<Error>) returns (r: Result<seq<string>>)
    ensures ctxErr.Some? ==> r == Err(ctxErr.value)
    ensures r.Ok? ==> StrictlySorted(r.value)
    ensures r.Ok? && r.value != [] ==> r.value == SortedSet(conn.ChildNames(DatabasesDir))
    ensures ctxErr.None? ==> r == ListedNames(conn, DatabasesDir, fault)
  {
    if ctxErr.Some? {
      return Err(ctxErr.value);
    }
    var entries := conn.ListDir(DatabasesDir, false, None, fault);
    if entries.Err? {
      if Is(entries.error, NoNode) {
        return Ok([]);
      }
      return Err(entries.error);
    }
    return Ok(KeysOf(entries.value, EntryName));
  }

  /** GetDatabase: the record stored under the database's path. */
  function GetDatabase(d: Kv.Data, database: string, ctxErr: Option<Error>, fault: Option<Error>): (r: Result<Database>)
    ensures ctxErr.Some? ==> r == Err(ctxErr.value)
    ensures ctxErr.None? && fault.None? ==>
      (r.Ok? <==> PathForDatabase(database) in d.files && d.files[PathForDatabase(database)].value.DatabaseValue?)
    ensures r.Ok? ==> PathForDatabase(database) in d.files && d.files[PathForDatabase(database)].value == DatabaseValue(r.value)
    ensures ctxErr.None? && fault.None? && PathForDatabase(database) !in d.files ==> r == Err(Topo(NoNode))
  {
    if ctxErr.Some? then Err(ctxErr.value)
    else match Kv.Get(d, PathForDatabase(database), fault)
      case Ok(e) => DecodeDatabase(e.value)
      case Err(err) => Err(err)
  }

  /** CreateDatabase: fails with NodeExists when the database already exists. */
  method CreateDatabase(conn: Conn, database: string, db: Database, ctxErr: Option<Error>, fault: Option<Error>)
    returns (r: Option<Error>)
    modifies conn
    ensures ctxErr.Some? ==> r == ctxErr && conn.data == old(conn.data)
    ensures ctxErr.None? ==>
      var w := Kv.Create(old(conn.data), PathForDatabase(database), DatabaseValue(db), fault);
      r == ErrorOf(w.result) && conn.data == w.data
    ensures conn.OnlyFilesChanged()
  {
    if ctxErr.Some? {
      return ctxErr;
    }
    var created := conn.Create(PathForDatabase(database), DatabaseValue(db), fault);
    return ErrorOf(created);
  }

  /** A created database reads back as written; creating it again fails and changes nothing. */
  lemma CreateDatabaseThenGet(d: Kv.Data, database: string, db: Database, other: Database)
    requires PathForDatabase(database) !in d.files
    ensures var d1 := Kv.Create(d, PathForDatabase(database), DatabaseValue(db), None).data;
      GetDatabase(d1, database, None, None) == Ok(db)
      && Kv.Create(d1, PathForDatabase(database), DatabaseValue(other), None) == Kv.Written(Err(Topo(NodeExists)), d1)
  {
  }

  /** UpdateDatabaseFields: the retry loop on the database's record. */
  method UpdateDatabaseFields(conn: Conn, database: string, update: Database -> Result<Database>, env: seq<Attempt>)
    returns (r: Outcome<Database>)
    modifies conn
    ensures var ran := Run(DatabaseKind, GlobalRecord, PathForDatabase(database), update, old(conn.data), env);
      r == ran.outcome && conn.data == ran.data
    ensures r.Finished? ==> r.record.None?
    ensures conn.OnlyFilesChanged()
  {
    r := UpdateFields(conn, DatabaseKind, GlobalRecord, PathForDatabase(database), update, env);
    GlobalRecordsReturnNoRecord(DatabaseKind, PathForDatabase(database), update, old(conn.data), env);
  }

  /** DeleteDatabase: removes the record whatever its version; `force` changes nothing,
      since no reference check is made. */
  method DeleteDatabase(conn: Conn, database: string, force: bool, ctxErr: Option<Error>, fault: Option<Error>)
    returns (r: Option<Error>)
    modifies conn
    ensures ctxErr.Some? ==> r == ctxErr && conn.data == old(conn.data)
    ensures ctxErr.None? ==>
      var w := Kv.Delete(old(conn.data), PathForDatabase(database), None, fault);
      r == ErrorOf(w.result) && conn.data == w.data
    ensures conn.OnlyFilesChanged()
  {
    if ctxErr.Some? {
      return ctxErr;
    }
    var deleted := conn.Delete(PathForDatabase(database), None, fault);
    return ErrorOf(deleted);
  }

  /** Deleting or updating one database leaves every other database as it was, and a
      deleted database then reads as NoNode. */
  lemma {:induction false} DatabasesIndependent(d: Kv.Data, a: string, b: string, v: Value, version: Option<nat>)
    requires IsSegment(a) && IsSegment(b) && a != b
    ensures var d1 := Kv.Delete(d, PathForDatabase(a), None, None).data;
      GetDatabase(d1, b, None, None) == GetDatabase(d, b, None, None)
      && GetDatabase(d1, a, None, None) == Err(Topo(NoNode))
    ensures GetDatabase(Kv.Update(d, PathForDatabase(a), v, version, None).data, b, None, None) == GetDatabase(d, b, None, None)
  {
    DatabasePathsDistinct(a, b);
    Kv.WritesAreLocal(d, PathForDatabase(a), PathForDatabase(b), v, None);
    Kv.WritesAreLocal(d, PathForDatabase(a), PathForDatabase(b), v, version);
  }
}
