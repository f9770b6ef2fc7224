/** Cell records, kept in the global topology under `cells/<name>/Cell`. A cell
    may only be deleted while no database lists it, unless deletion is forced. */
module Cells {
  import opened TopoErrors
  import opened Records
  import opened Paths
  import opened Sorting
  import Kv
  import opened Memorytopo
  import opened Retry
  import opened Databases

  const CellsDir: Path := [CellsPath]

  /** path.Join(CellsPath, cell, CellFile). */
  function PathForCell(cell: string): Path {
    Under(CellsPath, cell, CellFile)
  }

  /** A plain cell name sits between the directory and the file name. */
  lemma CellPathLayout(cell: string)
    requires IsSegment(cell)
    ensures PathForCell(cell) == [CellsPath, cell, CellFile]
    ensures Render(PathForCell(cell)) == CellsPath + "/" + cell + "/" + CellFile
  {
    UnderSegment(CellsPath, cell, CellFile);
    RenderThree(CellsPath, cell, CellFile);
  }

  /** Cell records never share a file with database records. */
  lemma CellAndDatabasePathsDiffer(cell: string, database: string)
    ensures PathForCell(cell) != PathForDatabase(database)
  {
    assert PathForCell(cell)[0] == CellsPath;
    assert PathForDatabase(database)[0] == DatabasesPath;
  }

  const CellKind: Kind<Cell> :=
    Kind((c: Cell) => CellValue(c), DecodeCell, EmptyCell, (c: Cell) => PathForCell(c.name), (c: Cell) => "")

  /** GetCellNames: the names under the cells directory, sorted; none when the
      directory does not exist. */
  method GetCellNames(conn: Conn, ctxErr: Option<Error>, fault: Option<Error>) returns (r: Result<seq<string>>)
    ensures ctxErr.Some? ==> r == Err(ctxErr.value)
    ensures r.Ok? ==> StrictlySorted(r.value)
    ensures r.Ok? && r.value != [] ==> r.value == SortedSet(conn.ChildNames(CellsDir))
    ensures ctxErr.None? ==> r == ListedNames(conn, CellsDir, fault)
  {
    if ctxErr.Some? {
      return Err(ctxErr.value);
    }
    var entries := conn.ListDir(CellsDir, false, None, fault);
    if entries.Err? {
      if Is(entries.error, NoNode) {
        return Ok([]);
      }
      return Err(entries.error);
    }
    return Ok(KeysOf(entries.value, EntryName));
  }

  /** GetCell: the record stored under the cell's path. */
  function GetCell(d: Kv.Data, cell: string, ctxErr: Option<Error>, fault: Option<Error>): (r: Result<Cell>)
    ensures ctxErr.Some? ==> r == Err(ctxErr.value)
    ensures ctxErr.None? && fault.None? ==>
      (r.Ok? <==> PathForCell(cell) in d.files && d.files[PathForCell(cell)].value.CellValue?)
    ensures r.Ok? ==> PathForCell(cell) in d.files && d.files[PathForCell(cell)].value == CellValue(r.value)
    ensures ctxErr.None? && fault.None? && PathForCell(cell) !in d.files ==> r == Err(Topo(NoNode))
  {
    if ctxErr.Some? then Err(ctxErr.value)
    else match Kv.Get(d, PathForCell(cell), fault)
      case Ok(e) => DecodeCell(e.value)
      case Err(err) => Err(err)
  }

  /** CreateCell: fails with NodeExists when the cell already exists. */
  method CreateCell(conn: Conn, cell: string, ci: Cell, ctxErr: Option<Error>, fault: Option<Error>)
    returns (r: Option<Error>)
    modifies conn
    ensures ctxErr.Some? ==> r == ctxErr && conn.data == old(conn.data)
    ensures ctxErr.None? ==>
      var w := Kv.Create(old(conn.data), PathForCell(cell), CellValue(ci), fault);
      r == ErrorOf(w.result) && conn.data == w.data
    ensures conn.OnlyFilesChanged()
  {
    if ctxErr.Some? {
      return ctxErr;
    }
    var created := conn.Create(PathForCell(cell), CellValue(ci), fault);
    return ErrorOf(created);
  }

  /** UpdateCellFields: the retry loop on the cell's record. */
  method UpdateCellFields(conn: Conn, cell: string, update: Cell -> Result<Cell>, env: seq<Attempt>)
    returns (r: Outcome<Cell>)
    modifies conn
    ensures var ran := Run(CellKind, GlobalRecord, PathForCell(cell), update, old(conn.data), env);
      r == ran.outcome && conn.data == ran.data
    ensures r.Finished? ==> r.record.None?
    ensures conn.OnlyFilesChanged()
  {
    r := UpdateFields(conn, CellKind, GlobalRecord, PathForCell(cell), update, env);
    GlobalRecordsReturnNoRecord(CellKind, PathForCell(cell), update, old(conn.data), env);
  }

  /** Whether the database of that name lists the cell. */
  predicate ReferencedBy(d: Kv.Data, database: string, cell: string) {
    GetDatabase(d, database, None, None).Ok? && cell in GetDatabase(d, database, None, None).value.cells
  }

  /** The reference scan of DeleteCell over the databases in order: the first one that
      cannot be read stops it with the read error wrapped, the first one that lists the
      cell stops it with NodeNotEmpty. */
  function FirstProblem(d: Kv.Data, names: seq<string>, cell: string): Option<Error>
    decreases |names|
  {
    if names == [] then None
    else match GetDatabase(d, names[0], None, None)
      case Err(e) => Some(Wrapped(e))
      case Ok(db) => if cell in db.cells then Some(Topo(NodeNotEmpty)) else FirstProblem(d, names[1..], cell)
  }

  /** The scan passes exactly when every listed database can be read and none lists the cell. */
  lemma {:induction false} FirstProblemNone(d: Kv.Data, names: seq<string>, cell: string)
    ensures FirstProblem(d, names, cell).None? <==>
      forall i :: 0 <= i < |names| ==> GetDatabase(d, names[i], None, None).Ok? && !ReferencedBy(d, names[i], cell)
    decreases |names|
  {
    if names != [] {
      FirstProblemNone(d, names[1..], cell);
      assert forall i :: 1 <= i < |names| ==> names[i] == names[1..][i - 1];
    }
  }

  /** NodeNotEmpty names a real reference. */
  lemma {:induction false} FirstProblemReference(d: Kv.Data, names: seq<string>, cell: string)
    requires FirstProblem(d, names, cell) == Some(Topo(NodeNotEmpty))
    ensures exists i :: 0 <= i < |names| && ReferencedBy(d, names[i], cell)
    decreases |names|
  {
    if !ReferencedBy(d, names[0], cell) {
      FirstProblemReference(d, names[1..], cell);
      var i :| 0 <= i < |names[1..]| && ReferencedBy(d, names[1..][i], cell);
      assert names[i + 1] == names[1..][i];
    }
  }

  /** The loop of DeleteCell over the database names: it stops at the first database
      that cannot be read or that lists the cell. */
  method CheckReferences(d: Kv.Data, names: seq<string>, cell: string) returns (problem: Option<Error>)
    ensures problem == FirstProblem(d, names, cell)
  {
    var i := 0;
    while i < |names|
      invariant 0 <= i <= |names|
      invariant FirstProblem(d, names, cell) == FirstProblem(d, names[i..], cell)
    {
      assert names[i..][1..] == names[i + 1..];
      var db := GetDatabase(d, names[i], None, None);
      if db.Err? {
        return Some(Wrapped(db.error));
      }
      if cell in db.value.cells {
        return Some(Topo(NodeNotEmpty));
      }
      i := i + 1;
    }
    return None;
  }

  /** DeleteCell: unless forced, refuse while a database lists the cell, then delete
      the cell's record whatever its version. */
  method DeleteCell(conn: Conn, cell: string, force: bool, ctxErr: Option<Error>, fault: Option<Error>)
    returns (r: Option<Error>)
    modifies conn
    ensures ctxErr.Some? ==> r == ctxErr && conn.data == old(conn.data)
    ensures ctxErr.None? && force ==>
      var w := Kv.Delete(old(conn.data), PathForCell(cell), None, fault);
      r == ErrorOf(w.result) && conn.data == w.data
    ensures ctxErr.None? && !force ==>
      match old(ListedNames(conn, DatabasesDir, None))
      case Err(e) => r == Some(e) && conn.data == old(conn.data)
      case Ok(names) =>
        var problem := FirstProblem(old(conn.data), names, cell);
        if problem.Some? then r == problem && conn.data == old(conn.data)
        else
          var w := Kv.Delete(old(conn.data), PathForCell(cell), None, fault);
          r == ErrorOf(w.result) && conn.data == w.data
    ensures conn.OnlyFilesChanged()
  {
    if ctxErr.Some? {
      return ctxErr;
    }
    if !force {
      var listed := GetDatabaseNames(conn, None, None);
      if listed.Err? {
        return Some(listed.error);
      }
      var problem := CheckReferences(conn.data, listed.value, cell);
      if problem.Some? {
        return problem;
      }
    }
    var deleted := conn.Delete(PathForCell(cell), None, fault);
    return ErrorOf(deleted);
  }

  /** A deletion that goes ahead removes the cell and leaves every database record alone. */
  lemma DeleteCellLeavesDatabases(d: Kv.Data, cell: string, database: string)
    requires Kv.Delete(d, PathForCell(cell), None, None).result.Ok?
    ensures var d1 := Kv.Delete(d, PathForCell(cell), None, None).data;
      GetCell(d1, cell, None, None) == Err(Topo(NoNode))
      && GetDatabase(d1, database, None, None) == GetDatabase(d, database, None, None)
  {
    CellAndDatabasePathsDiffer(cell, database);
    Kv.WritesAreLocal(d, PathForCell(cell), PathForDatabase(database), CellValue(EmptyCell), None);
  }
}
