/** The in-memory topology backend: one cell's tree of files and directories,
    the locks held on its nodes, the factory-wide error switch, and whether the
    connection was closed. Directories are not stored separately: a path is a
    directory when a file or a named-lock directory lies below it. Dialing and
    the per-operation fault injection are outside this model and arrive as the
    error they produce (`dialErr`, `fault`). */
module Memorytopo {
  import opened TopoErrors
  import opened Records
  import opened Paths
  import opened Sorting
  import Kv

  /** DirEntry.Type; None where ListDir leaves the field unset (a listing that is not full). */
  datatype DirEntryType = TypeFile | TypeDirectory

  datatype DirEntry = DirEntry(name: string, entryType: Option<DirEntryType>, ephemeral: bool)

  /** The root child ListDir marks as ephemeral. Its value is not part of this
      model's sources; any single segment serves. */
  const ElectionsPath := "elections"

  /** What a lock attempt ends in: the lock, an error, or waiting forever because
      the node stays locked and the context never ends. */
  datatype LockOutcome = Acquired(dirPath: Path) | Failed(error: Error) | Blocked

  /** A context error as a topo error: cancellation is Interrupted, an expired deadline is Timeout. */
  function ConvertError(e: Error): (r: Error)
    ensures e == ContextCanceled ==> r == Topo(Interrupted)
    ensures e == ContextDeadlineExceeded ==> r == Topo(Timeout)
    ensures e != ContextCanceled && e != ContextDeadlineExceeded ==> r == e
  {
    match e
    case ContextCanceled => Topo(Interrupted)
    case ContextDeadlineExceeded => Topo(Timeout)
    case _ => e
  }

  /** ConvertError never lets a raw context error through. */
  lemma ConvertErrorHidesContext(e: Error)
    ensures ConvertError(e) != ContextCanceled && ConvertError(e) != ContextDeadlineExceeded
    ensures Is(ConvertError(e), Interrupted) <==> (e == ContextCanceled || Is(e, Interrupted))
  {
  }

  function EntryName(e: DirEntry): string {
    e.name
  }

  predicate IsPrefix(p: Path, q: Path) {
    |p| <= |q| && q[..|p|] == p
  }

  /** The entry ListDir reports for child `name` of `dirPath`. */
  function EntryFor(dirPath: Path, name: string, full: bool, isFile: bool): DirEntry {
    if !full then DirEntry(name, None, false)
    else DirEntry(name, Some(if isFile then TypeFile else TypeDirectory), dirPath == [] && name == ElectionsPath)
  }

  class Conn {
    /** The files of this cell. */
    var data: Kv.Data
    /** Directories created by LockName that may hold nothing else. */
    var dirs: set<Path>
    /** The contents of each held lock, by node. */
    var locks: map<Path, string>
    /** The factory-wide error every lock attempt and listing returns while it is set. */
    var factoryErr: Option<Error>
    var closed: bool

    constructor ()
      ensures data == Kv.Empty && dirs == {} && locks == map[] && factoryErr == None && !closed
    {
      data := Kv.Empty;
      dirs := {};
      locks := map[];
      factoryErr := None;
      closed := false;
    }

    /** The paths that hold something: files and named-lock directories. */
    function Leaves(): set<Path>
      reads this
    {
      data.files.Keys + dirs
    }

    /** nodeByPath finds a node: the root, a leaf, or a directory above a leaf. */
    predicate IsNode(p: Path)
      reads this
    {
      p == [] || exists q :: q in Leaves() && IsPrefix(p, q)
    }

    /** The names directly below a node. */
    function ChildNames(p: Path): set<string>
      reads this
    {
      set q | q in Leaves() && |q| > |p| && q[..|p|] == p :: q[|p|]
    }

    /** Only Create, Update and Delete change the files, and they change nothing else. */
    twostate predicate OnlyFilesChanged()
      reads this
    {
      dirs == old(dirs) && locks == old(locks) && factoryErr == old(factoryErr) && closed == old(closed)
    }

    method Create(p: Path, v: Value, fault: Option<Error>) returns (r: Result<nat>)
      modifies this
      ensures r == Kv.Create(old(data), p, v, fault).result
      ensures data == Kv.Create(old(data), p, v, fault).data
      ensures OnlyFilesChanged()
    {
      var w := Kv.Create(data, p, v, fault);
      data := w.data;
      r := w.result;
    }

    method Update(p: Path, v: Value, version: Option<nat>, fault: Option<Error>) returns (r: Result<nat>)
      modifies this
      ensures r == Kv.Update(old(data), p, v, version, fault).result
      ensures data == Kv.Update(old(data), p, v, version, fault).data
      ensures OnlyFilesChanged()
    {
      var w := Kv.Update(data, p, v, version, fault);
      data := w.data;
      r := w.result;
    }

    method Delete(p: Path, version: Option<nat>, fault: Option<Error>) returns (r: Result<()>)
      modifies this
      ensures r == Kv.Delete(old(data), p, version, fault).result
      ensures data == Kv.Delete(old(data), p, version, fault).data
      ensures OnlyFilesChanged()
    {
      var w := Kv.Delete(data, p, version, fault);
      data := w.data;
      r := w.result;
    }

    /** Closing only marks the connection: Unlock refuses to work on it afterwards. */
    method Close()
      modifies this
      ensures closed
      ensures data == old(data) && dirs == old(dirs) && locks == old(locks) && factoryErr == old(factoryErr)
    {
      closed := true;
    }

    /** ListDir: the children of a directory, sorted by name; with `full`, each
        entry also says whether the child is a file or a directory, and the
        elections child of the root is ephemeral. Errors in the order the
        backend checks: dialing, the factory error, an injected fault, a missing
        node (NoNode), a file (not a directory). */
    method ListDir(dirPath: Path, full: bool, dialErr: Option<Error>, fault: Option<Error>) returns (r: Result<seq<DirEntry>>)
      ensures dialErr.Some? ==> r == Err(dialErr.value)
      ensures dialErr.None? && factoryErr.Some? ==> r == Err(factoryErr.value)
      ensures dialErr.None? && factoryErr.None? && fault.Some? ==> r == Err(fault.value)
      ensures dialErr.None? && factoryErr.None? && fault.None? && !IsNode(dirPath) ==> r == Err(Topo(NoNode))
      ensures dialErr.None? && factoryErr.None? && fault.None? && IsNode(dirPath) && dirPath in data.files ==> r == Err(NotADirectory)
      ensures r.Ok? <==> dialErr.None? && factoryErr.None? && fault.None? && IsNode(dirPath) && dirPath !in data.files
      ensures r.Ok? ==> KeysOf(r.value, EntryName) == SortedSet(ChildNames(dirPath))
      ensures r.Ok? ==> forall i :: 0 <= i < |r.value| ==> Describes(dirPath, full, r.value[i])
    {
      if dialErr.Some? {
        return Err(dialErr.value);
      }
      if factoryErr.Some? {
        return Err(factoryErr.value);
      }
      if fault.Some? {
        return Err(fault.value);
      }
      var isRoot := dirPath == [];
      if !IsNode(dirPath) {
        return Err(Topo(NoNode));
      }
      if dirPath in data.files {
        return Err(NotADirectory);
      }
      var entries := CollectChildren(dirPath, full, isRoot);
      var sorted := SortBy(entries, EntryName);
      SortByDistinctKeys(entries, EntryName);
      forall i | 0 <= i < |sorted|
        ensures Describes(dirPath, full, sorted[i])
      {
        assert sorted[i] in multiset(entries);
      }
      return Ok(sorted);
    }

    /** An entry as ListDir fills it in for a child of `dirPath`. */
    predicate Describes(dirPath: Path, full: bool, e: DirEntry)
      reads this
    {
      e == EntryFor(dirPath, e.name, full, dirPath + [e.name] in data.files)
    }

    /** The loop over the children of a directory, in whatever order the map
        yields them: one entry per child name. */
    method CollectChildren(dirPath: Path, full: bool, isRoot: bool) returns (result: seq<DirEntry>)
      requires isRoot == (dirPath == [])
      ensures DistinctKeys(result, EntryName)
      ensures Elements(KeysOf(result, EntryName)) == ChildNames(dirPath)
      ensures forall i :: 0 <= i < |result| ==> Describes(dirPath, full, result[i])
    {
      var children := ChildNames(dirPath);
      var todo := children;
      result := [];
      while todo != {}
        invariant todo <= children
        invariant DistinctKeys(result, EntryName)
        invariant Elements(KeysOf(result, EntryName)) == children - todo
        invariant forall i :: 0 <= i < |result| ==> Describes(dirPath, full, result[i])
        decreases |todo|
      {
        var name :| name in todo;
        var e := DirEntry(name, None, false);
        if full {
          e := e.(entryType := Some(TypeFile));
          if dirPath + [name] !in data.files {
            e := e.(entryType := Some(TypeDirectory));
          }
          if isRoot && name == ElectionsPath {
            e := e.(ephemeral := true);
          }
        }
        assert Describes(dirPath, full, e);
        AppendFresh(result, e, todo, children);
        result := result + [e];
        todo := todo - {name};
      }
    }

    /** Lock on a node that must exist; an injected Lock fault comes first. */
    method Lock(dirPath: Path, contents: string, dialErr: Option<Error>, fault: Option<Error>, ctxErr: Option<Error>)
      returns (r: LockOutcome)
      modifies this
      ensures fault.Some? ==> r == Failed(fault.value) && locks == old(locks)
      ensures fault.None? ==> LockTaken(dirPath, contents, false, dialErr, ctxErr, r)
      ensures data == old(data) && dirs == old(dirs) && factoryErr == old(factoryErr) && closed == old(closed)
    {
      if fault.Some? {
        return Failed(fault.value);
      }
      r := LockNode(dirPath, contents, false, dialErr, ctxErr);
    }

    /** LockName creates the directory it locks when it is missing. */
    method LockName(dirPath: Path, contents: string, dialErr: Option<Error>, ctxErr: Option<Error>)
      returns (r: LockOutcome)
      modifies this
      ensures LockTaken(dirPath, contents, true, dialErr, ctxErr, r)
      ensures data == old(data) && factoryErr == old(factoryErr) && closed == old(closed)
    {
      r := LockNode(dirPath, contents, true, dialErr, ctxErr);
    }

    /** The outcome of the backend's lock loop, and the locks and directories after it.
        A held lock is only released by another client, which the model does not
        run, so waiting ends only when the context does. */
    twostate predicate LockTaken(dirPath: Path, contents: string, named: bool, dialErr: Option<Error>,
                                 ctxErr: Option<Error>, r: LockOutcome)
      reads this
    {
      if dialErr.Some? then r == Failed(dialErr.value) && locks == old(locks) && dirs == old(dirs)
      else if old(factoryErr).Some? then r == Failed(old(factoryErr).value) && locks == old(locks) && dirs == old(dirs)
      else if !named && !old(IsNode(dirPath)) then r == Failed(Topo(NoNode)) && locks == old(locks) && dirs == old(dirs)
      else
        dirs == (if named && !old(IsNode(dirPath)) then old(dirs) + {dirPath} else old(dirs))
        && if dirPath in old(locks) then
             locks == old(locks) && r == (if ctxErr.Some? then Failed(ConvertError(ctxErr.value)) else Blocked)
           else
             locks == old(locks)[dirPath := contents] && r == Acquired(dirPath)
    }

    method LockNode(dirPath: Path, contents: string, named: bool, dialErr: Option<Error>, ctxErr: Option<Error>)
      returns (r: LockOutcome)
      modifies this
      ensures LockTaken(dirPath, contents, named, dialErr, ctxErr, r)
      ensures data == old(data) && factoryErr == old(factoryErr) && closed == old(closed)
    {
      if dialErr.Some? {
        return Failed(dialErr.value);
      }
      if factoryErr.Some? {
        return Failed(factoryErr.value);
      }
      if named {
        if !IsNode(dirPath) {
          dirs := dirs + {dirPath};
        }
      } else if !IsNode(dirPath) {
        return Failed(Topo(NoNode));
      }
      if dirPath in locks {
        if ctxErr.Some? {
          return Failed(ConvertError(ctxErr.value));
        }
        return Blocked;
      }
      locks := locks[dirPath := contents];
      return Acquired(dirPath);
    }

    /** TryLock: an injected TryLock fault, then NodeExists at once when the node is
        already locked (instead of waiting), then Lock. */
    method TryLock(dirPath: Path, contents: string, dialErr: Option<Error>, tryFault: Option<Error>,
                   lockFault: Option<Error>, ctxErr: Option<Error>)
      returns (r: LockOutcome)
      modifies this
      ensures r != Blocked
      ensures tryFault.Some? ==> r == Failed(tryFault.value) && locks == old(locks)
      ensures tryFault.None? && dialErr.Some? ==> r == Failed(dialErr.value) && locks == old(locks)
      ensures tryFault.None? && dialErr.None? && !old(IsNode(dirPath)) ==> r == Failed(Topo(NoNode)) && locks == old(locks)
      ensures tryFault.None? && dialErr.None? && old(IsNode(dirPath)) && dirPath in old(locks) ==>
        r == Failed(Topo(NodeExists)) && locks == old(locks)
      ensures r.Acquired? <==> tryFault.None? && dialErr.None? && lockFault.None? && old(factoryErr).None?
                                && old(IsNode(dirPath)) && dirPath !in old(locks)
      ensures tryFault.None? && dialErr.None? && old(IsNode(dirPath)) && dirPath !in old(locks) && lockFault.Some? ==>
        r == Failed(lockFault.value)
      ensures tryFault.None? && dialErr.None? && old(IsNode(dirPath)) && dirPath !in old(locks) && lockFault.None? && old(factoryErr).Some? ==>
        r == Failed(old(factoryErr).value)
      ensures r.Acquired? ==> locks == old(locks)[dirPath := contents]
      ensures !r.Acquired? ==> locks == old(locks)
      ensures data == old(data) && dirs == old(dirs) && factoryErr == old(factoryErr) && closed == old(closed)
    {
      if tryFault.Some? {
        return Failed(tryFault.value);
      }
      var held := CheckLockExistence(dirPath, dialErr);
      if held.Some? {
        return Failed(held.value);
      }
      r := Lock(dirPath, contents, dialErr, lockFault, ctxErr);
    }

    /** checkLockExistence for an unnamed lock: dialing, a missing node (NoNode),
        a held lock (NodeExists). */
    method CheckLockExistence(dirPath: Path, dialErr: Option<Error>) returns (r: Option<Error>)
      ensures dialErr.Some? ==> r == dialErr
      ensures dialErr.None? && !IsNode(dirPath) ==> r == Some(Topo(NoNode))
      ensures dialErr.None? && IsNode(dirPath) ==> (r == Some(Topo(NodeExists)) <==> dirPath in locks)
      ensures dialErr.None? && IsNode(dirPath) && dirPath !in locks ==> r == None
    {
      if dialErr.Some? {
        return dialErr;
      }
      if !IsNode(dirPath) {
        return Some(Topo(NoNode));
      }
      if dirPath in locks {
        return Some(Topo(NodeExists));
      }
      return None;
    }

    /** Unlock through a lock descriptor: refused on a closed connection, NoNode for
        a node that is gone, an error when the node is not locked; otherwise the
        lock is released. */
    method Unlock(dirPath: Path) returns (r: Option<Error>)
      modifies this
      ensures old(closed) ==> r == Some(ConnectionClosed)
      ensures !old(closed) && !old(IsNode(dirPath)) ==> r == Some(Topo(NoNode))
      ensures !old(closed) && old(IsNode(dirPath)) && dirPath !in old(locks) ==> r == Some(NotLocked)
      ensures r.None? <==> !old(closed) && old(IsNode(dirPath)) && dirPath in old(locks)
      ensures locks == if r.None? then old(locks) - {dirPath} else old(locks)
      ensures data == old(data) && dirs == old(dirs) && factoryErr == old(factoryErr) && closed == old(closed)
    {
      if closed {
        return Some(ConnectionClosed);
      }
      if !IsNode(dirPath) {
        return Some(Topo(NoNode));
      }
      if dirPath !in locks {
        return Some(NotLocked);
      }
      locks := locks - {dirPath};
      return None;
    }
  }

  /** Check on a lock descriptor: a lock of this backend is never lost. */
  function Check(held: LockOutcome): (r: Option<Error>)
    requires held.Acquired?
    ensures r.None?
  {
    None
  }

  /** A new entry for a name still to be listed keeps the listing's names distinct. */
  lemma AppendFresh(result: seq<DirEntry>, e: DirEntry, todo: set<string>, children: set<string>)
    requires e.name in todo && todo <= children
    requires DistinctKeys(result, EntryName)
    requires Elements(KeysOf(result, EntryName)) == children - todo
    ensures DistinctKeys(result + [e], EntryName)
    ensures Elements(KeysOf(result + [e], EntryName)) == children - (todo - {e.name})
  {
    forall i | 0 <= i < |result| ensures result[i].name != e.name {
      assert KeysOf(result, EntryName)[i] in Elements(KeysOf(result, EntryName));
    }
    assert KeysOf(result + [e], EntryName) == KeysOf(result, EntryName) + [e.name];
  }
}
