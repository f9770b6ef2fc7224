/** The versioned file store behind a topology connection: Get, Create, Update
    and Delete on paths, each write giving the file a fresh version. This is the
    contract every backend's Conn keeps; the in-memory backend keeps it in a
    map. A `fault` is the error the backend's fault injection returns for this
    call instead of performing it. */
module Kv {
  import opened TopoErrors
  import opened Records
  import opened Paths

  datatype Entry = Entry(value: Value, version: nat)

  /** The files of one cell and the version the next write will carry. */
  datatype Data = Data(files: map<Path, Entry>, nextVersion: nat)

  /** One record as a backend's List call returns it: the file's value and version.
      The order of a listing is the backend's. */
  datatype ListEntry = ListEntry(value: Value, version: nat)

  /** What a write returned, and the files afterwards. */
  datatype Written<T> = Written(result: Result<T>, data: Data)

  /** Every file's version was handed out before, and each version went to one
      file only: a fresh version is never stale, and the version read from one
      file never matches another. */
  ghost predicate Valid(d: Data) {
    && (forall p :: p in d.files ==> d.files[p].version < d.nextVersion)
    && (forall p, q :: p in d.files && q in d.files && p != q ==> d.files[p].version != d.files[q].version)
  }

  const Empty := Data(map[], 1)

  /** The file with its value and version; NoNode when there is none. */
  function Get(d: Data, p: Path, fault: Option<Error>): (r: Result<Entry>)
    ensures fault.Some? ==> r == Err(fault.value)
    ensures fault.None? ==> (r.Ok? <==> p in d.files)
    ensures fault.None? && r.Ok? ==> r.value == d.files[p]
    ensures fault.None? && r.Err? ==> r.error == Topo(NoNode)
  {
    if fault.Some? then Err(fault.value)
    else if p in d.files then Ok(d.files[p])
    else Err(Topo(NoNode))
  }

  function Put(d: Data, p: Path, v: Value): Data {
    Data(d.files[p := Entry(v, d.nextVersion)], d.nextVersion + 1)
  }

  /** Create fails with NodeExists on an existing file. */
  function Create(d: Data, p: Path, v: Value, fault: Option<Error>): Written<nat> {
    if fault.Some? then Written(Err(fault.value), d)
    else if p in d.files then Written(Err(Topo(NodeExists)), d)
    else Written(Ok(d.nextVersion), Put(d, p, v))
  }

  /** Update with no version writes unconditionally (creating the file if need be);
      with a version, the file must exist and still carry that version. */
  function Update(d: Data, p: Path, v: Value, version: Option<nat>, fault: Option<Error>): Written<nat> {
    if fault.Some? then Written(Err(fault.value), d)
    else if version.None? then Written(Ok(d.nextVersion), Put(d, p, v))
    else if p !in d.files then Written(Err(Topo(NoNode)), d)
    else if d.files[p].version != version.value then Written(Err(Topo(BadVersion)), d)
    else Written(Ok(d.nextVersion), Put(d, p, v))
  }

  /** Delete of a missing file fails with NoNode, with a stale version with BadVersion. */
  function Delete(d: Data, p: Path, version: Option<nat>, fault: Option<Error>): Written<()> {
    if fault.Some? then Written(Err(fault.value), d)
    else if p !in d.files then Written(Err(Topo(NoNode)), d)
    else if version.Some? && d.files[p].version != version.value then Written(Err(Topo(BadVersion)), d)
    else Written(Ok(()), Data(d.files - {p}, d.nextVersion))
  }

  /** Every write keeps the store valid, succeeds only by writing, and fails only by
      changing nothing. */
  lemma WritesKeepValid(d: Data, p: Path, v: Value, version: Option<nat>, fault: Option<Error>)
    requires Valid(d)
    ensures Valid(Create(d, p, v, fault).data)
    ensures Valid(Update(d, p, v, version, fault).data)
    ensures Valid(Delete(d, p, version, fault).data)
    ensures Create(d, p, v, fault).result.Err? ==> Create(d, p, v, fault).data == d
    ensures Update(d, p, v, version, fault).result.Err? ==> Update(d, p, v, version, fault).data == d
    ensures Delete(d, p, version, fault).result.Err? ==> Delete(d, p, version, fault).data == d
  {
    PutKeepsValid(d, p, v);
  }

  /** A write hands out a version no file has. */
  lemma PutKeepsValid(d: Data, p: Path, v: Value)
    requires Valid(d)
    ensures Valid(Put(d, p, v))
  {
    var d1 := Put(d, p, v);
    forall q, r | q in d1.files && r in d1.files && q != r
      ensures d1.files[q].version != d1.files[r].version
    {
      if q == p {
        assert d1.files[r] == d.files[r];
      } else if r == p {
        assert d1.files[q] == d.files[q];
      }
    }
  }

  /** A created file reads back with the value written and the version Create returned. */
  lemma CreateThenGet(d: Data, p: Path, v: Value)
    requires p !in d.files
    ensures Create(d, p, v, None).result.Ok?
    ensures Get(Create(d, p, v, None).data, p, None) == Ok(Entry(v, Create(d, p, v, None).result.value))
  {
  }

  /** A successful Update gives the file a version it did not have, and the new value reads back. */
  lemma UpdateNewVersion(d: Data, p: Path, v: Value, version: Option<nat>)
    requires Valid(d)
    requires Update(d, p, v, version, None).result.Ok?
    ensures var w := Update(d, p, v, version, None);
      Get(w.data, p, None) == Ok(Entry(v, w.result.value))
      && (p in d.files ==> w.result.value != d.files[p].version)
  {
  }

  /** Once a file was updated, writing with the version read before fails with
      BadVersion and leaves the store alone; a write with no version still succeeds. */
  lemma StaleVersionRejected(d: Data, p: Path, v1: Value, v2: Value)
    requires Valid(d) && p in d.files
    ensures var read := d.files[p].version;
      var d1 := Update(d, p, v1, Some(read), None).data;
      Update(d1, p, v2, Some(read), None) == Written(Err(Topo(BadVersion)), d1)
      && Delete(d1, p, Some(read), None) == Written(Err(Topo(BadVersion)), d1)
      && Update(d1, p, v2, None, None).result.Ok?
  {
  }

  /** After a Delete the file is gone: reading or deleting it again gives NoNode,
      and writing it with no version creates it anew. */
  lemma DeleteThenGone(d: Data, p: Path, version: Option<nat>, v: Value)
    requires Delete(d, p, version, None).result.Ok?
    ensures var d1 := Delete(d, p, version, None).data;
      Get(d1, p, None) == Err(Topo(NoNode))
      && Delete(d1, p, version, None).result == Err(Topo(NoNode))
      && Get(Update(d1, p, v, None, None).data, p, None).Ok?
  {
  }

  /** Writes to one file leave every other file as it was. */
  lemma WritesAreLocal(d: Data, p: Path, q: Path, v: Value, version: Option<nat>)
    requires p != q
    ensures Get(Create(d, p, v, None).data, q, None) == Get(d, q, None)
    ensures Get(Update(d, p, v, version, None).data, q, None) == Get(d, q, None)
    ensures Get(Delete(d, p, version, None).data, q, None) == Get(d, q, None)
  {
  }
}
