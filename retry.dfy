/** The read-modify-write loop behind every `Update*Fields` helper: read a
    record and its version, let the caller's update function change it, write
    it back on condition that the version is still the one read, and start
    over when the write fails with BadVersion.

    Two variants exist. Global records (cells, databases) check the context
    first, treat a missing file as an empty record to be created, and return
    read errors as they are. Cell records (multipoolers, multigateways) read
    through GetMultiPooler/GetMultiGateway, which wrap every error, write the
    updated record to the path of its own identifier, and hand the updated
    record back even when the write fails for a reason other than BadVersion.

    What the environment does during each pass is an `Attempt`: the error met
    before reading (the context's error, or ConnForCell's for cell records),
    faults injected into the Get and the Update, and a write by another client
    between our read and our write. A cell record whose update moves it to
    another cell is written through that cell's connection, to a store this
    model does not hold: what that write returns (ConnForCell's error or the
    Update's) is part of the attempt too. The loop runs one pass per attempt and
    reports `Unfinished` when the attempts run out while it would still retry. */
module Retry {
  import opened TopoErrors
  import opened Records
  import opened Paths
  import Kv
  import opened Memorytopo

  /** How one kind of record is stored: its encoding, decoding, the record a
      missing file stands for, the path of a record by its own identifier, and
      the cell whose store holds it (only cell records use the last two). */
  datatype Kind<!R> = Kind(encode: R -> Value, decode: Value -> Result<R>, empty: R, pathOf: R -> Path, cellOf: R -> string)

  /** Global records live in the global store; cell records are read from the store of `cell`. */
  datatype Style = GlobalRecord | CellRecord(cell: string)

  /** What the environment does during one pass. `elsewhere` is what the write
      returns when the updated record belongs to another cell. */
  datatype Attempt = Attempt(openErr: Option<Error>, getFault: Option<Error>, racer: Option<Value>, updateFault: Option<Error>,
                             elsewhere: Option<Error>)

  /** A pass in which nothing interferes. */
  const Quiet := Attempt(None, None, None, None, None)

  /** How the loop ended: the error it returns, the record it returns (cell
      records only), and how many times it called the update function. */
  datatype Outcome<R> = Finished(err: Option<Error>, record: Option<R>, calls: nat) | Unfinished

  datatype Ran<R> = Ran(outcome: Outcome<R>, data: Kv.Data)

  datatype Read<R> = Read(record: R, version: Option<nat>) | Fail(error: Error)

  /** One pass: either the loop ends (`Done`) or the write met BadVersion (`Again`). */
  datatype Step<R> = Done(err: Option<Error>, record: Option<R>, called: bool, data: Kv.Data) | Again(data: Kv.Data)

  /** GetMultiPooler and GetMultiGateway wrap every error they pass on. */
  function Lift(style: Style, e: Error): Error {
    if style.CellRecord? then Wrapped(e) else e
  }

  /** The first half of a pass: the record to update and the version to write against. */
  function ReadStage<R>(k: Kind<R>, style: Style, d: Kv.Data, p: Path, a: Attempt): Read<R> {
    if a.openErr.Some? then Fail(Lift(style, a.openErr.value))
    else match Kv.Get(d, p, a.getFault)
      case Ok(e) =>
        (match k.decode(e.value)
         case Ok(r) => Read(r, Some(e.version))
         case Err(err) => Fail(Lift(style, err)))
      case Err(err) =>
        if style.GlobalRecord? && Is(err, NoNode) then Read(k.empty, None)
        else Fail(Lift(style, err))
  }

  function WriteTarget<R>(k: Kind<R>, style: Style, p: Path, r: R): Path {
    if style.CellRecord? then k.pathOf(r) else p
  }

  /** Whether the updated record is written to the store it was read from:
      always for global records, and for cell records when its cell is unchanged. */
  predicate SameStore<R>(k: Kind<R>, style: Style, r: R) {
    style.GlobalRecord? || k.cellOf(r) == style.cell
  }

  function Pass<R>(k: Kind<R>, style: Style, p: Path, update: R -> Result<R>, d: Kv.Data, a: Attempt): Step<R> {
    match ReadStage(k, style, d, p, a)
    case Fail(e) => Done(Some(e), None, false, d)
    case Read(r, version) =>
      match update(r)
      case Err(e) => Done(if Is(e, NoUpdateNeeded) then None else Some(e), None, true, d)
      case Ok(changed) =>
        var d1 := if a.racer.Some? then Kv.Update(d, p, a.racer.value, None, None).data else d;
        WriteBack(k, style, p, changed, version, a, d1)
  }

  /** The second half of a pass: write the updated record at the version read, and
      start over on BadVersion. */
  function WriteBack<R>(k: Kind<R>, style: Style, p: Path, changed: R, version: Option<nat>, a: Attempt, d: Kv.Data): Step<R> {
    if !SameStore(k, style, changed) then
      if a.elsewhere.Some? && Is(a.elsewhere.value, BadVersion) then Again(d)
      else Done(a.elsewhere, Some(changed), true, d)
    else
      var w := Kv.Update(d, WriteTarget(k, style, p, changed), k.encode(changed), version, a.updateFault);
      if w.result.Err? && Is(w.result.error, BadVersion) then Again(w.data)
      else Done(if w.result.Err? then Some(w.result.error) else None,
                if style.CellRecord? then Some(changed) else None, true, w.data)
  }

  function AddCalls<R>(x: Ran<R>, n: nat): Ran<R> {
    if x.outcome.Finished? then x.(outcome := x.outcome.(calls := x.outcome.calls + n)) else x
  }

  /** The whole loop over a sequence of attempts. */
  function Run<R>(k: Kind<R>, style: Style, p: Path, update: R -> Result<R>, d: Kv.Data, env: seq<Attempt>): Ran<R>
    decreases |env|
  {
    if env == [] then Ran(Unfinished, d)
    else match Pass(k, style, p, update, d, env[0])
      case Done(err, record, called, d1) => Ran(Finished(err, record, if called then 1 else 0), d1)
      case Again(d1) => AddCalls(Run(k, style, p, update, d1, env[1..]), 1)
  }

  /** The retry loop itself, run against a connection. */
  method UpdateFields<R(==)>(conn: Conn, k: Kind<R>, style: Style, p: Path, update: R -> Result<R>, env: seq<Attempt>)
    returns (r: Outcome<R>)
    modifies conn
    ensures r == Run(k, style, p, update, old(conn.data), env).outcome
    ensures conn.data == Run(k, style, p, update, old(conn.data), env).data
    ensures conn.OnlyFilesChanged()
  {
    var i := 0;
    while i < |env|
      invariant 0 <= i <= |env|
      invariant Run(k, style, p, update, old(conn.data), env) == AddCalls(Run(k, style, p, update, conn.data, env[i..]), i)
      invariant conn.OnlyFilesChanged()
    {
      assert env[i..][0] == env[i] && env[i..][1..] == env[i + 1..];
      var step := Once(conn, k, style, p, update, env[i]);
      if step.Done? {
        return Finished(step.err, step.record, if step.called then i + 1 else i);
      }
      i := i + 1;
    }
    return Unfinished;
  }

  /** One pass of the loop against the connection: read, update, write back. */
  method Once<R(==)>(conn: Conn, k: Kind<R>, style: Style, p: Path, update: R -> Result<R>, a: Attempt)
    returns (step: Step<R>)
    modifies conn
    ensures step == Pass(k, style, p, update, old(conn.data), a)
    ensures conn.data == step.data
    ensures conn.OnlyFilesChanged()
  {
    ghost var d := conn.data;
    if a.openErr.Some? {
      return Done(Some(Lift(style, a.openErr.value)), None, false, conn.data);
    }
    var record: R;
    var version: Option<nat>;
    var got := Kv.Get(conn.data, p, a.getFault);
    if got.Ok? {
      var decoded := k.decode(got.value.value);
      if decoded.Err? {
        return Done(Some(Lift(style, decoded.error)), None, false, conn.data);
      }
      record, version := decoded.value, Some(got.value.version);
    } else if style.GlobalRecord? && Is(got.error, NoNode) {
      record, version := k.empty, None;
    } else {
      return Done(Some(Lift(style, got.error)), None, false, conn.data);
    }
    assert ReadStage(k, style, d, p, a) == Read(record, version);
    var updated := update(record);
    if updated.Err? {
      return Done(if Is(updated.error, NoUpdateNeeded) then None else Some(updated.error), None, true, conn.data);
    }
    if a.racer.Some? {
      var ignored := conn.Update(p, a.racer.value, None, None);
    }
    if !SameStore(k, style, updated.value) {
      if a.elsewhere.Some? && Is(a.elsewhere.value, BadVersion) {
        return Again(conn.data);
      }
      return Done(a.elsewhere, Some(updated.value), true, conn.data);
    }
    var written := conn.Update(WriteTarget(k, style, p, updated.value), k.encode(updated.value), version, a.updateFault);
    if written.Err? && Is(written.error, BadVersion) {
      return Again(conn.data);
    }
    return Done(if written.Err? then Some(written.error) else None,
                if style.CellRecord? then Some(updated.value) else None, true, conn.data);
  }

  /** Global records never hand a record back. */
  lemma {:induction false} GlobalRecordsReturnNoRecord<R>(k: Kind<R>, p: Path, update: R -> Result<R>, d: Kv.Data, env: seq<Attempt>)
    ensures Run(k, GlobalRecord, p, update, d, env).outcome.Finished? ==> Run(k, GlobalRecord, p, update, d, env).outcome.record.None?
    decreases |env|
  {
    if env != [] {
      match Pass(k, GlobalRecord, p, update, d, env[0])
      case Done(_, _, _, _) =>
      case Again(d1) => GlobalRecordsReturnNoRecord(k, p, update, d1, env[1..]);
    }
  }

  /** The stored value of a file, if any. */
  function Stored(d: Kv.Data, p: Path): Option<Value> {
    if p in d.files then Some(d.files[p].value) else None
  }

  /** With nothing interfering, an existing record is read, updated once and written back. */
  lemma UpdateExisting<R>(k: Kind<R>, style: Style, p: Path, update: R -> Result<R>, d: Kv.Data, env: seq<Attempt>)
    requires |env| > 0 && env[0] == Quiet
    requires p in d.files && k.decode(d.files[p].value).Ok?
    requires update(k.decode(d.files[p].value).value).Ok?
    requires style.CellRecord? ==> k.pathOf(update(k.decode(d.files[p].value).value).value) == p
    requires SameStore(k, style, update(k.decode(d.files[p].value).value).value)
    ensures var changed := update(k.decode(d.files[p].value).value).value;
      var ran := Run(k, style, p, update, d, env);
      ran.outcome == Finished(None, if style.CellRecord? then Some(changed) else None, 1)
      && Stored(ran.data, p) == Some(k.encode(changed))
  {
  }

  /** A missing global record is updated starting from the empty record, and written. */
  lemma UpdateMissingStartsEmpty<R>(k: Kind<R>, p: Path, update: R -> Result<R>, d: Kv.Data, env: seq<Attempt>)
    requires |env| > 0 && env[0] == Quiet
    requires p !in d.files && update(k.empty).Ok?
    ensures var ran := Run(k, GlobalRecord, p, update, d, env);
      ran.outcome == Finished(None, None, 1) && Stored(ran.data, p) == Some(k.encode(update(k.empty).value))
  {
  }

  /** An update function that fails stops the loop with nothing written: NoUpdateNeeded
      ends it without an error, any other error is returned as it came. */
  lemma UpdateErrorWritesNothing<R>(k: Kind<R>, style: Style, p: Path, update: R -> Result<R>, d: Kv.Data, env: seq<Attempt>)
    requires |env| > 0 && ReadStage(k, style, d, p, env[0]).Read?
    requires update(ReadStage(k, style, d, p, env[0]).record).Err?
    ensures var e := update(ReadStage(k, style, d, p, env[0]).record).error;
      var ran := Run(k, style, p, update, d, env);
      ran.data == d
      && ran.outcome == Finished(if Is(e, NoUpdateNeeded) then None else Some(e), None, 1)
  {
  }

  /** One BadVersion injected into the first write makes the loop read again and call
      the update function a second time, which then gets written. */
  lemma InjectedBadVersionRetries<R>(k: Kind<R>, style: Style, p: Path, update: R -> Result<R>, d: Kv.Data)
    requires p in d.files && k.decode(d.files[p].value).Ok?
    requires update(k.decode(d.files[p].value).value).Ok?
    requires style.CellRecord? ==> k.pathOf(update(k.decode(d.files[p].value).value).value) == p
    requires SameStore(k, style, update(k.decode(d.files[p].value).value).value)
    ensures var changed := update(k.decode(d.files[p].value).value).value;
      var ran := Run(k, style, p, update, d, [Attempt(None, None, None, Some(Topo(BadVersion)), None), Quiet]);
      ran.outcome == Finished(None, if style.CellRecord? then Some(changed) else None, 2)
      && Stored(ran.data, p) == Some(k.encode(changed))
  {
    var env := [Attempt(None, None, None, Some(Topo(BadVersion)), None), Quiet];
    assert env[1..] == [Quiet];
    assert Pass(k, style, p, update, d, env[0]) == Again(d);
    UpdateExisting(k, style, p, update, d, env[1..]);
  }

  /** No lost update: when another client writes an existing record between our read and
      our write, the write fails on the version, and the update function is applied again
      to what the other client wrote. */
  lemma {:induction false} RacingWriteNotLost<R>(k: Kind<R>, style: Style, p: Path, update: R -> Result<R>, d: Kv.Data, v: Value)
    requires Kv.Valid(d)
    requires p in d.files && k.decode(d.files[p].value).Ok? && update(k.decode(d.files[p].value).value).Ok?
    requires k.decode(v).Ok? && update(k.decode(v).value).Ok?
    requires style.CellRecord? ==> k.pathOf(update(k.decode(d.files[p].value).value).value) == p
    requires SameStore(k, style, update(k.decode(d.files[p].value).value).value)
    requires style.CellRecord? ==> k.pathOf(update(k.decode(v).value).value) == p
    requires SameStore(k, style, update(k.decode(v).value).value)
    ensures var changed := update(k.decode(v).value).value;
      var ran := Run(k, style, p, update, d, [Attempt(None, None, Some(v), None, None), Quiet]);
      ran.outcome == Finished(None, if style.CellRecord? then Some(changed) else None, 2)
      && Stored(ran.data, p) == Some(k.encode(changed))
  {
    var env := [Attempt(None, None, Some(v), None, None), Quiet];
    var read := d.files[p].version;
    var d1 := Kv.Update(d, p, v, None, None).data;
    assert d1.files[p].version == d.nextVersion != read;
    var changed := update(k.decode(d.files[p].value).value).value;
    assert Kv.Update(d1, p, k.encode(changed), Some(read), None).result == Err(Topo(BadVersion));
    assert Pass(k, style, p, update, d, env[0]) == Again(d1);
    assert env[1..] == [Quiet];
    UpdateExisting(k, style, p, update, d1, env[1..]);
  }

  /** A missing global record is written without a version, so a record another
      client creates between our read and our write is overwritten. */
  lemma MissingRecordOverwritesRacer<R>(k: Kind<R>, p: Path, update: R -> Result<R>, d: Kv.Data, v: Value)
    requires p !in d.files && update(k.empty).Ok?
    ensures var ran := Run(k, GlobalRecord, p, update, d, [Attempt(None, None, Some(v), None, None)]);
      ran.outcome == Finished(None, None, 1) && Stored(ran.data, p) == Some(k.encode(update(k.empty).value))
  {
  }

  /** For global records a pass with nothing interfering always ends the loop. */
  lemma QuietPassEnds<R>(k: Kind<R>, p: Path, update: R -> Result<R>, d: Kv.Data)
    ensures Pass(k, GlobalRecord, p, update, d, Quiet).Done?
  {
  }

  /** So a global-record loop finishes as soon as one pass is left alone. */
  lemma {:induction false} QuietAttemptFinishes<R>(k: Kind<R>, p: Path, update: R -> Result<R>, d: Kv.Data, env: seq<Attempt>)
    requires Quiet in env
    ensures Run(k, GlobalRecord, p, update, d, env).outcome.Finished?
    decreases |env|
  {
    if env[0] != Quiet {
      assert Quiet in env[1..] by {
        var j :| 0 <= j < |env| && env[j] == Quiet;
        assert env[1..][j - 1] == Quiet;
      }
      match Pass(k, GlobalRecord, p, update, d, env[0])
      case Done(_, _, _, _) =>
      case Again(d1) => QuietAttemptFinishes(k, p, update, d1, env[1..]);
    } else {
      QuietPassEnds(k, p, update, d);
    }
  }

  /** A pass only writes through Update, so the store stays valid. */
  lemma PassKeepsValid<R>(k: Kind<R>, style: Style, p: Path, update: R -> Result<R>, d: Kv.Data, a: Attempt)
    requires Kv.Valid(d)
    ensures Kv.Valid(Pass(k, style, p, update, d, a).data)
  {
    match ReadStage(k, style, d, p, a)
    case Fail(_) =>
    case Read(r, version) =>
      match update(r)
      case Err(_) =>
      case Ok(changed) =>
        var d1 := if a.racer.Some? then Kv.Update(d, p, a.racer.value, None, None).data else d;
        if a.racer.Some? {
          Kv.WritesKeepValid(d, p, a.racer.value, None, None);
        }
        WriteBackKeepsValid(k, style, p, changed, version, a, d1);
  }

  lemma WriteBackKeepsValid<R>(k: Kind<R>, style: Style, p: Path, changed: R, version: Option<nat>, a: Attempt, d: Kv.Data)
    requires Kv.Valid(d)
    ensures Kv.Valid(WriteBack(k, style, p, changed, version, a, d).data)
  {
    if SameStore(k, style, changed) {
      Kv.WritesKeepValid(d, WriteTarget(k, style, p, changed), k.encode(changed), version, a.updateFault);
    }
  }

  /** So does the whole loop. */
  lemma {:induction false} RunKeepsValid<R>(k: Kind<R>, style: Style, p: Path, update: R -> Result<R>, d: Kv.Data, env: seq<Attempt>)
    requires Kv.Valid(d)
    ensures Kv.Valid(Run(k, style, p, update, d, env).data)
    decreases |env|
  {
    if env != [] {
      PassKeepsValid(k, style, p, update, d, env[0]);
      match Pass(k, style, p, update, d, env[0])
      case Done(_, _, _, _) =>
      case Again(d1) => RunKeepsValid(k, style, p, update, d1, env[1..]);
    }
  }

  /** A cell-record update that moves the record, within its cell, to the path of
      another existing record writes there with the version read from the original,
      fails on the version every time, and never ends. */
  lemma {:induction false} MovedRecordRetriesForever<R>(k: Kind<R>, cell: string, p: Path, update: R -> Result<R>, d: Kv.Data, n: nat)
    requires Kv.Valid(d)
    requires p in d.files && k.decode(d.files[p].value).Ok? && update(k.decode(d.files[p].value).value).Ok?
    requires var changed := update(k.decode(d.files[p].value).value).value;
      k.cellOf(changed) == cell && k.pathOf(changed) != p && k.pathOf(changed) in d.files
    ensures Run(k, CellRecord(cell), p, update, d, seq(n, i => Quiet)) == Ran(Unfinished, d)
    decreases n
  {
    var env := seq(n, i => Quiet);
    if n > 0 {
      var changed := update(k.decode(d.files[p].value).value).value;
      var q := k.pathOf(changed);
      assert d.files[q].version != d.files[p].version;
      assert env[0] == Quiet;
      assert Pass(k, CellRecord(cell), p, update, d, Quiet) == Again(d);
      assert env[1..] == seq(n - 1, i => Quiet);
      MovedRecordRetriesForever(k, cell, p, update, d, n - 1);
    }
  }

  /** An update that moves a cell record to another cell writes nothing to the store
      it was read from; the loop ends with whatever the other cell's write returned,
      handing back the updated record, unless that was BadVersion. */
  lemma MovedToOtherCellEnds<R>(k: Kind<R>, cell: string, p: Path, update: R -> Result<R>, d: Kv.Data, env: seq<Attempt>)
    requires |env| > 0 && env[0].openErr.None? && env[0].getFault.None? && env[0].racer.None?
    requires p in d.files && k.decode(d.files[p].value).Ok? && update(k.decode(d.files[p].value).value).Ok?
    requires k.cellOf(update(k.decode(d.files[p].value).value).value) != cell
    requires !(env[0].elsewhere.Some? && Is(env[0].elsewhere.value, BadVersion))
    ensures var ran := Run(k, CellRecord(cell), p, update, d, env);
      ran.data == d
      && ran.outcome == Finished(env[0].elsewhere, Some(update(k.decode(d.files[p].value).value).value), 1)
  {
  }
}
