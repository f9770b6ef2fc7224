# Multigres topology layer in Dafny

This project models the topology layer of multigres. The topology is the versioned, hierarchical
file store in which a multigres cluster keeps its metadata:

- The global topology holds the `cells/<name>/Cell` and `databases/<name>/Database` records.
- Each cell's own topology holds `poolers/<cell>-<uid>/Pooler` and `gateways/<id>/<file>` records.

The model covers these parts:

- **The backend contract.** Get, Create, Update and Delete with versions, in module `Kv`.
- **The in-memory backend's directory listing and locks.** Class `Memorytopo.Conn`.
- **The read-modify-write retry loop.** Every `Update*Fields` helper runs it (module `Retry`).
- **The cell and database operations.** Modules `Cells` and `Databases`.
- **The multipooler and multigateway operations.** Modules `MultiPoolers` and `MultiGateways`.
- **The store.** The global connection, the cache of cell connections and `Close`, in class `Store.TopoStore`. The implementation registry is class `Store.Registry`.
- **Shared helpers.** `ComponentTypeToString`, `RandomString`, the identifier strings and `Addr`.

Some of the Go code's dependencies arrive as explicit parameters:

| parameter | what it stands for |
|---|---|
| `ctxErr` | a context that is already done |
| `connErr` | the error `ConnForCell` returned |
| `dialErr` | the backend's dial error |
| `fault` | an error injected into a backend operation |
| `created` | the result of `Factory.Create` |
| `listed` | the result of the backend's `List` |
| `read` | what `GetMultiPooler` returns for each id |
| `words` | the random generator's output |
| `env` | one `Attempt` per retry pass: what interferes with that pass, and what a write to another cell returns |

Errors are modelled as a datatype:

- `Wrapped(e)` is `mterrors.Wrap` or `fmt.Errorf("%w")`. `errors.Is` looks through it (`TopoErrors.Is`).
- `Formatted(es)` is `fmt.Errorf("%v")`. It keeps the causes only as text.
- Message texts are not modelled.

## Model

| member | source | states |
|---|---|---|
| Text.DecimalRoundTrip | go/clustermetadata/topo/multipooler.go:133-135 | the `%d` rendering of a uid reads back as the same number |
| Text.DecimalInjective | go/clustermetadata/topo/multipooler.go:133-135 | two uids print the same exactly when they are equal |
| Text.ToLowerIdempotent | go/clustermetadata/topo/utils.go:29-36 | lower-casing twice is lower-casing once; no upper-case ASCII letter is left |
| TopoErrors.IsSeesThroughWrapping | go/clustermetadata/topo/multipooler.go:153-173 | any depth of `mterrors.Wrap` keeps a TopoError code visible to `errors.Is` |
| Paths.SegmentsRender | go/clustermetadata/topo/cell.go:41-43 | splitting a joined path again gives back its parts |
| Paths.SegmentsJoin | go/clustermetadata/topo/database.go:32-34 | joining two strings with a slash concatenates their path parts |
| Paths.Under | go/clustermetadata/topo/database.go:32-34 | `path.Join(dir, name, file)` is the directory, then the parts of the name, then the file |
| Records.AddrOf | go/clustermetadata/topo/multipooler.go:103-109 | the address is the host name alone without a "grpc" port, otherwise the host name and a colon followed by the port |
| Records.AddrPortRoundTrip | go/clustermetadata/topo/multigateway.go:64-70 | the text after `host:` is the decimal grpc port and parses back to it |
| Kv.Get | go/clustermetadata/topo/test/file.go:57-59 | a missing file reads as NoNode; a present one gives its value and version; an injected fault is returned as is |
| Kv.WritesKeepValid | go/clustermetadata/topo/test/file.go:78-87 | every write keeps the store valid: each version is below the next one to be handed out, and no two files share a version (an assumption about the backend's version counter, see "## Left out"); a failed write changes nothing |
| Kv.CreateThenGet | go/clustermetadata/topo/test/file.go:61-76 | a created file reads back with its value and the version Create returned |
| Kv.UpdateNewVersion | go/clustermetadata/topo/test/file.go:78-87 | a successful Update stores the value under a version the file did not have |
| Kv.StaleVersionRejected | go/clustermetadata/topo/test/file.go:89-113 | after an update, Update and Delete with the old version fail with BadVersion and change nothing; Update with no version still succeeds |
| Kv.DeleteThenGone | go/clustermetadata/topo/test/file.go:115-135 | a deleted file reads as NoNode, deleting it again gives NoNode, and an unconditional Update recreates it |
| Memorytopo.ConvertError | go/clustermetadata/topo/memorytopo/lock.go:26-34 | a cancelled context becomes Interrupted, an expired deadline becomes Timeout, and every other error is unchanged |
| Memorytopo.ConvertErrorHidesContext | go/clustermetadata/topo/memorytopo/lock.go:26-34 | no raw context error survives the conversion |
| Memorytopo.Conn.ListDir | go/clustermetadata/topo/memorytopo/directory.go:27-75 | errors in the backend's order: dial, factory error, fault, NoNode, not a directory. Otherwise the entries are exactly the children, sorted by name and unique, typed and marked ephemeral when `full` |
| Memorytopo.Conn.CollectChildren | go/clustermetadata/topo/memorytopo/directory.go:57-72 | the loop yields one correctly filled entry for each child name |
| Memorytopo.Conn.Lock | go/clustermetadata/topo/memorytopo/lock.go:90-101 | an injected fault comes first; otherwise the outcome and the new locks are as LockTaken states them |
| Memorytopo.Conn.LockName | go/clustermetadata/topo/memorytopo/lock.go:119-122 | a named lock creates its directory when missing and then locks it |
| Memorytopo.Conn.LockNode | go/clustermetadata/topo/memorytopo/lock.go:125-177 | dial or factory error; NoNode for a missing unnamed node. A free node is locked with the contents; a held one waits until the context ends (Interrupted or Timeout) |
| Memorytopo.Conn.TryLock | go/clustermetadata/topo/memorytopo/lock.go:43-58 | never waits. The TryLock fault, then the dial error, then NoNode, then NodeExists at once for a held node, then the Lock fault, then the factory error. The lock is acquired exactly when nothing fails and the node exists unlocked; otherwise the locks are unchanged |
| Memorytopo.Conn.CheckLockExistence | go/clustermetadata/topo/memorytopo/lock.go:62-87 | dial error, then NoNode, then NodeExists exactly when the node is locked |
| Memorytopo.Conn.Unlock | go/clustermetadata/topo/memorytopo/lock.go:186-209 | refused on a closed connection, NoNode for a missing node, an error when not locked; otherwise exactly this lock is released |
| Memorytopo.Check | go/clustermetadata/topo/memorytopo/lock.go:181-183 | a held lock of this backend is never reported lost |
| Sorting.SortBy | go/clustermetadata/topo/multipooler.go:275-277 | the result is a permutation of the ids, ordered by identifier string |
| Sorting.SortByDistinctKeys | go/clustermetadata/topo/memorytopo/directory.go:73 | sorting entries with distinct names lists the names as the strictly ascending order of their set |
| Sorting.StrictlySortedUnique | go/clustermetadata/topo/memorytopo/directory.go:73 | two strictly increasing lists with the same strings are equal, so the sorted listing is determined |
| Utils.ComponentTypeToString | go/clustermetadata/topo/utils.go:29-36 | a listed component gives its lower-cased enum name; any other value gives "unknown" |
| Utils.RandomString | go/clustermetadata/topo/utils.go:64-83 | the result is the first n kept characters of the five-bit indices of the words; None exactly when the words do not yield n. A result of n characters needs at least n / 12 words |
| Utils.KeptInAlphabet | go/clustermetadata/topo/utils.go:46-56 | every generated character is from the consonant-and-digit alphabet |
| Utils.FullWord | go/clustermetadata/topo/utils.go:64-83 | a word whose twelve indices all fall in the alphabet yields twelve characters |
| Retry.UpdateFields | go/clustermetadata/topo/cell.go:105-145 | the loop's result and the files afterwards are those of the specification `Run` over the attempts |
| Retry.Once | go/clustermetadata/topo/cell.go:108-143 | one pass of the loop yields the specification's `Pass` step over the files it started from, and leaves exactly that step's files behind |
| Retry.GlobalRecordsReturnNoRecord | go/clustermetadata/topo/database.go:96-135 | the global-record loop never returns a record |
| Retry.UpdateExisting | go/clustermetadata/topo/multipooler.go:330-346 | with nothing interfering, an existing record is updated once and stored; cell records also return the updated record |
| Retry.UpdateMissingStartsEmpty | go/clustermetadata/topo/cell.go:115-124 | a missing global record is updated from the empty record and created |
| Retry.UpdateErrorWritesNothing | go/clustermetadata/topo/cell.go:127-133 | an update function error stops the loop with nothing written: NoUpdateNeeded gives no error, any other error is returned |
| Retry.InjectedBadVersionRetries | go/clustermetadata/topo/cell_test.go:178-194 | one injected BadVersion makes the loop call the update function twice, and the second result is stored |
| Retry.RacingWriteNotLost | go/clustermetadata/topo/cell.go:140-143 | when another client writes between read and write, our write fails on the version and the update is reapplied to the other client's record |
| Retry.MissingRecordOverwritesRacer | go/clustermetadata/topo/cell.go:121-143 | a missing global record is written with no version, so a record created meanwhile is overwritten |
| Retry.QuietAttemptFinishes | go/clustermetadata/topo/cell.go:105-145 | a global-record loop ends once one pass is left alone |
| Retry.RunKeepsValid | go/clustermetadata/topo/cell.go:105-145 | the retry loop keeps the store's versions valid |
| Retry.MovedRecordRetriesForever | go/clustermetadata/topo/multipooler.go:330-346 | an update that gives a pooler the uid of another existing pooler in the same cell fails on the version every pass and never ends |
| Retry.MovedToOtherCellEnds | go/clustermetadata/topo/multipooler.go:304-346 | an update that moves a record to another cell writes through that cell's connection: nothing changes in the cell it was read from, and unless that write returns BadVersion the loop ends with its error and the updated record |
| Databases.DatabasePathLayout | go/clustermetadata/topo/database.go:32-34 | a plain name is stored at `databases/<name>/Database` |
| Databases.DatabasePathsDistinct | go/clustermetadata/topo/database.go:32-34 | different names are stored in different files of the databases directory |
| Databases.GetDatabaseNames | go/clustermetadata/topo/database.go:38-51 | the context error first; a listing failure other than NoNode is returned; otherwise the strictly sorted names of the directory's children, none for a missing directory |
| Databases.GetDatabase | go/clustermetadata/topo/database.go:54-72 | the stored record when the file holds a database; NoNode when missing; the context error first |
| Databases.CreateDatabase | go/clustermetadata/topo/database.go:75-89 | the backend Create at the database's path; its error is returned |
| Databases.CreateDatabaseThenGet | go/clustermetadata/topo/database.go:75-89 | a created database reads back as written; creating it again gives NodeExists |
| Databases.UpdateDatabaseFields | go/clustermetadata/topo/database.go:96-135 | the global-record retry loop on the database's path |
| Databases.DeleteDatabase | go/clustermetadata/topo/database.go:140-149 | an unconditional delete at the database's path; `force` changes nothing |
| Databases.DatabasesIndependent | go/clustermetadata/topo/database.go:140-149 | deleting or updating one database leaves every other one as it was |
| Cells.CellPathLayout | go/clustermetadata/topo/cell.go:41-43 | a plain cell name is stored at `cells/<name>/Cell` |
| Cells.CellAndDatabasePathsDiffer | go/clustermetadata/topo/cell.go:41-43 | cell and database records never share a file |
| Cells.GetCellNames | go/clustermetadata/topo/cell.go:47-60 | the context error first; a listing failure other than NoNode is returned; otherwise the strictly sorted names of the directory's children, none for a missing directory |
| Cells.GetCell | go/clustermetadata/topo/cell.go:63-81 | the stored record when the file holds a cell; NoNode when missing; the context error first |
| Cells.CreateCell | go/clustermetadata/topo/cell.go:84-98 | the backend Create at the cell's path; its error is returned |
| Cells.UpdateCellFields | go/clustermetadata/topo/cell.go:105-145 | the global-record retry loop on the cell's path |
| Cells.FirstProblemNone | go/clustermetadata/topo/cell.go:150-177 | the reference scan passes exactly when every database can be read and none lists the cell |
| Cells.FirstProblemReference | go/clustermetadata/topo/cell.go:162-172 | NodeNotEmpty is reported only for a real reference |
| Cells.DeleteCell | go/clustermetadata/topo/cell.go:150-177 | unless forced: a listing error, the backend's factory error included, is returned with nothing deleted; the first unreadable database gives a wrapped error; the first referencing one gives NodeNotEmpty. Otherwise an unconditional delete |
| Cells.CheckReferences | go/clustermetadata/topo/cell.go:162-172 | the check over the listed database names reports exactly the specification's first problem: an unreadable database or one that lists the cell |
| Cells.DeleteCellLeavesDatabases | go/clustermetadata/topo/cell.go:150-177 | deleting a cell leaves every database record untouched |
| MultiPoolers.PoolerTypeRules | go/clustermetadata/topo/multipooler.go:34-71 | trivial change iff REPLICA to REPLICA; serving iff running the query service; replica type iff not PRIMARY |
| MultiPoolers.NewMultiPooler | go/clustermetadata/topo/multipooler.go:74-84 | the new record holds the pooler's identity and host, an empty port map and nothing else |
| MultiPoolers.IDStringSplits | go/clustermetadata/topo/multipooler.go:133-135 | the identifier string splits at its last dash into the cell and the decimal uid |
| MultiPoolers.IDStringInjective | go/clustermetadata/topo/multipooler.go:133-135 | two poolers share an identifier string iff they share cell and uid |
| MultiPoolers.IDStringExamples | go/clustermetadata/topo/multipooler_test.go:376-385 | zone1/100 gives "zone1-100"; prod/0 gives "prod-0" |
| MultiPoolers.InfoString | go/clustermetadata/topo/multipooler.go:93-95 | the identifier string inside "MultiPooler{" and "}" |
| MultiPoolers.IDStringIsSegment | go/clustermetadata/topo/multipooler.go:133-135 | an identifier string has no slash when the cell name has none |
| MultiPoolers.PoolerPathsDistinct | go/clustermetadata/topo/multipooler.go:349-365 | a pooler is stored at `poolers/<cell>-<uid>/Pooler`, and different poolers in different files |
| MultiPoolers.GetMultiPooler | go/clustermetadata/topo/multipooler.go:153-173 | the stored record with its version; a missing record gives wrapped NoNode; every error comes back wrapped |
| MultiPoolers.CreateMultiPooler | go/clustermetadata/topo/multipooler.go:349-365 | the backend Create at the pooler's path, after the connection error |
| MultiPoolers.DeleteMultiPooler | go/clustermetadata/topo/multipooler.go:368-380 | an unconditional delete at the pooler's path |
| MultiPoolers.UpdateMultiPooler | go/clustermetadata/topo/multipooler.go:304-322 | a conditional Update at the version read; on success the info carries the new version |
| MultiPoolers.UpdateAtReadVersion | go/clustermetadata/topo/multipooler.go:304-322 | writing at the version read succeeds and reads back; writing again at that version gives BadVersion |
| MultiPoolers.UpdateMultiPoolerFields | go/clustermetadata/topo/multipooler.go:330-346 | the cell-record retry loop on the pooler's record, read from the pooler's cell and written to the cell of the updated record |
| MultiPoolers.InitMultiPooler | go/clustermetadata/topo/multipooler.go:479-503 | Create first. Only NodeExists with `allowUpdate` goes on to read the existing record. A database or shard change is refused with the data unchanged; otherwise the record is overwritten at the version read. Read and write errors come back formatted |
| MultiPoolers.InitOutcomes | go/clustermetadata/topo/multipooler.go:479-503 | a missing pooler is created; an existing one gives NodeExists; overwriting at the version read stores exactly the new record |
| MultiPoolers.FiltersAgreeOnDatabase | go/clustermetadata/topo/multipooler.go:246-261 | the List-path filter and the map filter agree when a database is named; with only a shard, the List path keeps everything |
| MultiPoolers.ListSelectIsFilter | go/clustermetadata/topo/multipooler.go:246-261 | the List path keeps, in order, exactly the listed records that pass the filter, each with its own version |
| MultiPoolers.GetMultiPoolersByCell | go/clustermetadata/topo/multipooler.go:222-262 | NoImplementation or ResourceExhausted falls back to the one-by-one read; NoNode gives an empty result; any decode failure fails the call; otherwise the filtered listing |
| MultiPoolers.GetMultiPoolerMap | go/clustermetadata/topo/multipooler.go:387-427 | every map entry is a read of one of the ids that passes the filter; every such read has an entry. PartialResult iff some read failed other than with NoNode |
| MultiPoolers.GetMultiPoolersIndividuallyByCell | go/clustermetadata/topo/multipooler.go:269-301 | an id listing error is returned. Otherwise the records are read for all ids and listed in identifier-string order, skipping missing ones, with PartialResult beside them |
| MultiPoolers.CollectPresent | go/clustermetadata/topo/multipooler.go:288-298 | the records of the map for the ids in order, skipping ids it lacks |
| MultiPoolers.SameIdsSameReads | go/clustermetadata/topo/multipooler.go:275-281 | reading the ids in sorted order gives the same map as in any order |
| MultiPoolers.IndividuallyInIdOrder | go/clustermetadata/topo/multipooler.go:275-298 | the records come in non-decreasing identifier-string order |
| MultiGateways.NewMultiGateway | go/clustermetadata/topo/multigateway.go:32-45 | a given name is kept. An empty name is replaced by eight characters of the random alphabet. Identity, host and an empty port map are set |
| MultiGateways.GatewayComponentName | go/clustermetadata/topo/utils.go:29-36 | the gateway component prints as "multigateway" |
| MultiGateways.IDStringExamples | go/clustermetadata/topo/multigateway_test.go:223-237 | zone1/100 gives "multigateway-zone1-100"; prod/sleepy gives "multigateway-prod-sleepy" |
| MultiGateways.IDStringInjectiveInCell | go/clustermetadata/topo/multigateway.go:84-86 | in one cell, gateways share an identifier string iff they share a name |
| MultiGateways.IDStringAmbiguousAcrossCells | go/clustermetadata/topo/multigateway.go:84-86 | across cells the string is ambiguous when names hold dashes |
| MultiGateways.InfoString | go/clustermetadata/topo/multigateway.go:54-56 | the identifier string inside "MultiGateway{" and "}" |
| MultiGateways.GetMultiGateway | go/clustermetadata/topo/multigateway.go:89-109 | the stored record with its version; a missing record gives wrapped NoNode; every error comes back wrapped |
| MultiGateways.CreateMultiGateway | go/clustermetadata/topo/multigateway.go:217-233 | the backend Create at the gateway's path, after the connection error |
| MultiGateways.DeleteMultiGateway | go/clustermetadata/topo/multigateway.go:236-248 | an unconditional delete at the gateway's path |
| MultiGateways.UpdateMultiGateway | go/clustermetadata/topo/multigateway.go:172-190 | a conditional Update at the version read; on success the info carries the new version |
| MultiGateways.UpdateMultiGatewayFields | go/clustermetadata/topo/multigateway.go:198-214 | the cell-record retry loop on the gateway's record, read from the gateway's cell and written to the cell of the updated record |
| MultiGateways.InitMultiGateway | go/clustermetadata/topo/multigateway.go:252-268 | as for poolers, but an existing record is overwritten with no database or shard check |
| MultiGateways.InitOutcomes | go/clustermetadata/topo/multigateway.go:252-268 | a missing gateway is created; an existing one gives NodeExists; overwriting stores exactly the new record |
| MultiGateways.ListingError | go/clustermetadata/topo/multigateway.go:151-158 | a missing gateways directory gives no error; any other listing error is returned |
| MultiGateways.GetMultiGatewaysByCell | go/clustermetadata/topo/multigateway.go:146-169 | one info per listed record, in order, with its version; a decode failure fails the call |
| MultiGateways.GetMultiGatewayIDsByCell | go/clustermetadata/topo/multigateway.go:114-140 | one id per listed record, taken from the decoded record; a decode failure fails the call |
| Store.JoinedComparison | go/clustermetadata/topo/store.go:320-331 | addresses are compared joined, so ["a,b"] and ["a","b"] are the same configuration |
| Store.FactoryError | go/clustermetadata/topo/store.go:343-356 | a NoNode factory failure becomes a fresh NoNode; anything else is wrapped, keeping its codes |
| Store.LookupRules | go/clustermetadata/topo/store.go:315-356 | the cached connection is returned iff the configuration is unchanged. Otherwise the old one is closed, and the new one is cached only on success. Other cells are untouched |
| Store.LookupCaches | go/clustermetadata/topo/store.go:319-333 | a second lookup with the same cell record returns the first connection without the factory |
| Store.ClosedNeverReturned | go/clustermetadata/topo/store.go:334-356 | with eviction, the cache never holds a closed connection and a lookup never returns one |
| Store.StaleClosedConnReturned | go/clustermetadata/topo/store.go:334-356 | as written, after a failed factory call and a configuration that changes back, the closed connection is returned |
| Store.TopoStore.ConnForCell | go/clustermetadata/topo/store.go:303-357 | the context error first; the global connection for the global cell; otherwise the cell record is read and the cache rules applied. The replaced connection is closed, and a cached connection that is not replaced is left untouched |
| Store.TopoStore.Close | go/clustermetadata/topo/store.go:362-394 | every connection is closed and dropped. An error is returned iff some close failed; its causes are exactly the wrapped failures |
| Store.CloseCellConns | go/clustermetadata/topo/store.go:377-383 | every cached connection is closed; the failures reported are exactly those of the cached cells, each wrapped |
| Store.NewWithFactory | go/clustermetadata/topo/store.go:253-266 | a factory failure is returned; otherwise a fresh store on the global connection with an empty cache |
| Store.Registry.RegisterFactory | go/clustermetadata/topo/store.go:244-249 | a new name is added to the registry |
| Store.Registry.OpenServer | go/clustermetadata/topo/store.go:270-276 | NoImplementation for an unregistered name; otherwise NewWithFactory |

## Left out

- ParseMultiPoolerID: not modelled. Identifiers are datatypes. `IDStringSplits` is this model's own split of the identifier string, not the behaviour of ParseMultiPoolerID. That function parses with `fmt.Sscanf("%s-%d")`, where `%s` reads up to white space and so takes the dash and the uid too; read by those rules it rejects every identifier string (not executed).
- GetMultiPoolerIDsByCell: not modelled. It lists the poolers directory (modelled as `Conn.ListDir`) and parses each name with ParseMultiPoolerID. The parameter `ids` of `GetMultiPoolersIndividuallyByCell` stands for its intended result, which, read as above, the code as written does not produce for a cell holding any pooler (not executed).
- GetMultiPoolerList and ValidateMultiPooler: not modelled. They are not used by the operations above.
- MultiPoolers.GetMultiPoolerMap: reads the ids one after another. The source reads them in concurrent goroutines, which the model does not capture. The result is the same because each read is independent.
- Nil identifiers and nil options are not modelled. Absent options are `None`.
- Memorytopo.Conn.LockNode: a held lock is waited for until the context ends (`Blocked`). Release by another client and watches are not modelled.
- Memorytopo.Conn.Lock: `LockWithTTL` (lock.go:105-116) behaves as `Lock`, because the backend ignores the TTL; it is not modelled separately.
- The backend's dialing and fault-injection machinery is not modelled. They arrive as `dialErr` and `fault`.
- Protobuf encoding is not modelled. A file holds the record itself, and a record of the wrong kind fails to decode.
- Utils.RandomString: the generator's seeding and locking are not modelled. Its output is the parameter `words`. When the words run out it returns None, where the source would draw more.
- `Open()` (store.go:281-299) reads command-line flags and exits the process; it is not modelled.
- Error message texts are not modelled, and neither is the order of errors in `Close`'s combined error (it follows map iteration).
- `path.Join` cleaning of `.` and `..` is not modelled. A path is the list of its non-empty parts.
- Pooler, gateway and cell operations receive `ConnForCell`'s outcome as `connErr` and the cell's connection as `conn`, rather than calling `ConnForCell` themselves.
- MultiPoolers.UpdateMultiPooler: returns the updated info instead of assigning the version in place.
- MultiGateways.UpdateMultiGateway: returns the updated info instead of assigning `mgi.version` in place (multigateway.go:186).
- Retry.Pass: a cell record whose update moves it to another cell is written through that cell's connection. The model does not hold that cell's store: the write's result is the attempt's `elsewhere`, and the files of that store are not tracked.
- Kv.Valid: that no two files share a version is an assumption about the backend's version counter. The backend's file operations are not part of this model. The conformance test only checks that one file's version changes.
- The file name of gateway records and the name of the elections directory are not part of this model's sources. `Paths.GatewayFile` and `Memorytopo.ElectionsPath` are stand-in values.
- Enum values other than PRIMARY and REPLICA are kept as numbers; a new pooler's type is the zero value.
- Store.TopoStore.ConnForCell: requires a global connection. After `Close` the source would panic.
- Store.TopoStore.ConnForCell: follows the corrected cache rule (`LookupEvicting`, see Findings), not the code as written.
- `Factory.Create` is modelled only by its outcome (`created`).
- Concurrency (the store's mutex, goroutines, the backend's factory lock) is not modelled.

## Findings

| source | as written | input that shows it | evidently intended | confidence | as-written member | corrected member |
|---|---|---|---|---|---|---|
| go/clustermetadata/topo/store.go:334-356 | When a cell's configuration changed, the cached connection is closed. If `Factory.Create` then fails, the closed connection stays in the cache | Cell "zone1" is cached for addresses ["host1"]. Its record changes to ["host2"] and the factory fails. The record changes back to ["host1"]. The next `ConnForCell` returns the closed connection | A closed connection leaves the cache, so it is never returned again | not executed | Store.StaleClosedConnReturned | Store.ClosedNeverReturned |
