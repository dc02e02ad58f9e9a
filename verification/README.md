# Verified models of the query, ontology and job cores

This project models the parts of the repository whose correctness depends on order, state or
arithmetic, and proves what they promise. `dafny verify dfyconfig.toml` checks all of it.

**Protocols.** Code between two awaits runs without interruption, so each such stretch is one
event. A module gives the total function `Apply` for one event (an event that is not possible
changes nothing) and `Exec` for a sequence of events; a statement about all sequences is then a
statement about all interleavings. The class beside it has the program's fields and one method for
each stretch of code; every method is proved to be its event.

- `ArrowStream`, `StreamRuns`, `ArrowStreamObject`, `Client`: the bounded cancellable batch stream, how
  its runs end and with which error, and the client call that drains it into a table.
- `AsyncStore`, `AsyncStoreObject`: the in-process store of asynchronous queries.
- `Pools`, `PoolsObject`, `Handles`, `HandleCalls`, `Router`: building one connection pool per source under
  double-checked locking, and connections checked out by the router's calls.
- `Mdl`, `MdlKeys`, `Incremental`, `PipelineObject`: the content hash, the deterministic model of a table, and
  runs that skip tables whose hash is recorded.
- `Uris`, `UriDecoding`, `StagingPaths`, `Metadata`, `Staging`, `StagingCompletion`, `StagingObject`,
  `StagingRefinement`: the staged
  workflow (validate, extract, compute, persist, each under its retry limit, handing over URIs of
  files) against the local runtime.

**Algorithms.** Loops are methods proved against a function, and lemmas say what the function means.

- `Cycles`: three-colour depth-first search. `Spans`: greedy overlap resolution. `Markers`: the
  longest-match scan. `Chunker`: overlapping windows. `SqlText`: top-level splitting and quoting.
- `Induction`, `InductionNames`: predicates induced from extracted edges. `KeepBest`, `Relations`: deduplication and
  the linker's candidates. `KMeans`: Lloyd's iteration. `Folds`: grouped running aggregates.
- `Wrappers`, `Dicts`, `Sorting`: shared values, dictionaries by their entries, and a stable sort.

## Where the code does less than its documentation says

Each of these is proved with the exact condition, for all inputs.

- **Cleanup of a stream can hang.** The pump's handler queues the exception on the bounded queue
  that the departing consumer no longer empties. `_cleanup` never ends exactly when the queue is
  full and the pump is outside its handler as the cancellation lands
  (`CleanupEndsIffHandlerHasRoom`, `BoundedStreamCanWedge`).
- **`aclose` can strand a query.** A query whose coroutine has not taken its first step when
  `aclose` cancels it has no handler to run and stays PENDING (`CloseCancelsIffStarted`,
  `UnstartedStaysPending`).
- **A pool can outlive `close`.** A call that is building, or waiting for the lock, when `close` runs
  caches a pool after it. The cache stays empty exactly when there is no such call
  (`CloseLeavesNothingIff`, `PoolOutlivesClose`).
- **`close` strands connections.** `release` looks the pool up after `close` has cleared the
  dictionary, so a call that ends then does not return its connection; a call that looked its pool
  up before may even take one from it afterwards. A connection comes back exactly when its pool is
  still in use (`FinaliseReturnsIffInUse`, `AllReturnedIff`, `StrandedForGood`).
- **`_inflight` is keyed by `id(handle)`.** If a handle is dropped and its identity reused while its
  entry is there, the entry is overwritten (`AcquireTightIffNewIdentity`).
- **Skipping can leave a stale model**: exactly when the last visit that writes is skipped and the
  last one that was not skipped had other content or another catalog (`StaleIff`). The hash does not
  cover the catalog, and a model can be written without its hash being recorded: early, by a table
  that then fails, or by a run that dies before its flush (`StrayWriteGoesStale`,
  `CrashLosesTheRecords`).
- **Staged files are not found when a URI quotes their path.** Paths are handed over by `as_uri`,
  which escapes every character but letters, digits, `_.-~/`, and taken from the URI without being
  unescaped. An auxiliary named `top 10` is written to `aux_top 10.parquet` and looked for in
  `aux_top%2010.parquet`; persist fails five times. A dataset named `größe`, which the view check
  accepts, stops compute in the same way, and a space in the staging root stops every run. Unquoting
  the path is all that is missing (`UriStandsForPath`).
- **The view check accepts names that no view can have.** The local runtime registers a stream under
  its name; the staged path puts the name, unquoted, into a CREATE VIEW statement. A dataset named
  `order`, `2024` or `2024_sales` is alphanumeric but for underscores, so the local runtime stores its
  result, while every attempt of compute raises a parser error (`DatasetNamedByYear`,
  `UnnameableStoresNothing`).
- **So the staged workflow completes less often than the local runtime stores.** In a new directory
  it does exactly when the local runtime stores a result, all dataset names can name views, the
  metadata can be sent, and all paths are clean (`NewRunCompletesIffNamesClean`,
  `UncleanNamesStoreNothing`). Where an earlier run has left files and names can name views, other
  tables can be stored, exactly when the files are not `Harmless` (`StagedRefinesLocal`,
  `HarmfulFilesDiverge`).
- **Auxiliary tables can share a file**: names are changed by removing `/` and `..` and nothing
  checks them (`AuxNamesCollide`, `AuxiliariesSurviveIff`).
- **Metadata changes on the staged path only.** It is coerced and sent as JSON. It is the same as the
  local runtime's exactly when its keys are texts and its values are JSON's own
  (`SanitizedIsSameIff`, `ArrivesSameIff`, `CleanNamesRefineExactly`).
- **Two tables can have one key**, when a schema name has a slash (`SlashedSchemasShareKey`); without
  slashes keys tell tables apart (`SameTableIff`).
- **The window chunker can run for ever**, when the text is longer than a window and the overlap is
  at least a window (`LoopEndsIff`).
- **An empty marker raises IndexError**, exactly when the scan reaches a character that the other
  markers leave uncovered (`RaisesIffEmptyMarkerIsReached`).
- **The splitter drops one trailing top-level comma** (`JoinOfSplit`).

## Model

| member | source | states |
|---|---|---|
| `ArrowStream.AlwaysSafe` | packages/nexcraft/nexcraft/streaming/cancellable_stream.py:53-141 | in every interleaving of pump, consumer, cancel flag and clock: yielded, queued and pending batches form a prefix of the producer's batches within `max_rows` and `max_bytes`; the queue keeps its bound; a terminal item is last in the queue with the pump ended behind it; a budget error names a limit and a total that exceeds it |
| `ArrowStream.StopIsDecided` | packages/nexcraft/nexcraft/streaming/cancellable_stream.py:66-113 | a batch that meets a set flag, a passed deadline or a spent budget, a producer's exception, an expired wait and a consumer that leaves each decide a stop; while the pump still flows no other event does |
| `ArrowStream.GoingAsksForCancellation` | packages/nexcraft/nexcraft/streaming/cancellable_stream.py:130-136 | whatever makes the consumer go, its going asks a pump still at work to cancel, and it is not gone before that is done |
| `ArrowStream.StopAlwaysSurfaces` | packages/nexcraft/nexcraft/streaming/cancellable_stream.py:66-106 | once a cancel, deadline, budget or producer error has been decided, no continuation ends the stream normally |
| `ArrowStream.NormalEndIsComplete` | packages/nexcraft/nexcraft/streaming/cancellable_stream.py:53-64 | a normal end means the producer was exhausted and every one of its batches was yielded |
| `ArrowStream.CleanupEndsIffHandlerHasRoom` | packages/nexcraft/nexcraft/streaming/cancellable_stream.py:130-141 | from any reachable state where `_cleanup` has asked for the cancellation of a producer that honours it: with the queue full and the pump outside its handler the stream never ends; in all other states each move brings the end nearer, at most two are left, and a stream at rest has ended |
| `ArrowStream.WedgedForever` | packages/nexcraft/nexcraft/streaming/cancellable_stream.py:81-82 | a put that waits on a queue nobody will empty waits for ever, under any further events |
| `ArrowStream.DrainsInTwoMoves` | packages/nexcraft/nexcraft/streaming/cancellable_stream.py:130-136 | the step measure of the cleanup: moves taken plus steps left is constant, and no move left means the consumer is out |
| `ArrowStream.SecondCancellationFrees` | packages/nexcraft/nexcraft/streaming/cancellable_stream.py:81-82 | a wedged pump leaves its handler when the cleanup itself is cancelled |
| `ArrowStream.BoundedStreamCanWedge` | packages/nexcraft/nexcraft/streaming/cancellable_stream.py:33-37 | every bounded stream without budgets can reach the wedged case: fill the queue, let the consumer leave |
| `ArrowStream.MovesUnlessEndedOrWedged` | packages/nexcraft/nexcraft/streaming/cancellable_stream.py:53-141 | streaming or cleaning up, every reachable stream that has not ended and is not wedged has a move of its own: there is no other way to hang |
| `ArrowStreamObject.CancellableArrowStream.constructor` | packages/nexcraft/nexcraft/streaming/cancellable_stream.py:25-42 | a new stream is in the initial state of the protocol |
| `ArrowStreamObject.CancellableArrowStream.PutItem` | packages/nexcraft/nexcraft/streaming/cancellable_stream.py:66-82 | a put appends the item if a slot is free and waits otherwise; a terminal item ends the pump |
| `ArrowStreamObject.CancellableArrowStream.Admit` | packages/nexcraft/nexcraft/streaming/cancellable_stream.py:69-79 | what the pump makes of a batch: a stop reason leaves it uncounted, else rows, bytes and schema are updated and the batch or a budget error results |
| `ArrowStreamObject.CancellableArrowStream.PumpBatch` | packages/nexcraft/nexcraft/streaming/cancellable_stream.py:68-79 | one turn of the pump's loop is the protocol's delivery event |
| `ArrowStreamObject.CancellableArrowStream.PumpExhausted` | packages/nexcraft/nexcraft/streaming/cancellable_stream.py:80-80 | an exhausted producer queues the end marker |
| `ArrowStreamObject.CancellableArrowStream.PumpRaised` | packages/nexcraft/nexcraft/streaming/cancellable_stream.py:81-82 | an exception of the producer is queued |
| `ArrowStreamObject.CancellableArrowStream.PumpUnblocked` | packages/nexcraft/nexcraft/streaming/cancellable_stream.py:79-82 | a waiting put goes through once there is room |
| `ArrowStreamObject.CancellableArrowStream.PumpCancelled` | packages/nexcraft/nexcraft/streaming/cancellable_stream.py:81-82 | where a cancellation lands decides what happens: before the first step the task just ends, in the loop the handler puts the exception on the queue, in the handler it escapes |
| `ArrowStreamObject.CancellableArrowStream.NextItem` | packages/nexcraft/nexcraft/streaming/cancellable_stream.py:84-94 | an expired deadline is not waited for |
| `ArrowStreamObject.CancellableArrowStream.TakeItem` | packages/nexcraft/nexcraft/streaming/cancellable_stream.py:55-62 | a batch is yielded, the end marker ends the generator, an exception is raised; the last two start the cleanup |
| `ArrowStreamObject.CancellableArrowStream.Cleanup` | packages/nexcraft/nexcraft/streaming/cancellable_stream.py:130-136 | cancels a pump that is still at work, and only such a one |
| `Client.ExecuteToTable` | packages/nexcraft/nexcraft/client.py:42-60 | drains the stream into the one table of its batches; a raised end is an error, mixed schemas are an error, no batches give the empty table |
| `Client.AllOrNothing` | packages/nexcraft/nexcraft/client.py:42-60 | in every interleaving a table is returned only if the producer was exhausted, and it is then the concatenation of every batch produced, within the row budget; a normal end with one schema always gives the table |
| `Client.StopNeverGivesATable` | packages/nexcraft/nexcraft/client.py:42-60 | once any of the stops has been met, no continuation of any interleaving gives a table |
| `StreamRuns.WholeRunGivesTheTable` | packages/nexcraft/nexcraft/streaming/cancellable_stream.py:53-94 | for any batches of one schema within the budgets, with the flag unset and the deadline not reached, the run in which each is produced, asked for and taken ends normally and gives the client the table of all their rows |
| `StreamRuns.UnhinderedStreamDelivers` | packages/nexcraft/nexcraft/streaming/cancellable_stream.py:53-94 | from every reachable state that nothing has stopped, the two tasks left to themselves end the stream normally, with every batch produced yielded in order |
| `StreamRuns.MovesAreBounded` | packages/nexcraft/nexcraft/streaming/cancellable_stream.py:53-141 | in every interleaving the own moves of the two tasks are at most nine, and four more for each batch produced |
| `StreamRuns.EndsOrWedges` | packages/nexcraft/nexcraft/streaming/cancellable_stream.py:53-141 | left to itself from any reachable state, a stream has ended or hangs after as many moves as its measure says |
| `StreamRuns.ErrorsHaveCauses` | packages/nexcraft/nexcraft/streaming/cancellable_stream.py:66-113 | the error a stream ends with is one that an event of the run gave cause to: cancellation, timeout, row budget, byte budget in this order for a batch, with limit and total; the exception of the producer; or the deadline of the consumer |
| `StreamRuns.FirstCauseSurfaces` | packages/nexcraft/nexcraft/streaming/cancellable_stream.py:66-106 | once an event has given cause to an error, the stream ends with that error, unless the consumer leaves or runs into the deadline before |
| `StreamRuns.FlagAndDeadlineStop` | packages/nexcraft/nexcraft/streaming/cancellable_stream.py:84-106 | once the flag is set every batch meets a cancellation; from the deadline on every batch and every request meets a timeout; otherwise a batch meets an error iff a budget is exceeded |
| `StreamRuns.AnythingMayHappen` | packages/nexcraft/nexcraft/streaming/cancellable_stream.py:53-82 | a producer may at any time hand over a batch, end or raise, and a consumer may leave; each has its effect at once |
| `StreamRuns.SwallowedCancellationIsLost` | packages/nexcraft/nexcraft/streaming/cancellable_stream.py:130-136 | a producer that swallows the cancellation goes on, and the cleanup waits for it |
| `StreamRuns.SchemaIsFirst` | packages/nexcraft/nexcraft/streaming/cancellable_stream.py:44-48 | a consumer that has been given a batch finds the schema available; it is that of the first batch and does not change |
| `StreamRuns.ClientErrorsHaveCauses` | packages/nexcraft/nexcraft/client.py:42-60 | a client call that fails does so with the very error an event gave cause to, or because batches of an exhausted producer differ in schema, or because it was given up |
| `AsyncStore.AlwaysGood` | packages/nexcraft-driver/nexcraft_driver/async_store.py:67-152 | over any interleaving of queries: SUCCEEDED iff there is a result location iff the spool holds the query's file, with the recorded row count; terminal iff there is a completion time, FAILED iff there is an error class; every file belongs to a query, so failed, cancelled and pending queries have none |
| `AsyncStore.TerminalStatesAbsorb` | packages/nexcraft-driver/nexcraft_driver/async_store.py:101-152 | no later event changes a terminal state or what a fetch returns; of a succeeded or failed status nothing changes at all |
| `AsyncStore.FetchIsOwnRun` | packages/nexcraft-driver/nexcraft_driver/async_store.py:86-99 | `fetch` gives a table iff the query's own run returned that table and wrote it |
| `AsyncStore.CloseCancelsIffStarted` | packages/nexcraft-driver/nexcraft_driver/async_store.py:111-152 | after `aclose`, whatever else happens short of cancelling the query itself, an unfinished query still has its cancellation to land, which ends it, or has ended: CANCELLED iff its task had started or it had been cancelled before |
| `AsyncStore.UnstartedStaysPending` | packages/nexcraft-driver/nexcraft_driver/async_store.py:111-152 | a query whose task ended before its first step stays PENDING under all events but its own cancel |
| `AsyncStore.OutPathInjective` | packages/nexcraft-driver/nexcraft_driver/async_store.py:124-124 | queries with different ids have different files |
| `AsyncStore.CancelIsForGood` | packages/nexcraft-driver/nexcraft_driver/async_store.py:101-143 | from every reachable state, `cancel` of a pending or running query makes it CANCELLED with that completion time and leaves an unfinished task with its cancellation pending; whatever follows, it stays CANCELLED, has no file, no fetch gives a table, and only the landing of the cancellation changes its task |
| `AsyncStore.RunSettlesTheQuery` | packages/nexcraft-driver/nexcraft_driver/async_store.py:67-152 | a query submitted in any reachable state whose task starts and whose run ends, among any events about other queries: its status has both times, and rows, bytes and location or the error; a fetch gives the table returned |
| `AsyncStore.KnownIffSubmitted` | packages/nexcraft-driver/nexcraft_driver/async_store.py:67-90 | a handle is known iff its query was submitted; any other is EXPIRED with `UnknownHandle` |
| `AsyncStoreObject.InProcessAsyncQueryStore.constructor` | packages/nexcraft-driver/nexcraft_driver/async_store.py:59-65 | a new store is empty |
| `AsyncStoreObject.InProcessAsyncQueryStore.Submit` | packages/nexcraft-driver/nexcraft_driver/async_store.py:67-75 | a fresh id is entered as PENDING with a created task |
| `AsyncStoreObject.InProcessAsyncQueryStore.Status` | packages/nexcraft-driver/nexcraft_driver/async_store.py:77-84 | the recorded status, or EXPIRED with `UnknownHandle` for an id the store does not know |
| `AsyncStoreObject.InProcessAsyncQueryStore.Fetch` | packages/nexcraft-driver/nexcraft_driver/async_store.py:86-99 | the table behind a succeeded status, else the error of the first check that fails |
| `AsyncStoreObject.InProcessAsyncQueryStore.Cancel` | packages/nexcraft-driver/nexcraft_driver/async_store.py:101-109 | asks an unfinished task to cancel and moves PENDING and RUNNING, and no other state, to CANCELLED |
| `AsyncStoreObject.InProcessAsyncQueryStore.Close` | packages/nexcraft-driver/nexcraft_driver/async_store.py:111-114 | asks every unfinished task to cancel, and changes nothing else |
| `AsyncStoreObject.InProcessAsyncQueryStore.RunStart` | packages/nexcraft-driver/nexcraft_driver/async_store.py:120-127 | the run up to its await |
| `AsyncStoreObject.InProcessAsyncQueryStore.RunReturned` | packages/nexcraft-driver/nexcraft_driver/async_store.py:128-135 | the run when the query returns a table: success, or the failure handler after a failed write |
| `AsyncStoreObject.InProcessAsyncQueryStore.RunRaised` | packages/nexcraft-driver/nexcraft_driver/async_store.py:144-152 | the run when the query raises |
| `AsyncStoreObject.InProcessAsyncQueryStore.Fail` | packages/nexcraft-driver/nexcraft_driver/async_store.py:144-152 | records the failure and leaves no file, part or whole |
| `AsyncStoreObject.InProcessAsyncQueryStore.RunCancelled` | packages/nexcraft-driver/nexcraft_driver/async_store.py:136-143 | the cancelled run records CANCELLED and leaves no file, if its body ever started |
| `Pools.PoolsConserved` | packages/nexcraft/nexcraft/connection/pooled.py:127-174 | in any interleaving of acquires, failures, cancellations and closes: at most one task per source is between second check and insert, no insert overwrites a cached pool, and every pool inserted is cached or was handed to close, exactly once |
| `Pools.OnePoolPerSourceAndClose` | packages/nexcraft/nexcraft/connection/pooled.py:137-174 | at most one pool per source is created plus one per close: at most one in all when nothing is closed |
| `Pools.CallersShare` | packages/nexcraft/nexcraft/connection/pooled.py:137-174 | while nothing is closed every caller of a source got the same, cached, pool |
| `Pools.CloseLeavesNothingIff` | packages/nexcraft/nexcraft/connection/pooled.py:127-174 | in every reachable state: after a close the cache stays empty until a new call comes, whatever else happens, iff no call is waiting for the lock or building at that moment |
| `Pools.CachedLaterIsUnclosed` | packages/nexcraft/nexcraft/connection/pooled.py:127-135 | a cached pool was handed to no close so far, and the next close gets it |
| `Pools.PoolOutlivesClose` | packages/nexcraft/nexcraft/connection/pooled.py:127-174 | a run from the empty provider: one call builds, another waits, the provider is closed, and both end up with a pool that no close was given |
| `Pools.FailsIffRaised` | packages/nexcraft/nexcraft/connection/pooled.py:137-174 | in every interleaving a call fails iff its build raised, its wait was cancelled or it came to build for a kind without a factory |
| `Pools.CachedPoolIsFound` | packages/nexcraft/nexcraft/connection/pooled.py:138-140 | from every reachable state, a call that comes while its source has a pool gets that pool, and any other waits |
| `Pools.InFlightGetsThePool` | packages/nexcraft/nexcraft/connection/pooled.py:142-174 | from every reachable state, a waiting or building call is at most two steps from a pool: with no failure it gets the one then cached for its source, and one is built only if none was cached |
| `Pools.InFlightCanFail` | packages/nexcraft/nexcraft/connection/pooled.py:145-174 | a wait can be given up and a build can raise; the call fails, and a build leaves the lock to those waiting |
| `Pools.HandedForGood` | packages/nexcraft/nexcraft/connection/pooled.py:127-135 | what was handed to close stays so, in order |
| `PoolsObject.PooledConnectionProvider.constructor` | packages/nexcraft/nexcraft/connection/pooled.py:98-102 | a new provider has no pools |
| `PoolsObject.PooledConnectionProvider.EnterCall` | packages/nexcraft/nexcraft/connection/pooled.py:138-140 | the first check, outside the lock |
| `PoolsObject.PooledConnectionProvider.LockAndCheck` | packages/nexcraft/nexcraft/connection/pooled.py:145-155 | the second check, under the lock: the cached pool, the missing factory, or the start of a build |
| `PoolsObject.PooledConnectionProvider.InsertBuilt` | packages/nexcraft/nexcraft/connection/pooled.py:170-174 | the built pool is cached and the lock given up |
| `PoolsObject.PooledConnectionProvider.BuildRaises` | packages/nexcraft/nexcraft/connection/pooled.py:145-172 | a failed build gives up the lock and caches nothing |
| `PoolsObject.PooledConnectionProvider.CloseAll` | packages/nexcraft/nexcraft/connection/pooled.py:127-135 | the cache is emptied and every pool that was in it is closed once |
| `Handles.AcquireTightIffNewIdentity` | packages/nexcraft/nexcraft/connection/asyncpg_pool.py:83-87 | an acquire keeps one entry per connection checked out iff the handle's identity is not already a key |
| `Handles.ReleaseUndoesAcquire` | packages/nexcraft/nexcraft/connection/asyncpg_pool.py:66-98 | acquire and release is no change, and neither is a second release |
| `Handles.IdleReleaseIsNothing` | packages/nexcraft/nexcraft/connection/pooled.py:119-125 | a release of a handle that nobody holds changes no pool |
| `Handles.StaleReleaseIsNothing` | packages/nexcraft/nexcraft/connection/pooled.py:119-125 | giving a handle back to a pool rebuilt since changes no pool |
| `Handles.HandlesConserved` | packages/nexcraft/nexcraft/connection/asyncpg_pool.py:66-98 | with distinct identities of live handles, over any interleaving of lookups, checkouts, releases, closes and installs, for every pool ever installed: its connections out are those of the calls that hold one and of the calls that gave their handle back while it was not in use; no two calls share one; a held one is remembered under its handle; a pool in use remembers nothing else |
| `Handles.FinaliseReturnsIffInUse` | packages/nexcraft/nexcraft/connection/pooled.py:119-125 | finalising a call returns its connection iff the pool it came from is still the one in use for its source |
| `Handles.AllReturnedIff` | packages/nexcraft/nexcraft/router.py:33-70 | when all calls have ended, a pool has nothing out iff no call was finalised while the pool was not in use; pools in use have nothing out |
| `Handles.StrandedForGood` | packages/nexcraft/nexcraft/connection/pooled.py:119-135 | a connection given back while its pool was not in use stays out under any continuation |
| `Handles.CloseStrandsConnection` | packages/nexcraft/nexcraft/connection/pooled.py:119-135 | the run that does so: take a connection, close the provider, end the call |
| `Handles.EachHandleOnce` | packages/nexcraft/nexcraft/router.py:41-47 | in every interleaving a call that checked a connection out gives that handle back exactly once, after its last batch, by the time it is finalised, and gives back no other |
| `HandleCalls.CallRoundTrip` | packages/nexcraft/nexcraft/router.py:33-47 | from every reachable state, a call that finds a pool in use, takes an idle connection, sends its batches and ends leaves every pool as it was, and has taken one handle before the first batch and given it back after the last |
| `HandleCalls.CallsAccounted` | packages/nexcraft/nexcraft/router.py:33-47 | in every interleaving a call has failed iff its checkout raised, and otherwise records as many batches as were sent for it |
| `HandleCalls.FoundCallCanFail` | packages/nexcraft/nexcraft/connection/asyncpg_pool.py:66-81 | a checkout may raise at any time and changes nothing else |
| `Router.AsyncpgPool.Acquire` | packages/nexcraft/nexcraft/connection/asyncpg_pool.py:66-87 | the connection is checked out and remembered under the handle |
| `Router.AsyncpgPool.Release` | packages/nexcraft/nexcraft/connection/asyncpg_pool.py:89-98 | the connection behind the handle goes back, an unknown handle is ignored |
| `Router.SharedProvider.constructor` | packages/nexcraft/nexcraft/connection/pooled.py:98-102 | no pools, nothing cached, no calls |
| `Router.SharedProvider.InstallPool` | packages/nexcraft/nexcraft/connection/pooled.py:170-174 | a new pool is cached for its source |
| `Router.SharedProvider.Close` | packages/nexcraft/nexcraft/connection/pooled.py:127-129 | no pool is in use any more |
| `Router.SharedProvider.FindPool` | packages/nexcraft/nexcraft/connection/pooled.py:116-117 | the call knows the pool in use for its source |
| `Router.SharedProvider.TakeConnection` | packages/nexcraft/nexcraft/connection/asyncpg_pool.py:66-87 | the pool the call knows, in use or not, gives it an idle connection and remembers it under the handle |
| `Router.SharedProvider.TakeRaises` | packages/nexcraft/nexcraft/connection/asyncpg_pool.py:72-81 | a failed checkout ends the call and changes no pool |
| `Router.SharedProvider.SendBatch` | packages/nexcraft/nexcraft/router.py:44-45 | one batch goes out |
| `Router.SharedProvider.ReleaseHandle` | packages/nexcraft/nexcraft/connection/pooled.py:119-125 | the pool in use for the source gives back the connection it remembers under the handle, if any |
| `Router.SharedProvider.EndCall` | packages/nexcraft/nexcraft/router.py:46-47 | the `finally` of a call: its handle is released and the call has ended |
| `Router.Execute` | packages/nexcraft/nexcraft/router.py:33-47 | one call by itself, whether its stream ends, raises or is closed early: acquire and release pair up, the pool is as before, the batches seen are a prefix, and each failure is the one of its step |
| `Mdl.BuildMdl` | packages/ontology-pipeline/ontology_pipeline/mdl.py:58-121 | the model of a table: keys, display names, provenance, references and view query of every column and of the table |
| `Mdl.HashDeterminesModel` | packages/ontology-pipeline/ontology_pipeline/state.py:32-60 | tables with equal hashes have models equal up to the order of columns iff they were built with the same catalog |
| `Mdl.ColumnsFromHash` | packages/ontology-pipeline/ontology_pipeline/mdl.py:66-89 | the model's columns are, up to order, a function of the hashed payload alone |
| `Mdl.SameModelIff` | packages/ontology-pipeline/ontology_pipeline/mdl.py:58-121 | two models of one source are the same up to the order of columns iff the catalog is, the tables agree in schema, name, description and view, and their columns in names, types, nullability, descriptions, key flags and references |
| `Mdl.ModelShowsTheTable` | packages/ontology-pipeline/ontology_pipeline/mdl.py:58-121 | the table is shown with its fields, and every column in place with its key, type, nullability, description, provenance and references; the keys of columns are distinct iff their names are |
| `MdlKeys.SameTableIff` | packages/ontology-pipeline/ontology_pipeline/mdl.py:45-52 | two tables have one key iff their database, schema and name, joined by slashes, are one text; for databases and schemas without slashes, iff all three are the same |
| `MdlKeys.SlashedSchemasShareKey` | packages/ontology-pipeline/ontology_pipeline/mdl.py:45-52 | with a slash in a schema two tables can have one key |
| `MdlKeys.DisplayNamesAreParts` | packages/ontology-pipeline/ontology_pipeline/mdl.py:124-129 | the display name of a column is the non-empty parts of its name between underscores, capitalised and joined by spaces |
| `MdlKeys.SameHashIff` | packages/ontology-pipeline/ontology_pipeline/state.py:32-60 | two tables have one hash iff they agree in schema, name, view and description, in the primary key as a multiset, and, name by name, in the hashed parts of their columns in order |
| `MdlKeys.HashIgnoresOrder` | packages/ontology-pipeline/ontology_pipeline/state.py:32-60 | the order of the columns and of the primary key, defaults and row counts do not change the hash of a table whose column names differ |
| `Incremental.StaleIff` | packages/ontology-pipeline/ontology_pipeline/pipeline.py:217-460 | over any visits, completed or not: skipping and full runs have the same hashes on record and the same tables in the sink, and a table's model is stale iff its last writing visit was skipped and the last one that was not had other content or another catalog |
| `Incremental.EveryKeyTracks` | packages/ontology-pipeline/ontology_pipeline/pipeline.py:217-460 | what both kinds of runs hold of a table after any visits: the hash of the last completed one; the model of the last writing one in full runs, and of the last writing one not skipped in incremental runs |
| `Incremental.KeptIsRecorded` | packages/ontology-pipeline/ontology_pipeline/pipeline.py:408-430 | without unrecorded writes the last visit not skipped has the content on record |
| `Incremental.IncrementalEqualsFullIffCatalogKept` | packages/ontology-pipeline/ontology_pipeline/pipeline.py:217-255 | without unrecorded writes the models agree up to column order iff the catalog is that of the last change of the table's content |
| `Incremental.OneCatalogIncrementalEqualsFull` | packages/ontology-pipeline/ontology_pipeline/pipeline.py:227-247 | with one catalog throughout and no unrecorded writes, skipping leaves every table the model that full runs leave |
| `Incremental.StrayWriteGoesStale` | packages/ontology-pipeline/ontology_pipeline/pipeline.py:276-289 | a run that goes stale after any past: a model written early by a visit that then fails stays when the source returns to the recorded content |
| `Incremental.StaleWhileUnchanged` | packages/ontology-pipeline/ontology_pipeline/pipeline.py:227-247 | and it stays for as long as the source shows that content |
| `Incremental.CrashLosesTheRecords` | packages/ontology-pipeline/ontology_pipeline/state.py:111-118 | a run that dies before the flush leaves what the same run leaves when no write is recorded |
| `Incremental.OtherTablesUntouched` | packages/ontology-pipeline/ontology_pipeline/pipeline.py:217-460 | processing a table leaves the record and the model of every other table |
| `PipelineObject.RunState.constructor` | packages/ontology-pipeline/ontology_pipeline/state.py:66-68 | a fresh state knows no table |
| `PipelineObject.RunState.Lookup` | packages/ontology-pipeline/ontology_pipeline/state.py:84-91 | the recorded hash through the nested dictionaries, if any |
| `PipelineObject.RunState.Record` | packages/ontology-pipeline/ontology_pipeline/state.py:93-109 | records the hash of one table and changes no other |
| `PipelineObject.RunState.Flush` | packages/ontology-pipeline/ontology_pipeline/state.py:111-118 | the file holds the records once the replacement is through, and what it held before until then |
| `PipelineObject.RunState.Load` | packages/ontology-pipeline/ontology_pipeline/state.py:70-82 | the next process starts from what the file holds, or afresh |
| `PipelineObject.Pipeline.constructor` | packages/ontology-pipeline/ontology_pipeline/pipeline.py:108-121 | a new pipeline has an empty sink and no records |
| `PipelineObject.Pipeline.Recall` | packages/ontology-pipeline/ontology_pipeline/pipeline.py:221-225 | the recorded hash of a table |
| `PipelineObject.Pipeline.Remember` | packages/ontology-pipeline/ontology_pipeline/pipeline.py:424-430 | records the hash of one table, the models unchanged |
| `PipelineObject.Pipeline.WriteMdl` | packages/ontology-pipeline/ontology_pipeline/pipeline.py:409-414 | replaces the model of one table, the records unchanged |
| `PipelineObject.Pipeline.ProcessTable` | packages/ontology-pipeline/ontology_pipeline/pipeline.py:217-460 | skip, early write, write, record or error of one table, and its outcome |
| `PipelineObject.OutcomeTells` | packages/ontology-pipeline/ontology_pipeline/pipeline.py:227-460 | what the outcome says of the record before and after: unchanged, created, updated or error |
| `PipelineObject.Pipeline.ProcessTables` | packages/ontology-pipeline/ontology_pipeline/pipeline.py:123-143 | the loop over the tables, its outcomes and its counts of skipped and failed tables |
| `PipelineObject.Pipeline.Run` | packages/ontology-pipeline/ontology_pipeline/pipeline.py:123-174 | the loop and then the flush: after it the file holds the new records, after a crash before it the old ones, beside the new models |
| `PipelineObject.Pipeline.Restart` | packages/ontology-pipeline/ontology_pipeline/state.py:70-82 | the run after a crash sees the models written and the records last flushed |
| `Uris.UriRoundTripIffClean` | packages/nexcraft-jobs/nexcraft_jobs/runtime/staging_paths.py:12-36 | a URI made of a path leads back to it iff every character of the path is unreserved or a slash |
| `Uris.ReadsQuoted` | packages/nexcraft-jobs/nexcraft_jobs/runtime/staging_paths.py:27-36 | what a file URI leads to is the quoted path |
| `Uris.QuoteUnchangedIffClean` | packages/nexcraft-jobs/nexcraft_jobs/runtime/staging_paths.py:12-13 | quoting keeps a path iff all its characters are kept; any other path gets longer and stays one that quoting changes |
| `UriDecoding.UnquoteQuote` | packages/nexcraft-jobs/nexcraft_jobs/runtime/staging_paths.py:12-13 | percent-decoding the bytes of a quoted text, in UTF-8, gives the text back |
| `UriDecoding.UriStandsForPath` | packages/nexcraft-jobs/nexcraft_jobs/runtime/staging_paths.py:12-36 | the path a file URI stands for, unquoted, is the one it was made of; a bare path passes through |
| `UriDecoding.KeptAreUnreserved` | packages/nexcraft-jobs/nexcraft_jobs/runtime/staging_paths.py:12-13 | quoting keeps letters, digits, `-._~` and the slash |
| `StagingPaths.OpenedPath` | packages/nexcraft-jobs/nexcraft_jobs/runtime/staging_paths.py:7-36 | the file opened for a staged table, and that it is the one written iff directory and safe name are clean |
| `StagingPaths.OpenedIsWritten` | packages/nexcraft-jobs/nexcraft_jobs/runtime/staging_paths.py:7-36 | when a file opened for one name is the one written for another; those of the two directories never are |
| `StagingPaths.SpacedNameIsNotFound` | packages/nexcraft-jobs/nexcraft_jobs/runtime/staging_paths.py:16-36 | the auxiliary name `top 10`, which is used as it is, is looked for in another file |
| `StagingPaths.PathsFollowNames` | packages/nexcraft-jobs/nexcraft_jobs/runtime/staging_paths.py:7-20 | two names have one file iff they have one safe name |
| `StagingPaths.AcceptedNamesInjective` | packages/nexcraft-jobs/nexcraft_jobs/compute/duckdb_setup.py:34-43 | dataset names that the view check accepts have files of their own |
| `StagingPaths.PlainAuxInjective` | packages/nexcraft-jobs/nexcraft_jobs/runtime/staging_paths.py:16-20 | so do auxiliary names without `/` and `..` |
| `StagingPaths.AuxNamesCollide` | packages/nexcraft-jobs/nexcraft_jobs/runtime/staging_paths.py:16-20 | auxiliary names in general do not: `a/b` and `a_b` share a file |
| `StagingPaths.SafeNameStaysInside` | packages/nexcraft-jobs/nexcraft_jobs/runtime/staging_paths.py:8-20 | whatever the name, what is used of it has no slash and no `..`, and has lost nothing but pairs of dots |
| `StagingPaths.ViewNameOkIff` | packages/nexcraft-jobs/nexcraft_jobs/compute/duckdb_setup.py:40-41 | the view check accepts a name iff it has a character other than the underscore and all such are alphanumeric |
| `StagingPaths.DirectoriesApart` | packages/nexcraft-jobs/nexcraft_jobs/runtime/staging_paths.py:7-20 | no file of the extract step, nor its temporary, is one of the compute step, and conversely |
| `StagingPaths.TempIsNoDestination` | packages/nexcraft-jobs/nexcraft_jobs/runtime/parquet_extract.py:25-25 | no temporary file is a destination |
| `StagingPaths.PrimaryIsNoAux` | packages/nexcraft-jobs/nexcraft_jobs/runtime/temporal_staged_activities.py:196-211 | no auxiliary has the file of the primary table |
| `Staging.StagedFilesAreWhole` | packages/nexcraft-jobs/nexcraft_jobs/runtime/parquet_extract.py:24-62 | between attempts, however they ended, a destination is absent or holds a whole table |
| `Staging.AnswerMeansWritten` | packages/nexcraft-jobs/nexcraft_jobs/runtime/recipe_staged_workflow.py:44-71 | an activity that answers has written every one of its files, touched no other, and kept to its attempt limit |
| `Staging.FirstFinalAttemptSettles` | packages/nexcraft-jobs/nexcraft_jobs/runtime/recipe_staged_workflow.py:50-70 | an activity ends with the first attempt that returns or fails for good, and answers iff that one returns; without one within the limit it does not answer |
| `Staging.PersistStores` | packages/nexcraft-jobs/nexcraft_jobs/runtime/recipe_staged_workflow.py:73-87 | the store ends with its old value or the given one, and with the given one if persist answered |
| `Staging.EveryAttemptComputesSame` | packages/nexcraft-jobs/nexcraft_jobs/runtime/temporal_staged_activities.py:146-161 | whatever an attempt of compute wrote before it stopped, the next one opens and computes the same |
| `Staging.ComputesOnce` | packages/nexcraft-jobs/nexcraft_jobs/runtime/recipe_staged_workflow.py:57-71 | compute, starting anew at every attempt, is one computation whose output is attempted |
| `Staging.EveryScheduleAgrees` | packages/nexcraft-jobs/nexcraft_jobs/runtime/recipe_staged_workflow.py:35-87 | under any schedule of crashes, exceptions, lost answers and retries, the store gets nothing or what an undisturbed run stores; a completed workflow has stored it; at most 1 + 3 + 2 + 5 attempts are made |
| `StagingCompletion.CompletesIff` | packages/nexcraft-jobs/nexcraft_jobs/runtime/recipe_staged_workflow.py:35-87 | disturbed in any way, the workflow completes iff the undisturbed run has something to store, and extract returns within its first three attempts, compute within two and persist within five, with only retried failures before; it has then stored what the undisturbed run stores |
| `StagingCompletion.AttemptsUntilCompletion` | packages/nexcraft-jobs/nexcraft_jobs/runtime/recipe_staged_workflow.py:35-87 | a completed workflow has made one attempt to validate and, of the others, those up to the first that returned |
| `StagingCompletion.AllAttemptsMade` | packages/nexcraft-jobs/nexcraft_jobs/runtime/recipe_staged_workflow.py:50-70 | an activity of which no attempt settles anything makes all it may |
| `StagingCompletion.ComputeEnds` | packages/nexcraft-jobs/nexcraft_jobs/runtime/recipe_staged_workflow.py:57-71 | compute ends with the first attempt that is stopped for good, answers, or fails by itself for good, and answers iff that one has a result that can be sent |
| `StagingCompletion.FailsBeforeTheRecipe` | packages/nexcraft-jobs/nexcraft_jobs/compute/duckdb_setup.py:39-43 | a missing file is retried; else the first dataset that no view can have decides: a refused name is final, a statement that does not parse is retried |
| `StagingCompletion.UnsendableIsWritten` | packages/nexcraft-jobs/nexcraft_jobs/runtime/temporal_staged_activities.py:196-241 | an answer that cannot be sent is lost after all files are written, and retried |
| `StagingCompletion.LostOutputTakesFive` | packages/nexcraft-jobs/nexcraft_jobs/runtime/recipe_staged_workflow.py:73-87 | output that cannot be read back is tried for five times: eight attempts in all, nothing stored |
| `StagingCompletion.FailsUntilFinal` | packages/nexcraft-jobs/nexcraft_jobs/runtime/recipe_staged_workflow.py:73-87 | a persist that cannot read ends with the first final failure or its last attempt |
| `StagingCompletion.NoTemporariesLeft` | packages/nexcraft-jobs/nexcraft_jobs/runtime/parquet_extract.py:56-62 | an activity that answers has left no temporary file |
| `StagingCompletion.WhatAStopLeaves` | packages/nexcraft-jobs/nexcraft_jobs/runtime/parquet_extract.py:29-62 | a writer stopped by an exception removes its temporary unless the destination is there, a killed one leaves the rows written so far; nothing else changes |
| `StagingCompletion.BatchesAddUp` | packages/nexcraft-jobs/nexcraft_jobs/runtime/parquet_extract.py:30-57 | rows and sizes of a stream are those of its batches, in order |
| `StagingCompletion.OnlyWholeFilesRead` | packages/nexcraft-jobs/nexcraft_jobs/runtime/temporal_staged_activities.py:150-152 | a table that is read is one whose file is whole |
| `StagingRefinement.InputsRead` | packages/nexcraft-jobs/nexcraft_jobs/runtime/temporal_staged_activities.py:148-152 | compute cannot open its inputs iff one has an unclean path and nothing where its URI leads; it reads the recipe's streams iff each unclean one has its very table there |
| `StagingRefinement.ExtractHandsOver` | packages/nexcraft-jobs/nexcraft_jobs/runtime/temporal_staged_activities.py:86-152 | the same after an extract that answered, under any schedule |
| `StagingRefinement.AuxiliariesRead` | packages/nexcraft-jobs/nexcraft_jobs/runtime/temporal_staged_activities.py:202-236 | with nothing elsewhere, the auxiliaries are opened iff all their paths are clean, and each then gives the last table of its file |
| `StagingRefinement.AuxiliariesSurviveIff` | packages/nexcraft-jobs/nexcraft_jobs/runtime/temporal_staged_activities.py:202-236 | with nothing elsewhere, they come back unchanged iff all their paths are clean and no two different tables have names that lead to one file |
| `StagingRefinement.OutputsRead` | packages/nexcraft-jobs/nexcraft_jobs/runtime/temporal_staged_activities.py:196-241 | what persist gets: the result as its files hold it iff the job's directory and the auxiliaries' paths are clean |
| `StagingRefinement.StagedRefinesLocal` | packages/nexcraft-jobs/nexcraft_jobs/runtime/local.py:25-49 | on harmless files, under any schedule, the store holds nothing or the local runtime's result as its files and its answer carry it, and then dataset names can name views and metadata can be sent |
| `StagingRefinement.HarmfulFilesDiverge` | packages/nexcraft-jobs/nexcraft_jobs/runtime/local.py:25-49 | on any other files, if the dataset names can name views, some recipe with the same streams and auxiliary names completes undisturbed and stores another result: the hypothesis is exact |
| `StagingRefinement.NoViewRefusedIff` | packages/nexcraft-jobs/nexcraft_jobs/compute/duckdb_setup.py:39-43 | every view is created iff every dataset name passes the check and can be a view's name without quotes |
| `StagingRefinement.SmoothRunCompletesIff` | packages/nexcraft-jobs/nexcraft_jobs/runtime/recipe_staged_workflow.py:35-87 | on harmless files the undisturbed workflow completes iff the local runtime stores a result, every dataset name can name a view, the metadata can be sent, no input is missing where its URI leads, and directory and auxiliaries are clean |
| `StagingRefinement.UnnameableStoresNothing` | packages/nexcraft-jobs/nexcraft_jobs/compute/duckdb_setup.py:34-43 | with a dataset name that cannot name a view nothing is ever stored, whatever the files and the schedule |
| `StagingRefinement.DatasetNamedByYear` | packages/nexcraft-jobs/nexcraft_jobs/compute/duckdb_setup.py:19-43 | a dataset named `2024`: the local runtime stores its result, the staged path nothing under any schedule, though the path is as clean as the directory |
| `StagingRefinement.NewRunCompletesIffNamesClean` | packages/nexcraft-jobs/nexcraft_jobs/runtime/recipe_staged_workflow.py:35-87 | in a new directory it completes iff the local runtime stores a result, dataset names can name views, metadata can be sent, and every character of all staged paths is unreserved or a slash |
| `StagingRefinement.UncleanNamesStoreNothing` | packages/nexcraft-jobs/nexcraft_jobs/runtime/recipe_staged_workflow.py:35-87 | and with any other character no schedule makes it store anything |
| `StagingRefinement.CleanNamesRefineExactly` | packages/nexcraft-jobs/nexcraft_jobs/runtime/local.py:25-49 | with clean names, free of `/` and `..`, whatever the directory held: the store gets the local result with its metadata coerced and sent; the undisturbed run completes iff the local one stores, dataset names can name views and metadata can be sent; the results are the same iff the metadata has texts for keys and plain values |
| `Metadata.SanitizeMetadata` | packages/nexcraft-jobs/nexcraft_jobs/runtime/temporal_staged_activities.py:35-46 | keys become texts and scalars plain values, later entries of a key replacing earlier ones |
| `Metadata.SanitizedIsSameIff` | packages/nexcraft-jobs/nexcraft_jobs/runtime/temporal_staged_activities.py:35-46 | the coercion keeps a dictionary as it is iff its keys are texts and none of its values is a scalar of an array library |
| `Metadata.ArrivesSameIff` | packages/nexcraft-jobs/nexcraft_jobs/runtime/temporal_staged_activities.py:214-240 | coerced and sent as JSON, metadata arrives as it was iff its keys are texts and all its values plain |
| `Metadata.MetadataArrives` | packages/nexcraft-jobs/nexcraft_jobs/runtime/temporal_staged_activities.py:35-46 | what arrives: for every text a key becomes, the value of the last such key, plain, unwrapped or in its JSON form |
| `StagingObject.Worker.WriteDataset` | packages/nexcraft-jobs/nexcraft_jobs/runtime/parquet_extract.py:17-62 | batches go to the temporary file, which replaces the destination once all are in; the totals are those of the stream; an interruption touches the temporary file alone |
| `StagingObject.Worker.RunAttempt` | packages/nexcraft-jobs/nexcraft_jobs/runtime/temporal_staged_activities.py:86-120 | one attempt writes dataset after dataset up to where it stops |
| `StagingObject.Worker.RunActivity` | packages/nexcraft-jobs/nexcraft_jobs/runtime/recipe_staged_workflow.py:44-71 | attempts follow one another until one answers, the limit is reached or a failure is final |
| `StagingObject.Worker.RunPersist` | packages/nexcraft-jobs/nexcraft_jobs/runtime/recipe_staged_workflow.py:73-87 | up to five attempts to hand the result to the store |
| `StagingObject.Worker.OpenAll` | packages/nexcraft-jobs/nexcraft_jobs/runtime/temporal_staged_activities.py:150-152 | the tables behind the URIs handed over, up to the first that cannot be opened |
| `StagingObject.Worker.FailingAttempts` | packages/nexcraft-jobs/nexcraft_jobs/runtime/recipe_staged_workflow.py:73-87 | the attempts of a persist that cannot read: up to the limit or the first final failure |
| `StagingObject.Worker.CreateViews` | packages/nexcraft-jobs/nexcraft_jobs/compute/duckdb_setup.py:39-43 | name by name: a refused name is final, a name that does not parse is retried |
| `StagingObject.Worker.Compute` | packages/nexcraft-jobs/nexcraft_jobs/runtime/temporal_staged_activities.py:150-161 | one attempt up to the recipe's result: open, create the views, run |
| `StagingObject.Worker.RunCompute` | packages/nexcraft-jobs/nexcraft_jobs/runtime/recipe_staged_workflow.py:57-71 | compute under its two attempts, each opening its inputs anew and writing its output |
| `StagingObject.Worker.RunWorkflow` | packages/nexcraft-jobs/nexcraft_jobs/runtime/recipe_staged_workflow.py:35-87 | validate, extract, compute and persist, each only after the one before has answered, handing over URIs |
| `Cycles.DirectedGraphHasCycle` | packages/ontology-foundry/ontology_foundry/eval/causal_checks.py:49-74 | true iff the edge list contains a directed cycle, self-loops included |
| `Cycles.Search.constructor` | packages/ontology-foundry/ontology_foundry/eval/causal_checks.py:51-59 | the nodes are the endpoints of the edges, all white, with their successors |
| `Cycles.ReadEdges` | packages/ontology-foundry/ontology_foundry/eval/causal_checks.py:51-56 | the endpoints of the edges, and the successors of each node |
| `Cycles.Search.Visit` | packages/ontology-foundry/ontology_foundry/eval/causal_checks.py:61-69 | a cycle is reported only if there is one; else the node is black, grey nodes are again the path, black nodes are on no cycle, and fewer nodes are white |
| `Cycles.Search.Finish` | packages/ontology-foundry/ontology_foundry/eval/causal_checks.py:68-68 | a node whose successors are all black becomes black and leaves the path |
| `Cycles.AddFinished` | packages/ontology-foundry/ontology_foundry/eval/causal_checks.py:68-69 | a node whose successors are all on no cycle is on none |
| `Cycles.ClosingEdge` | packages/ontology-foundry/ontology_foundry/eval/causal_checks.py:63-65 | an edge back to a grey node closes a cycle |
| `Spans.MergeEntitySpans` | packages/ontology-foundry/ontology_foundry/ner/merge.py:31-47 | the loop computes the greedy selection in score order, listed by start |
| `Spans.GreedyIsUnique` | packages/ontology-foundry/ontology_foundry/ner/merge.py:38-47 | what is kept is the one set holding a span iff it overlaps no kept span before it in the score order |
| `Spans.MergedAreDisjoint` | packages/ontology-foundry/ontology_foundry/ner/merge.py:31-47 | the result is ordered by start and free of overlaps and holds only spans of the input, each no more often; non-empty ones follow one another |
| `Spans.MergeIdempotent` | packages/ontology-foundry/ontology_foundry/ner/merge.py:31-47 | merging twice is merging once, for all spans |
| `Spans.DroppedIsOutranked` | packages/ontology-foundry/ontology_foundry/ner/merge.py:26-47 | a span is dropped only for a kept one that overlaps it and has a higher composite score, or the same and an earlier start, or the same and no later end |
| `Markers.TryPosition` | packages/ontology-foundry/ontology_foundry/ner/stages.py:186-217 | the search at one position, with its test against used spans, finds what the search without the test finds: the test never fires |
| `Markers.Extract` | packages/ontology-foundry/ontology_foundry/ner/stages.py:172-220 | the loop computes the scan |
| `Markers.MatchesOutsideWords` | packages/ontology-foundry/ontology_foundry/ner/stages.py:186-212 | a marker matches where the lowered text has it and neither end is inside a word |
| `Markers.ScanFindsLongestMarkers` | packages/ontology-foundry/ontology_foundry/ner/stages.py:172-220 | spans are ordered and disjoint, each is the longest marker on word boundaries at its start, and every such occurrence of any marker starts inside a span |
| `Markers.RaisesIffEmptyMarkerIsReached` | packages/ontology-foundry/ontology_foundry/ner/stages.py:196-199 | an empty marker makes the scan raise iff the other markers' spans do not tile the text; without one it never raises |
| `Chunker.LoopEndsIff` | packages/ontology-foundry/ontology_foundry/chunkers.py:86-106 | the loop ends iff the text fits one window or the overlap is less than the window |
| `Chunker.RunsForever` | packages/ontology-foundry/ontology_foundry/chunkers.py:103-106 | otherwise every turn starts at the beginning of the text |
| `Chunker.ChunkText` | packages/ontology-foundry/ontology_foundry/chunkers.py:77-108 | the loop computes the list of windows |
| `Chunker.BuildChunk` | packages/ontology-foundry/ontology_foundry/chunkers.py:87-102 | one window with its id and those of its neighbours |
| `Chunker.ChunksAreLinkedWindows` | packages/ontology-foundry/ontology_foundry/chunkers.py:86-106 | chunk i starts i steps into the text, names its neighbours exactly when it has them, and begins with the last `overlap` characters of the one before |
| `Chunker.CountsWindows` | packages/ontology-foundry/ontology_foundry/chunkers.py:86-106 | n characters make 1 + ceil((n - max) / (max - overlap)) chunks when n > max, else at most one |
| `Chunker.CeilDivBounds` | packages/ontology-foundry/ontology_foundry/chunkers.py:86-106 | that quotient is the least number of steps that reach the end of the text |
| `Chunker.ChunksReassemble` | packages/ontology-foundry/ontology_foundry/chunkers.py:77-108 | dropping the overlaps and joining the chunks gives the text back |
| `SqlText.SplitTopLevel` | packages/ontology-pipeline/ontology_pipeline/introspect_sql.py:371-390 | the character loop computes the split |
| `SqlText.DepthCounts` | packages/ontology-pipeline/ontology_pipeline/introspect_sql.py:371-390 | the depth of a place is the opening parentheses before it less the closing ones |
| `SqlText.JoinOfSplit` | packages/ontology-pipeline/ontology_pipeline/introspect_sql.py:371-390 | joining the fragments restores the body up to one trailing top-level comma |
| `SqlText.SplitInvertsJoinIff` | packages/ontology-pipeline/ontology_pipeline/introspect_sql.py:371-390 | splitting a join returns the fragments iff they have no top-level commas, all but the last are balanced, and the last is not empty |
| `SqlText.LiteralReadIff` | packages/ontology-pipeline/ontology_pipeline/introspect_sql.py:160-160 | the literal pattern reads a body iff it is well formed and stands between quotes with a semicolon behind |
| `SqlText.QuotingRoundTrips` | packages/nexcraft-jobs/nexcraft_jobs/compute/duckdb_setup.py:30-31 | any string, quoted and read back, is itself; any readable body is the quoting of what it stands for |
| `SqlText.UnescapeRoundTrip` | packages/ontology-pipeline/ontology_pipeline/introspect_sql.py:393-395 | a literal body is the escaping of its unescaped form |
| `Induction.GroupEdges` | packages/ontology-foundry/ontology_foundry/relations/induction.py:61-64 | the dictionary pass groups the edges by canonical name in the order first met |
| `Induction.CountTypes` | packages/ontology-foundry/ontology_foundry/relations/induction.py:72-76 | the typed ends of a group's edges, counted |
| `Induction.InduceSchema` | packages/ontology-foundry/ontology_foundry/relations/induction.py:58-88 | the induced records for whatever clusters the model returns |
| `Induction.CanonicalizePredicates` | packages/ontology-foundry/ontology_foundry/relations/induction.py:154-163 | the loops over clusters, members and surfaces compute the mapping |
| `InductionNames.MappingByPosition` | packages/ontology-foundry/ontology_foundry/relations/induction.py:154-163 | a surface that clusters name has the name of the last of them, any other surface of the edges stands for itself, and nothing else is mapped |
| `InductionNames.InducedByName` | packages/ontology-foundry/ontology_foundry/relations/induction.py:58-88 | every name that enough edges have, and no other, has one induced predicate; it summarises just these edges and lists all surfaces of that name |
| `InductionNames.TogetherIffSameName` | packages/ontology-foundry/ontology_foundry/relations/induction.py:58-88 | two edges are in one induced predicate iff the last clusters that name their surfaces give one name, and enough edges have it |
| `Induction.ConfidencesAdd` | packages/ontology-foundry/ontology_foundry/relations/induction.py:78-86 | the total of a group is the sum of its edges' confidences |
| `Induction.MostCommonIsTop` | packages/ontology-foundry/ontology_foundry/relations/induction.py:170-170 | the most common type is counted as often as any, and more often than those met before it |
| `Induction.TypesBySixTenths` | packages/ontology-pipeline/ontology_pipeline/pipeline.py:766-784 | domain and range of a predicate are the types that six tenths of its subjects and objects have, or "Thing" |
| `Induction.AttachedWithTypes` | packages/ontology-pipeline/ontology_pipeline/pipeline.py:785-819 | every attachment is of an edge that has the types of the predicate its surface leads to |
| `Induction.AttachEdges` | packages/ontology-pipeline/ontology_pipeline/pipeline.py:785-819 | the attachment loop |
| `Induction.GroupsPartition` | packages/ontology-foundry/ontology_foundry/relations/induction.py:61-64 | each canonical name is listed once, its group is not empty, and the group sizes add up to the number of edges |
| `Induction.SurfacesLeadBack` | packages/ontology-pipeline/ontology_pipeline/pipeline.py:759-764 | looking an edge's surface up gives the canonical name of its group, iff that group has the support |
| `Induction.SurfacesDisjoint` | packages/ontology-foundry/ontology_foundry/relations/induction.py:77-77 | different predicates share no surface |
| `Induction.DominantIffShare` | packages/ontology-foundry/ontology_foundry/relations/induction.py:166-171 | a type is dominant iff it has the share, whatever the order of ties, for shares above one half |
| `Induction.OneFifthAttached` | packages/ontology-pipeline/ontology_pipeline/pipeline.py:785-819 | the edges attached to a predicate are those of its group with its types; if both types are dominant they are at least one fifth of its edges |
| `KMeans.Run` | packages/nexcraft-jobs/_archive/udfs/mltools_json.py:170-186 | labels name nearest centres, centres are those of the iterations, the cost is at most the initial one; no points or clusters give no labels |
| `KMeans.IterateInPlace` | packages/nexcraft-jobs/_archive/udfs/mltools_json.py:178-183 | one iteration on the array of centres, overwritten one by one |
| `KMeans.IterationNeverRaisesCost` | packages/nexcraft-jobs/_archive/udfs/mltools_json.py:177-183 | an iteration never raises the total squared distance to the nearest centres, empty clusters included |
| `KMeans.CostNeverRises` | packages/nexcraft-jobs/_archive/udfs/mltools_json.py:177-183 | nor do any number of further iterations |
| `KMeans.MeanMinimises` | packages/nexcraft-jobs/_archive/udfs/mltools_json.py:181-183 | no point is better for a cluster than its mean |
| `KMeans.ArgminIsCheapest` | packages/nexcraft-jobs/_archive/udfs/mltools_json.py:178-179 | nearest centres cost no more than any other labels |
| `KeepBest.DedupeKeepBest` | packages/ontology-foundry/ontology_foundry/relations/pipeline.py:38-49 | the dictionary pass keeps one item a key |
| `KeepBest.DedupeIs` | packages/ontology-foundry/ontology_foundry/relations/pipeline.py:38-49 | each key once, in the order first met, with the first of its highest-ranked items |
| `KeepBest.BestIs` | packages/ontology-foundry/ontology_foundry/relations/pipeline.py:44-48 | the item kept for a key outranks all before it with the key and is outranked by none |
| `KeepBest.DedupeInParts` | packages/ontology-foundry/ontology_foundry/relations/pipeline.py:38-49 | deduping two parts and then their join is deduping the whole |
| `Relations.ExtractChunk` | packages/ontology-foundry/ontology_foundry/relations/pipeline.py:26-35 | the edges of all stages, deduped |
| `Relations.StagesMayDedupe` | packages/ontology-foundry/ontology_foundry/relations/pipeline.py:26-35 | deduping each stage first makes no difference |
| `Relations.EdgesAreKeptOnce` | packages/ontology-foundry/ontology_foundry/relations/pipeline.py:26-49 | the edges of a chunk come from its stages, no two agree in subject, surface and object, and of every extracted edge there is one with its three at least as confident |
| `Relations.CandidatesComeFromSurfaces` | packages/ontology-pipeline/ontology_pipeline/annotate_ner.py:206-237 | a candidate is the first and strongest of the surfaces that link to its card, and every linked surface has one, with its column |
| `Relations.Aggregate` | packages/ontology-pipeline/ontology_pipeline/annotate_ner.py:206-237 | the dictionary holds for each linked card its first strongest evidence and its columns |
| `Relations.RunLinker` | packages/ontology-pipeline/ontology_pipeline/annotate_ner.py:195-238 | one candidate for each linked card, by falling confidence and then by card |
| `Relations.ColumnsAreDistinct` | packages/ontology-pipeline/ontology_pipeline/annotate_ner.py:219-222 | a candidate's columns are those of all its evidence, each once |
| `Folds.Totals` | packages/nexcraft-jobs/_archive/udfs/sql_moving_averages.py:503-505 | the totals of all groups |
| `Folds.CumulativeOperations` | packages/nexcraft-jobs/_archive/udfs/sql_moving_averages.py:503-540 | every row gets the sum, product, maximum and minimum of its own group's values so far, and its share of the group's total |
| `Folds.Extremes` | packages/nexcraft-jobs/_archive/udfs/sql_moving_averages.py:516-523 | maximum and minimum are values of the group that bound all of them |
| `Folds.PercentIsShare` | packages/nexcraft-jobs/_archive/udfs/sql_moving_averages.py:524-527 | a share of the total in percent, absent iff the total is zero |
| `Folds.LastRowIsWhole` | packages/nexcraft-jobs/_archive/udfs/sql_moving_averages.py:524-527 | the last row of a group has the group's whole sum, and one hundred percent where there is a share |
| `Folds.EmaArrow` | packages/nexcraft-jobs/_archive/udfs/timeseries.py:27-30 | the array pass gives each entry the moving average of the values so far |
| `Folds.GroupedEma` | packages/nexcraft-jobs/_archive/udfs/sql_moving_averages.py:714-727 | the dictionary pass gives each row the moving average of its own group's values so far, at the rate given or, without one, 0.3 |
| `Folds.GroupedIsListForm` | packages/nexcraft-jobs/_archive/udfs/sql_moving_averages.py:721-727 | which is the entry that the list form, run on the whole group, has at that row's place in it |
| `Folds.EmaBetweenExtremes` | packages/nexcraft-jobs/_archive/udfs/sql_moving_averages.py:721-727 | for rates above 0 and up to 1 the average stays between the smallest and the largest value |

## Left out

- Stream: the `on_cancel` hook, the error of `schema` before the first batch, execution without the stream guard, and `execute_to_reader`.
- StreamRuns.UnhinderedStreamDelivers: is about a producer that makes no further batch; `MovesAreBounded` counts the moves that each further batch adds.
- ArrowStream.CleanupEndsIffHandlerHasRoom: does not cover a producer that swallows the cancellation, nor a second cancellation, of the cleanup itself; `SecondCancellationFrees` says what the latter does to a wedged stream.
- Async store: `purge_spool`, unlink failures, error messages, and row groups of a fetched file (`fetch` is one table).
- Pools: tenant checks, secrets and pool sizes; cancellation of `close` itself.
- Handles: the driver failing to take a connection back, which discards it, and what a driver's pool does with checkouts and connections once it is being closed: a checkout from a closed pool may succeed or fail.
- Handles.HandlesConserved: takes the identities of live handles to be distinct, which `id` gives for objects that are still referenced; `AcquireTightIffNewIdentity` says what happens otherwise.
- Router: `describe`, which pairs acquire and release in the same way.
- Router.Execute: is one call by itself; calls among others and among closes are the events of `Handles` and the methods of `Router.SharedProvider`.
- Incremental runs: enrichment, annotations, statistics, cross-asset passes and the JSON form of the state file; what the language model adds to a table's model is not deterministic and not part of what is compared. SHA-256 is taken to be free of collisions: the hashed payload stands for the hash.
- Incremental.StaleIff: one source, and records and sink that start empty. An unreadable state file, which starts a run afresh, is not modelled.
- Mdl.BuildMdl: capitalisation is that of ASCII letters; fields of the model that are the same for every table are left away.
- Staging: timeouts and heartbeats; two attempts of one activity alive at once and writing the same temporary file; `staging_root` unset; the contents of tables are row sequences, Parquet and Arrow are taken to give back what they were given. Paths are resolved ones: symbolic links and a changed working directory are not modelled. DuckDB's views are taken to read what the readers opened for the same URIs read.
- StagingRefinement.StagedRefinesLocal: what is compared is what reaches the store; recipes are functions of their inputs, for the same parameters, and read each input once. A local input may be a reader that a second scan finds empty, where the staged view can be scanned again: a recipe that scans an input twice is not modelled. Names that DuckDB takes for the same, but for case, are taken to be different.
- StagingRefinement.SmoothRunCompletesIff: which characters are alphanumeric, which names a view can have without quotes and what JSON makes of a value that is not its own are parameters of `Staging.Library`; assumed is that `/`, `.` and `%` are not alphanumeric, and for `DatasetNamedByYear` that digits are and start no identifier. Limits of the file system and column types that Parquet cannot hold are not modelled.
- Spans: fields of a span that merging does not look at beyond the ones modelled.
- Markers: lower-casing is taken to keep the length of the text.
- Chunker.ChunkText: is about the runs that end; `LoopEndsIff` says which those are. Token counts and content hashes of chunks are not modelled.
- SqlText: the rest of the COMMENT and CREATE TABLE patterns.
- Induction: the prompt and the seeds; the clusters in the answer are an arbitrary value and its normalisation is a parameter. Surfaces of a predicate are a set, not a sorted tuple.
- Induction.OneFifthAttached: for typed edges, which the pipeline's always are, since it gives an asset without a concept the type `asset`.
- KMeans.Run: the random starting indices are a parameter; arithmetic is over the reals, and the squared distance stands for the distance, which orders points alike.
- Folds: parsing and sorting of rows, row numbers and time stamps, deviations, and the moving averages over fixed windows; arithmetic is over the reals.
- Relations: enumeration of surfaces and the linker's lexicon; `link` is an arbitrary function.
- Drivers, Flight, HTTP, CLIs, configuration and statistics wrappers.
