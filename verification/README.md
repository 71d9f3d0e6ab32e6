# SiftCoder memory daemon: a verified model

SiftCoder's memory daemon captures events to a log and to a SQLite store, hands them to concurrent
drainers that summarise them, marks near-duplicate summaries as superseded, and answers searches and graph
queries. This project models its core in Dafny and proves what the code keeps.

| Files | What they model |
|---|---|
| `EventTable`, `DrainProtocol`, `Drain` | the event queue: the promise-chain write lock, the claim transaction, release with an attempt count, and `runDrain` |
| `Graph`, `Exploration`, `EdgeQueries`, `Trace`, `Subgraph`, `ShortestPath` | the three breadth-first searches over the provenance multigraph |
| `Supersedes`, `Consolidator`, `ConsolidatorRuns`, `ConsolidatorMarks` | the supersedes relation under foreign-key cascade, one consolidator tick, and ticks interleaved with inserts, deletions and restarts |
| `TextLines`, `Ndjson`, `Wal`, `Recovery`, `RecoveryRuns`, `RecoveryOrigins` | JSON lines, the write-ahead log, the boot replay, and every run of captures, crashes and boots |
| `Snapshot` | export and import of the seven tables |
| `Framing` | the length-prefixed frame codec and its incremental decoder |
| `Sequences`, `Sorting`, `Retrieval`, `RetrievalLaws`, `Federation` | stable sorting, rank fusion, the two hybrid searches, and the merge over workspaces |
| `LogRotation`, `LogRotationRuns` | the rotating log file, and every run of writes, restarts and crashes |
| `WorkerPool`, `PeriodicDrain`, `ContextBudget` | the bounded worker pool, the self-rearming drain loop, and the greedy token budget |

Code that updates state in place is a class or a method with loops, proved against a function of the old
state; the properties are proved about that function. Concurrent code is a state machine with one SQL
statement, append, file operation or stretch between two awaits a step; its theorems hold after any
sequence of enabled steps, and most are stated on the sequence of actions itself. SQL tables are sequences,
sets or maps of rows with their keys and cascades.

Some promises hold only under a condition. Each of these is stated as an equivalence, or as a result for the
good case beside a counterexample for the other:

- `1 << backoffSteps` is a 32-bit shift, so a re-arm delay is the interval times a power of two within the
  cap exactly when `maxBackoffSteps` lies from 0 to 30 (`PeriodicDrain.DelaysExactlyWithinCap`).
- A tick does not look at the stop flag again after awaiting its counts, so a drain can start after `stop`
  exactly when `stop` comes during that await (`PeriodicDrain.StopStopsDrainsUnlessCounting`).
- Log files are bounded exactly when rotation is on and at least one generation is kept
  (`LogRotationRuns.BoundedExactlyWhenRotating`).
- A worker pool of size zero or less runs no task (`WorkerPool.EveryResultInPlace`).
- All nodes of some kinds have distinct keys exactly when none of the kinds begins with another one of them
  and a colon (`Exploration.KeysExactly`, `Exploration.KeyCollision`).
- None of a drain's batch stays claimed exactly when no event of it throws a value whose message is not a
  string; the first that does ends the drain, and it and the events after it stay claimed
  (`Drain.NoneStaysClaimed`, `Drain.DrainSettlesItsBatch`).
- A consolidator tick dies, and no later one is scheduled until the daemon restarts, exactly when it marks a
  pair of which a summary was deleted since the tick read the rows (`ConsolidatorRuns.TickDies`). A superseded
  prune between a tick's first two reads can do that (`ConsolidatorRuns.PruneBetweenReadsKills`); at any other
  time a prune is harmless, and so is any deletion between ticks (`ConsolidatorRuns.HarmlessRunSurvives`).
- A graph search from a node to itself returns the empty path whatever `maxDepth` is
  (`ProvenancePath.ShortestPath`).

Two comments in the repository differ from its code, and the model follows the code: `shortestPath` says it
picks the lowest edge id, but rows come in descending `ts` order (src/memory/storage/storage.ts:1467-1469);
`exportRows` lists an order of tables in its comment that is not the order of its queries
(src/memory/storage/storage.ts:1375-1383).

## Model

| member | source | states |
|---|---|---|
| `DrainProtocol.LockKept` | src/memory/storage/storage.ts:122-132 | every step keeps the lock discipline: calls are numbered in arrival order, each waits for the one before it, only the last one served is inside, and the open transaction is its own |
| `DrainProtocol.NoOpenTransaction` | src/memory/storage/storage.ts:740-743 | whoever is about to BEGIN finds no transaction open |
| `DrainProtocol.LockMoves` | src/memory/storage/storage.ts:122-132 | while anyone waits, the drainer inside can step or the next in arrival order can enter, also after a refused BEGIN |
| `DrainProtocol.BatchKept` | src/memory/storage/storage.ts:740-793 | every step, with captures, deletions and requeues in between, keeps each claimed row in exactly one unsettled batch |
| `DrainProtocol.ClaimsAreSerial` | src/memory/storage/storage.ts:740-772 | in every reachable state whoever is about to BEGIN finds no transaction open, at most one drainer is in a claim transaction, and the lock was granted in the order in which it was asked for |
| `DrainProtocol.ClaimsAreExclusive` | src/memory/daemon/server.ts:70-108 | in every reachable state each claimed event lies in the unsettled batch of exactly one drainer, batches never overlap, and the stored events of a committed batch are claimed |
| `DrainProtocol.StatementsDo` | src/memory/storage/storage.ts:712-793 | what each statement does to the table: a claim selects the first raw ids, or the one asked for if it is raw, a mark claims exactly the selected rows, settling sets one status, a capture adds a raw row unless its key is stored, a requeue clears attempts and error, and nothing else writes |
| `DrainProtocol.DrainersMove` | src/memory/daemon/server.ts:80-98 | a drainer that has its batch can settle it in every way, one at rest can ask for a batch, and other writers can come at any moment |
| `DrainProtocol.ClaimTakes` | src/memory/storage/storage.ts:740-772 | a call that finds the lock free and is not disturbed ends with exactly the chosen rows claimed and in its batch, the transaction closed and the lock released |
| `DrainProtocol.NoAttemptIsLost` | src/memory/storage/storage.ts:778-793 | releaseClaimed reads the attempts and writes them in a later statement; whatever runs in between, the write counts exactly one more than the row then has, and skips at the third |
| `EventTable.FirstWithStatusExact` | src/memory/storage/storage.ts:744-755 | a claim selects, in ascending order, ids of rows with the status, at most limit of them: all if the limit is negative or not reached, otherwise those with the lowest ids |
| `EventTable.WithStatusCounts` | src/memory/storage/storage.ts:1306-1311 | the count of a status is the number of rows that have it |
| `EventTable.InsertExact` | src/memory/storage/storage.ts:206-223 | an insert leaves the table as it is if the key is stored, and otherwise adds one raw row of no attempts; keys stay unique |
| `EventTable.UpdateValid` | src/memory/storage/storage.ts:778-793 | an update that keeps ids and requeues only rows with attempts left keeps the table valid |
| `Drain.EventStore.RecordEvent` | src/memory/storage/storage.ts:206-223 | adds a raw row with no attempts unless its session and hash are stored; a positive time to live sets its expiry; keys stay unique |
| `Drain.EventStore.MarkEventStatus` | src/memory/storage/storage.ts:712-714 | sets the status of one row and nothing else |
| `Drain.EventStore.ClaimPending` | src/memory/storage/storage.ts:740-772 | returns, ascending, the raw ids with the lowest ids up to the limit, all without a limit or below it, and marks exactly those rows claimed |
| `Drain.EventStore.ReleaseClaimed` | src/memory/storage/storage.ts:778-793 | counts the attempt, keeps the error and requeues the row, or skips it at the third; nothing else changes |
| `Drain.RetryableExactly` | src/memory/daemon/server.ts:50-68 | a failure is retried exactly when its message says one of fourteen phrases somewhere, in upper or lower case |
| `Drain.RunDrain` | src/memory/daemon/server.ts:70-108 | settles its batch in order, each event by what the model made of it, and throws exactly when an event of it throws a value without a message; otherwise it processes the successes and counts the rest as errors, together no more than the batch size, and reports the first failure and the number of raw rows |
| `Drain.FirstFailureIsFirst` | src/memory/daemon/server.ts:99-107 | the error reported is the message of the first event of the batch that failed |
| `Drain.DrainSettlesItsBatch` | src/memory/daemon/server.ts:80-98 | each event the drain gets through is settled by its outcome: summarized, skipped, or one attempt more and requeued, or skipped at the third; the events from the one that ends it on stay claimed, and every other row is untouched |
| `Drain.NoneStaysClaimed` | src/memory/daemon/server.ts:88-98 | none of the batch stays claimed exactly when no event of it throws a value without a message |
| `Drain.DrainLowersBacklog` | src/memory/daemon/server.ts:70-108 | a drain with a non-empty batch strictly lowers the failures still allowed, whatever the model does |
| `Drain.BacklogIsAttemptsLeft` | src/memory/storage/storage.ts:778-793 | that measure is the sum over raw rows of 3 minus their attempts |
| `Drain.EmptyBatch` | src/memory/storage/storage.ts:744-755 | a batch is empty exactly when its size is zero or nothing is raw |
| `Drain.DrainsLowerBacklog` | src/memory/daemon/server.ts:70-108 | n drains in a row lower the backlog by at least n while anything is raw |
| `Drain.DrainsEmptyTheQueue` | src/memory/daemon/server.ts:70-108 | as many drains as the initial backlog empty the queue, with any batch sizes but zero and any outcomes |
| `Graph.WalkStaysInBall` | src/memory/provenance.ts:165-202 | a chain of n edges ends within n hops |
| `Graph.BallHasWalk` | src/memory/provenance.ts:165-202 | every node within d hops is reached by a chain of at most d edges |
| `Exploration.ColonFreeKinds` | src/memory/provenance.ts:234-236 | nodes whose kinds have no colon have distinct keys, whatever their ids |
| `Exploration.KeyCollision` | src/memory/provenance.ts:234-236 | if a kind begins with another one and a colon, every node of it shares its key with a node of the other |
| `Exploration.KeysExactly` | src/memory/provenance.ts:234-236 | all nodes of some kinds have distinct keys exactly when none of the kinds begins with another of them and a colon |
| `Exploration.CrossEdge` | src/memory/provenance.ts:97-102 | crossing an edge adds its far end to the explored set exactly when its key is new |
| `EdgeQueries.OutgoingRows` | src/memory/storage/storage.ts:1461-1470 | the query returns each stored edge leaving the node, of the type asked for if one is, once, newest first |
| `EdgeQueries.IncomingRows` | src/memory/storage/storage.ts:1472-1481 | the query returns each stored edge entering the node, of the type asked for if one is, once, newest first |
| `ProvenanceTrace.Trace` | src/memory/provenance.ts:89-108 | returns exactly the stored edges whose source a walk of fewer than maxDepth edges reaches, each once, nearer sources first |
| `ProvenanceSubgraph.Subgraph` | src/memory/provenance.ts:116-153 | the result is within the cap, distinct, of the type asked for, closed under ends, and every node is reached over returned edges in at most maxDepth hops; below the cap it has every edge of the type at a node fewer than maxDepth hops away |
| `ProvenancePath.WalkBack` | src/memory/provenance.ts:184-193 | following parents back from the target and reversing gives the tree's chain from the source |
| `ProvenancePath.HitIsShortest` | src/memory/provenance.ts:179-193 | the first chain to reach a node is a shortest one |
| `ProvenancePath.MissMeansFar` | src/memory/provenance.ts:172-201 | an exhausted search proves every chain longer than maxDepth |
| `ProvenancePath.ShortestPath` | src/memory/provenance.ts:165-202 | returns a chain from source to target no longer than any other and within maxDepth, or null exactly when every chain is longer |
| `Supersedes.LinkKeepsForest` | src/memory/storage/storage.ts:1024-1028 | linking two different unsuperseded summaries keeps the relation a forest |
| `Supersedes.DeleteKeepsForest` | src/memory/storage/schema.ts:81-87 | deleting summaries with their links keeps it a forest |
| `Supersedes.NoCycle` | src/memory/storage/schema.ts:81-87 | no chain of links returns to its start |
| `Supersedes.LeadsToLive` | src/memory/storage/storage.ts:1024-1035 | from any stored summary the links lead to a stored one that is not superseded |
| `Supersedes.LiveIsUnique` | src/memory/storage/storage.ts:1024-1035 | there is only one such chain |
| `Supersedes.PruneKeepsLive` | src/memory/storage/storage.ts:1197-1206 | pruning superseded summaries keeps exactly the live ones and no link |
| `Supersedes.WithoutCascade` | src/memory/storage/schema.ts:81-87 | without the cascade, deleting an unsuperseded summary would leave what it superseded stored and hidden, with no chain to a live summary |
| `Consolidator.CosineSymmetric` | src/memory/daemon/consolidator.ts:89 | similarity does not depend on which summary is newer, so a scan of each pair in one order covers both |
| `Consolidator.CosineIsDot` | src/memory/daemon/consolidator.ts:89 | it is the sum of the products of the coordinates both vectors have |
| `Consolidator.LiveFacts` | src/memory/daemon/consolidator.ts:72-77 | the scan goes over exactly the unsuperseded, unpinned embeddings, oldest first |
| `Consolidator.Worker.Start` | src/memory/daemon/consolidator.ts:40-44 | starts once, and arms the timer |
| `Consolidator.Worker.Stop` | src/memory/daemon/consolidator.ts:46-52 | stops for good and clears the timer |
| `Consolidator.Worker.Tick` | src/memory/daemon/consolidator.ts:64-99 | every mark has a later similar summary; unless the pair limit ended it, no two unmarked live summaries are similar, either way round; similarity is computed at most pairLimit times; the relation stays a forest and the marked are exactly the newly superseded |
| `ConsolidatorRuns.Kept` | src/memory/daemon/consolidator.ts:64-99 | every step of a tick, and every insert, prune, sweep and restart between its statements, keeps the relation a forest, the open summaries unsuperseded and what the scan has established |
| `ConsolidatorRuns.EveryRunKeepsTheForest` | src/memory/daemon/consolidator.ts:73-96 | after any run from a store without links each summary is superseded at most once, links never cycle, and every stored summary leads to a stored live one |
| `ConsolidatorRuns.EveryTickMarksDuplicates` | src/memory/daemon/consolidator.ts:77-98 | whatever other writers do, when a tick ends every mark has a later similar embedding, similarity was computed at most pairLimit times, and unless the limit ended it no two unmarked embeddings of the scan are similar |
| `ConsolidatorMarks.MarksAreStored` | src/memory/daemon/consolidator.ts:90-92 | at any moment of a tick each of its marks is stored as a link from a later similar summary, unless one of the two was deleted since the tick read the rows |
| `ConsolidatorMarks.LinksAreSimilar` | src/memory/daemon/consolidator.ts:66-92 | in every reachable state each link joins two summaries that a tick has read and found similar, from the older to one not older |
| `ConsolidatorMarks.TicksCount` | src/memory/daemon/consolidator.ts:66-88 | a tick goes on to scan exactly when minDelta embeddings came since the last scan of this daemon, and computes at most pairLimit similarities |
| `ConsolidatorMarks.TickEnds` | src/memory/daemon/consolidator.ts:64-99 | from any reachable state a tick left to itself comes to rest or dies, each step leaving it fewer |
| `ConsolidatorMarks.OthersAnytime` | src/memory/storage/storage.ts:1184-1206 | inserts, deletions, prunes and restarts can come between any two steps of a tick, and what they leave |
| `ConsolidatorRuns.TickDies` | src/memory/daemon/consolidator.ts:90-91 | after any run the consolidator is dead exactly when, since the last restart, a tick marked a pair of which a summary had been deleted since that tick read the rows |
| `ConsolidatorRuns.PruneTakesNothingOpen` | src/memory/storage/storage.ts:1197-1206 | once a tick has read the superseded ids, a prune of superseded summaries takes none that the tick may still mark or mark by |
| `ConsolidatorRuns.HarmlessRunSurvives` | src/memory/daemon/consolidator.ts:66-96 | a tick never dies if summaries are removed only between ticks and pruned only outside a tick's first two reads |
| `ConsolidatorRuns.PruneBetweenReadsKills` | src/memory/daemon/consolidator.ts:66-91 | a run from a store without links, with no removal but a prune between the two reads, in which the tick dies |
| `TextLines.SpacesAre` | src/memory/daemon/wal.ts:46 | what counts as blank is made of the twenty-five white space characters that trim removes |
| `TextLines.SplitLine` | src/memory/daemon/wal.ts:45 | a line without a newline is split off the text after it |
| `TextLines.SplitJoin` | src/memory/daemon/server.ts:425 | splitting joined lines gives the lines back |
| `Ndjson.ParseWrite` | src/memory/daemon/wal.ts:30 | parsing a written JSON document gives the document |
| `Ndjson.TornObject` | src/memory/daemon/wal.ts:47-51 | no proper prefix of an object's text parses |
| `Ndjson.OneLine` | src/memory/daemon/wal.ts:30 | a written document contains no newline |
| `Ndjson.IntRoundTrip` | src/memory/daemon/wal.ts:11 | an integer is read back from its numeral |
| `Ndjson.IntForm` | src/memory/daemon/wal.ts:30 | an integer is written as its decimal digits without leading zeros, after a minus sign if it is negative |
| `Ndjson.UnicodeEscapeReads` | src/memory/daemon/wal.ts:48 | every character but a surrogate is read from its four hexadecimal digits |
| `Ndjson.HexDigits` | src/memory/daemon/wal.ts:48 | hexadecimal digits are read in either case, and nothing else is one |
| `Wal.DocumentIsEntry` | src/memory/daemon/wal.ts:10-16 | an entry is read back from its document |
| `Wal.EntryText` | src/memory/daemon/wal.ts:28-33 | the text of an entry's line, property by property |
| `Wal.ReplayGivesBack` | src/memory/daemon/wal.ts:41-54 | replaying complete lines and a torn one gives every complete entry in order, and the torn one only if it lacks just the newline |
| `Wal.WAL.Append` | src/memory/daemon/wal.ts:28-33 | adds the entry's line to the file, opening it if need be |
| `Wal.WAL.ReplayAll` | src/memory/daemon/wal.ts:41-54 | returns the documents of the file, blank and unparsable lines passed over |
| `Wal.WAL.Truncate` | src/memory/daemon/wal.ts:60-63 | empties the file |
| `Recovery.InsertKeeps` | src/memory/storage/storage.ts:206-223 | an ignored or done insert keeps keys unique and old rows in place, and leaves the key stored |
| `Recovery.ReplayRestores` | src/memory/daemon/index.ts:115-131 | after a replay keys are unique, no old row has changed, and every logged entry's key is stored exactly once |
| `Recovery.ReplayAddsFirst` | src/memory/daemon/index.ts:115-131 | each row a replay adds has the time, session, tool and payload of the first logged entry with its key, no token estimate and no expiry |
| `Recovery.ReplayIsIdempotent` | src/memory/daemon/index.ts:115-131 | replaying the log again changes nothing |
| `Recovery.CrashedReplayCatchesUp` | src/memory/daemon/index.ts:115-131 | a replay that crashed anywhere and is run again ends where an undisturbed one does |
| `Recovery.SameHashSamePayload` | src/memory/storage/storage.ts:84-87 | under an injective hash equal input hashes mean equal payloads |
| `Recovery.Database.AddSession` | src/memory/storage/storage.ts:193-197 | inserts the session unless it is there |
| `Recovery.Database.HasEvent` | src/memory/storage/storage.ts:199-204 | tells whether the key is stored |
| `Recovery.Database.RecordEvent` | src/memory/storage/storage.ts:206-223 | inserts the row under the unique index, without touching sessions |
| `Recovery.CaptureEvent` | src/memory/daemon/server.ts:187-204 | ensures the session, appends the entry, then adds the row with the capture's columns unless its key is stored |
| `Recovery.Boot` | src/memory/daemon/index.ts:115-133 | folds the log into sessions and events, cuts the log, and counts the inserted rows; keys stay unique, old rows stay in front, every honest logged key has exactly one row, and each row added has the time, session, tool and payload of the first logged entry of its key |
| `RecoveryRuns.StepKeeps` | src/memory/daemon/index.ts:115-133 | every statement, append, deletion and crash keeps the recovery invariant |
| `RecoveryRuns.TurnReplaysOne` | src/memory/daemon/index.ts:117-131 | the boot steps of one document are the boot loop's body |
| `RecoveryRuns.BootRestoresTheLog` | src/memory/daemon/index.ts:115-133 | after any run, when a boot ends the log is empty and every entry that was in it has exactly one row, of the same payload |
| `RecoveryRuns.BootEnds` | src/memory/daemon/index.ts:115-133 | left to itself a boot comes to the end of the log and cuts it |
| `RecoveryRuns.BootReadsTheLog` | src/memory/daemon/index.ts:115-118 | a boot begins with the documents of the log as it is |
| `RecoveryRuns.CrashInAnyAppend` | src/memory/daemon/wal.ts:28-33 | a crash can leave any proper prefix of a line in the log |
| `RecoveryRuns.CrashAnywhere` | src/memory/daemon/index.ts:115-133 | a crash can come at any moment and leaves the disk as it is |
| `RecoveryRuns.NoFinishedCaptureIsLost` | src/memory/daemon/server.ts:187-204 | after any run with crashes anywhere, when a boot ends a capture whose append finished has exactly one row if and only if no deletion took that row after it was last appended or stored; without deletions, always |
| `RecoveryOrigins.FinishedAppendSurvives` | src/memory/daemon/server.ts:187-204 | once an append has finished, whatever happens then, the end of any later boot finds exactly one row of its key, provided no deletion after the append names the key |
| `RecoveryOrigins.EveryRowWasCaptured` | src/memory/daemon/index.ts:117-130 | in every reachable state each row has the time, session, tool, payload and hash of a capture that came, and its token estimate and expiry or none; each session began with one of its captures |
| `RecoveryOrigins.BootRestoresRows` | src/memory/daemon/index.ts:115-133 | so when a boot ends the row of a logged entry's key carries the columns of a capture of that key |
| `RecoveryOrigins.FlightCaptures` | src/memory/daemon/server.ts:187-204 | the undisturbed steps of a capture do what the capture request does |
| `Snapshot.RowRoundTrip` | src/memory/storage/storage.ts:1404-1441 | every column of every table but events.symbols_json is imported as it was, and that one as null |
| `Snapshot.AllButSymbols` | src/memory/storage/storage.ts:1375-1383 | the export names every column of every table but events.symbols_json |
| `Snapshot.ImportDefaults` | src/memory/storage/storage.ts:1415 | an event without a status, token estimate or attempt count becomes raw, 0 and 0 |
| `Snapshot.ConstraintsAre` | src/memory/storage/schema.ts:17-95 | which columns are unique and which refer to a parent, table by table |
| `Snapshot.ImportKeepsValid` | src/memory/storage/storage.ts:1404-1446 | importing any record keeps keys, not-null columns and foreign keys |
| `Snapshot.OrderHasParentsFirst` | src/memory/storage/storage.ts:1375-1383 | tables are exported after the tables their rows refer to |
| `Snapshot.ImportRebuilds` | src/memory/storage/storage.ts:1374-1446 | importing an export into any part of the exported store completes it: missing rows go in with all columns but symbols, present ones are skipped as they are, and none is refused |
| `Snapshot.SnapshotRebuilds` | src/memory/daemon/server.ts:420-447 | the same for the snapshot's text |
| `Snapshot.RestoreAndRepeat` | src/memory/daemon/server.ts:420-447 | into an empty store every row goes in without error, as it was but for symbols; imported again, or into the exported store itself, none does |
| `Snapshot.Storage.ExportRows` | src/memory/storage/storage.ts:1374-1393 | lists the records of the seven tables in order |
| `Snapshot.Storage.ImportOne` | src/memory/storage/storage.ts:1404-1446 | inserts, skips or throws as the constraints say; the row count tells insert from skip |
| `Snapshot.Storage.HandleExport` | src/memory/daemon/server.ts:420-426 | joins the records' lines and counts them |
| `Snapshot.Storage.HandleImport` | src/memory/daemon/server.ts:428-447 | imports line by line; each line that is not blank is counted once as inserted, skipped or an error, and the store grows by the inserted ones |
| `Framing.HeaderRoundTrip` | src/memory/protocol.ts:505-506 | the header is the big-endian length and reads back as it |
| `Framing.EncodesExactly` | src/memory/protocol.ts:500-508 | a message is encoded, as length and text, exactly when its text is within 16 MiB |
| `Framing.FrameDecoder.Push` | src/memory/protocol.ts:513-527 | yields the messages that buffer and chunk complete, keeps the rest, and throws on an oversized or malformed frame |
| `Framing.DecodeAppend` | src/memory/protocol.ts:513-527 | decoding a longer buffer continues where decoding its prefix stopped |
| `Framing.ChunksDoNotMatter` | src/memory/protocol.ts:510-527 | every split of any stream gives the same messages and the same error, if any, and the same leftover up to the chunk that throws |
| `Framing.DecodeEnds` | src/memory/protocol.ts:516-525 | decoding ends before a frame that is not complete, one over the limit, or a complete one that does not parse, and says which |
| `Framing.FramingRoundTrip` | src/memory/protocol.ts:498-528 | messages within the limit, chunked in any way, come out in order with nothing left |
| `Framing.NothingLost` | src/memory/protocol.ts:510-527 | at every point the messages out re-encode, with the buffer after them, to the bytes received, and the buffer holds no complete frame |
| `Sorting.SortIsStable` | src/memory/federation.ts:95 | the sort gives a descending permutation that keeps ties in order |
| `Sorting.StableSortIsUnique` | src/memory/federation.ts:95 | any stable sort gives that result |
| `Sorting.TruncateRun` | src/memory/federation.ts:80-96 | cutting a ranked list to its best m does not change the best k of a merge when k is at most m |
| `Federation.BestSuffices` | src/memory/federation.ts:71-96 | the best m of each workspace's ranking give the same top k as the complete rankings, ties included |
| `Federation.FederatedSearch` | src/memory/federation.ts:55-97 | asking each selected readable workspace's hybrid search for 2k hits returns the top k of their complete rankings, ties included: the best of all they offer, best first |
| `Federation.SelectExactly` | src/memory/federation.ts:63-69 | the workspaces searched are the first ones whose key has the prefix, up to the limit if there is one |
| `Federation.SearchOne` | src/memory/federation.ts:74-84 | returns the best m of the workspace's complete ranking, or nothing if it cannot be searched |
| `Retrieval.VectorStage` | src/memory/retrieval.ts:145-167 | ids, ranks, similarities and tools of the nearest neighbours |
| `Retrieval.RunRetrievalStages` | src/memory/retrieval.ts:130-169 | the text matches and the vector side, which is empty without an embedder |
| `Retrieval.ScoreAll` | src/memory/retrieval.ts:211-249 | scores exactly the eligible candidates, from their text match or stored row |
| `Retrieval.FuseAndRank` | src/memory/retrieval.ts:191-261 | returns the first k of the complete ranking |
| `Retrieval.ScoredHitsExact` | src/memory/retrieval.ts:206-249 | the scored list holds one hit for each eligible candidate and nothing else |
| `Retrieval.RankingIsBest` | src/memory/retrieval.ts:191-261 | the first k hits are distinct eligible candidates with their fused scores, best first, and none left out scores higher |
| `RetrievalLaws.RankingExactly` | src/memory/retrieval.ts:196-222 | the ranking has one hit for each summary that is in either list, is not superseded unless pinned, and has a match or a stored row; it is ordered by score |
| `RetrievalLaws.FusedScore` | src/memory/retrieval.ts:223-231 | a hit at places i and j of the two lists scores weight over rank constant plus rank, summed over both, times the decay of its age by its tool's constant, and times the boost of the hit so scored |
| `RetrievalLaws.FusionIsMonotone` | src/memory/retrieval.ts:223-250 | with positive weights and equal positive recency, a hit that stands no worse than another in both lists comes before it |
| `RetrievalLaws.HitShows` | src/memory/retrieval.ts:202-246 | a hit shows its text match's columns, or else its stored row's and its event's tool |
| `RetrievalLaws.TextAreFirst` | src/memory/retrieval.ts:141 | the text list is the first candidates of the index's answer |
| `RetrievalLaws.NeighboursAreNearest` | src/memory/retrieval.ts:145-167 | the neighbours are the first of the vector index, or without one the embeddings most similar to the query |
| `Retrieval.NothingSuperseded` | src/memory/retrieval.ts:219-222 | a superseded hit is pinned |
| `Retrieval.RankingIgnoresK` | src/memory/federation.ts:80 | a search for more hits takes them from the same ranking, which is best first |
| `Retrieval.HybridSearch` | src/memory/retrieval.ts:171-183 | returns the k best of the fused candidates |
| `Retrieval.StreamingHybridSearch` | src/memory/retrieval.ts:278-356 | its chunks are the text matches, the nearest neighbours that have a stored summary with their rank, similarity and tool, and what the plain search returns for the same store, time and options |
| `RetrievalLaws.ShownExactly` | src/memory/retrieval.ts:300-335 | the streamed neighbours are exactly those with a stored summary, nearest first, each with its rank among all and its summary's columns |
| `LogRotation.FileSink.constructor` | src/memory/logger.ts:45-56 | opens the active file and rotates at once if it is too large |
| `LogRotation.FileSink.Write` | src/memory/logger.ts:58-68 | appends the line while open, and checks the size on every checkEvery-th write |
| `LogRotation.FileSink.MaybeRotate` | src/memory/logger.ts:80-99 | when the active file has reached maxBytes, every generation moves up by one, the oldest is dropped and a fresh file opened; otherwise nothing changes |
| `LogRotation.ShiftMovesUp` | src/memory/logger.ts:88-98 | the loop moves every generation up by one and leaves no active file |
| `LogRotationRuns.FinishedIsShiftAll` | src/memory/logger.ts:88-98 | the rotation's steps, undisturbed, do what the sink's loop does |
| `LogRotationRuns.StepsAreTheSink` | src/memory/logger.ts:45-68 | undisturbed, starting and writing do what the sink does, with a check at the start and on every checkEvery-th write |
| `LogRotationRuns.CrashAnywhere` | src/memory/logger.ts:80-99 | a crash can come at any moment and leaves the files as they are |
| `LogRotationRuns.StepKeeps` | src/memory/logger.ts:80-99 | every write, file operation and crash keeps the files a suffix of what was written |
| `LogRotationRuns.ReadsASuffix` | src/memory/logger.ts:45-100 | after any writes, restarts and crashes, even inside a rotation, the files read oldest to newest are all that was written while the sink was open but for whole oldest generations, none of which was rotated or lost before it reached maxBytes |
| `LogRotationRuns.FilesStaySmall` | src/memory/logger.ts:58-99 | no file reaches maxBytes plus checkEvery longest lines |
| `LogRotationRuns.BoundedExactlyWhenRotating` | src/memory/logger.ts:80-99 | that bound holds exactly when maxBytes is positive and at least one generation is kept |
| `WorkerPool.Pool.TakeNext` | src/memory/claude-reranker.ts:100-101 | hands out the shared index, or returns the worker past the end |
| `WorkerPool.Pool.StoreResult` | src/memory/claude-reranker.ts:102 | stores a task's result in the task's own slot |
| `WorkerPool.TakeKeeps` | src/memory/claude-reranker.ts:100-101 | taking keeps every started task with one worker or its result in place |
| `WorkerPool.ResolveKeeps` | src/memory/claude-reranker.ts:102 | so does storing a result |
| `WorkerPool.StartsOnceAndBounded` | src/memory/claude-reranker.ts:95-107 | under every interleaving the m-th taking is of task m, a worker awaits what it took last and no other awaits it, and at most n tasks, and no more than there are, are in flight |
| `WorkerPool.SomeWorkerMoves` | src/memory/claude-reranker.ts:98-104 | unless all workers have returned some worker can go on, whatever its task resolves to, and each step leaves one fewer |
| `WorkerPool.EveryResultInPlace` | src/memory/claude-reranker.ts:95-107 | when all workers have returned, after exactly 2 steps a task and 1 a worker, each slot holds what its task's worker resolved with after taking it; for no n below 1, unless there is no task |
| `PeriodicDrain.Loop.Tick` | src/memory/daemon/periodic-drain.ts:60-62 | the timer's callback starts a tick unless stopped or running |
| `PeriodicDrain.Loop.AfterCounts` | src/memory/daemon/periodic-drain.ts:63-75 | what follows the awaited counts |
| `PeriodicDrain.Loop.AfterDrain` | src/memory/daemon/periodic-drain.ts:76-94 | what follows the awaited drain: processed events reset the backoff, none adds a step, a failure leaves it |
| `PeriodicDrain.Loop.StopLoop` | src/memory/daemon/periodic-drain.ts:99-103 | sets the flag and clears the timer |
| `PeriodicDrain.TimerXorTick` | src/memory/mcp/drain-loop.ts:65-122 | in every reachable state before stop exactly one of timer and tick is live, and the delay is the interval shifted by the ticks that found nothing since the last drain that processed something, capped |
| `PeriodicDrain.TickSetsBackoff` | src/memory/daemon/periodic-drain.ts:66-96 | a drain that processed something resets the backoff and the delay, one that did not or an empty queue adds a step up to the cap, a failure leaves it, and a drain starts exactly when there are raw events |
| `PeriodicDrain.LoopGoesOn` | src/memory/daemon/periodic-drain.ts:60-97 | until stop the loop goes on: the timer fires and starts a tick, the counts come, the drain ends |
| `PeriodicDrain.ShiftDoubles` | src/memory/daemon/periodic-drain.ts:95 | a shift by one more doubles up to 30; at 31 it is negative, at 32 it starts over |
| `PeriodicDrain.DelaysExactlyWithinCap` | src/memory/daemon/periodic-drain.ts:87-96 | every delay is the interval times 2 to a power within the cap, exactly when the cap lies from 0 to 30 |
| `PeriodicDrain.StopStopsDrainsUnlessCounting` | src/memory/daemon/periodic-drain.ts:60-77 | no drain starts after stop exactly when stop does not come while a tick awaits its counts |
| `PeriodicDrain.DrainsAfterStop` | src/memory/daemon/periodic-drain.ts:60-77 | at most one drain starts after stop |
| `PeriodicDrain.NoTickAfterStop` | src/memory/daemon/periodic-drain.ts:99-103 | no tick starts after stop |
| `ContextBudget.Approximate` | src/memory/tokens.ts:31-34 | the least number of tokens of four characters that cover the text |
| `ContextBudget.PicksAreGreedy` | src/memory/daemon/server.ts:609-624 | each hit is picked exactly when it fits beside the hits picked before it, until the budget is used up |
| `ContextBudget.FillBudget` | src/memory/daemon/server.ts:599-625 | returns hits in their order with the least token counts covering their texts, and their sum, which stays in the budget; no other hit with a text would still fit, though the loop is left once the budget is used up |
| `ContextBudget.GreedyFillsTheBudget` | src/memory/daemon/server.ts:609-624 | the sum stays within a non-negative budget, a negative one takes nothing, and no omitted non-empty hit would fit |
| `ContextBudget.GreedyIsUnique` | src/memory/daemon/server.ts:609-624 | there is only one greedy choice |

## Left out

- HTTP clients, sockets, the web UI, the CLI, the TUI, configuration, redaction and the Postgres backend: plumbing around the core.
- SQLite full-text ranking, sqlite-vec, SHA-256, base64 and the embedder: scores, similarities, hashes and encodings are parameters.
- SQL failures: statements succeed, but for a refused BEGIN and a violated foreign key. A rollback that undoes unlocked statements on the shared connection is not modelled.
- Power loss that drops committed rows, and events that stay claimed after a crash: nothing in the code resets them.
- The id that recordEvent and recordSummary return on a conflict; row uniqueness is proved instead.
- The claim RPCs that mark or release an id the caller never claimed.
- ProvenancePath.ShortestPath: the graph is fixed during the search, and node keys are distinct.
- ProvenanceSubgraph.Subgraph: the graph is fixed during the search, and node keys are distinct.
- ProvenanceTrace.Trace: the graph is fixed during the search, and node keys are distinct.
- Drain.RunDrain: no other writer runs between its statements (DrainProtocol covers those interleavings), summarising and embedding an event is one outcome, and an error message is lower-cased as ASCII.
- Consolidator.Worker.Tick: no other writer runs during the tick (ConsolidatorRuns covers those interleavings), and the similarity and time stored with a link are dropped.
- ConsolidatorRuns.EveryRunKeepsTheForest: a tick's embeddings come in any order and with any vectors, the similarity and time stored with a link are dropped, and pinned ids may name any summaries.
- Retrieval.HybridSearch: no reranker, an embedder that does not fail, a store that does not change during a search, arithmetic over real numbers, and a non-negative k and rank constant.
- Retrieval.StreamingHybridSearch: the same.
- Federation.FederatedSearch: the same of each workspace's search; a workspace that cannot be opened or searched is one case, and opening and closing its store is not modelled.
- Ndjson.ParseWrite: numbers are kept as numerals, characters outside the basic plane are written as they are, lone surrogates are not representable, and the reader takes no white space between tokens, as none is written.
- Recovery.Boot: a document whose ts is not an integer, whose other fields but the payload are not strings, or that lacks a field is passed over, its session included, as the loop's catch mostly does, though SQLite would convert some such values; the token estimate and the time to live of a recovered event are lost, as in the source.
- RecoveryRuns.NoFinishedCaptureIsLost: rows that other code imports or backfills are not part of the runs; a deleted event whose entry is still in the log comes back at the next boot, as in the source.
- Snapshot.ImportRebuilds: the store does not change during an export, and column types and affinities are not checked.
- Snapshot.Storage.ImportOne: a row without an id is skipped, where SQLite would assign one; exports always carry ids.
- Framing.FrameDecoder.Push: the JSON codec is a parameter, faithful on the messages sent.
- LogRotationRuns.ReadsASuffix: renames, unlinks and writes succeed and are not torn; options stay the same over restarts.
- WorkerPool.EveryResultInPlace: no task throws.
- PeriodicDrain.TimerXorTick: tickNow is not called, and callbacks do not throw; a disabled loop (interval not positive) has no timer at all.
- ContextBudget.FillBudget: a character counts as one UTF-16 unit, and the ranked hits are given.
