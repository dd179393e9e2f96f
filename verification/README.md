# Verified models of YugabyteDB Voyager's hard cores

Voyager migrates a database to YugabyteDB while the source stays in use. This project models
the parts of it where correctness hangs on interleavings, crashes or graph shapes, and proves
what those parts are for. `dafny verify dfyconfig.toml` checks everything.

**Applying change events in parallel.** One dispatcher takes the source's events in commit order
and hands each to one of several FIFO channels by partition key; one worker per channel applies
them. The dispatcher first waits until no event in flight can still hold a unique value the new
one needs.

- `Events`, `Routing`: event images, the NULL rule of an index, partition keys, and the primary key
  that is added as a conflict index for tables with a custom partition key.
- `BucketKey`: the length-prefixed key under which an index tuple is filed.
- `ConflictIndex`: the two mutually inverse maps as a value, the rule by which a scan of the in-flight
  events would select conflicts, and the proof that the keyed lookup selects the same.
- `ConflictDetectionCache`: the class with those maps as fields updated in place, its wait loop and
  its broadcasts; every method is proved equal to the operation on values.
- `TargetEvents`: which hand-overs of an index entry the coarser rule for events exported from the target sees.
- `SourceHistory`: the commit history, the table contents it passes through, and which events of it
  must stay in order.
- `ApplyProtocol`, `ApplyInvariants`, `ApplyTheorems`: the transition system (check, register,
  enqueue, apply, remove), its invariant, and safety, confluence, progress and termination over all runs.

**Cutover.** Set-once flags in a shared record are written by several processes that may crash
between any two writes.

- `CutoverRecord`: the record, the derived statuses, and the commands that update it.
- `CutoverProtocol`: three exporters, the importers and the user's commands as one transition system
  with crash and re-run.
- `CutoverHistory`: what the flags and statuses report, in terms of the steps that were taken.
- `NextIteration`: the twelve persistent writes that start the next iteration, cut short anywhere.

**Supporting algorithms.** `TableList` and `PartitionForest` (export list normalisation),
`DriftScope` (partition closure over possibly cyclic hierarchies), `RedundantIndexes` (chain resolution
with in-place compression), `SqlSplitter` (line-based statement splitter), `RowCount` (counting rows of
a file still being written); `Sequences` and `Wrappers` hold what they share.

## What the environment must provide

- `SourceHistory.Wellformed`: events are true to the source (an update or delete carries the full before
  image, an update's fields contain every changed column, a row's key does not change in an update),
  every prefix of the history satisfies the unique indexes, VSNs are distinct, rows carry all columns of
  their indexes, identifiers hold no NUL byte, index names are distinct within a table, and custom-key
  tables have the key guard that `Routing.AddPrimaryKeyToConflictSetForCustomTables` is proved to add
  (`Routing.WellNamedWithKeyIff` says when it keeps the names distinct).
- Equal partition keys go to the same channel by construction: the hash is a function of the key.
- Cutover: an export from the target is launched after the cutover to the target was requested; Debezium
  ends normally only after the cutover is requested; importers mark a cutover processed only after it was
  requested; dropping a replication slot or publication is idempotent; at most one of fall-forward and
  fall-back is set up.
- The catalog's partition hierarchy is a forest whose child and parent lists agree.

## Where the code and its own words differ

- The comment above `computeConflictBucketKey` speaks of an `ok=false` result; the code returns an error.
  The model follows the code (`BucketKey.KeyOf`), and `ApplyTheorems.LookupSucceeds` shows when it cannot occur.
- Events exported from the target are checked by column instead of by value, to be safe. An update that frees an entry
  of an index over several columns by writing one of them, and one that takes it by writing another, are still not
  seen, nor is an update that leaves a partial index through its predicate; `TargetEvents.HandOverIsSeenIff` gives the
  condition, `TargetEvents.HandOverIsMissed` and `TargetEvents.PartialHandOverIsMissed` the events.
- A partition key begins with the table so that tables never share one. They can if one table's name begins with the
  other's, and only then (`Routing.TablesRouteApart`).
- Statuses are meant to move forward only. Setting up fall-forward after a plain cutover was reported completed
  takes the status back; `CutoverProtocol.LateFallForwardRegresses` says this is the only way, and
  `CutoverProtocol.RegressionIsReachable` gives a run.
- The row counter compares the raw text met at the end of the file with the end marker, not the line it belongs
  to, so a row that contains a backslash followed by a full stop (as every escaped backslash before a full stop
  does) can end the count early; and it takes a blank line for no row, though a table of one text column writes an
  empty string as one. `RowCount.CountedRightIff` gives the exact condition under which every row is counted. For
  Oracle and MySQL no text ends the count early, but a blank row of a COPY statement is lost all the same:
  `RowCount.CopiedRightIff` gives the condition, and `RowCount.BlankRowIsNeverCopied` the file.
- The splitter means to skip comments between statements, but skips every line there that contains two dashes: a
  one-line statement with a comment after it, the very line its end-of-statement test is meant to accept, is lost,
  and so is the first line of a statement with a comment in it. `SqlSplitter.LostIffDashes` says exactly what is
  lost, `SqlSplitter.CommentedStatementIsLost` gives the line.
- A statement's closing semicolon is not seen when anything but spaces follows it, a tab or a carriage return
  included, or when the comment after it has a second dash pair; `SqlSplitter.UncommentedEndIsSeenIff` and
  `SqlSplitter.CommentedEndIsSeenIff` give the exact conditions.
- The splitter takes what a line quotes between its first and last dollar sign for the delimiter of a code block and,
  as a comment in it admits, does not expect the block to end on the same line. After a body on one line the
  statement waits for that body again and takes in the rest of the file; `SqlSplitter.RunsToEndOfFileIff` says
  exactly when a statement does so, and `SqlSplitter.OneLineProcedureTakesAll` gives the lines.
- An existing unique index counts as one over the primary key when it lists as many columns as the key has and all of
  them are key columns; one that lists a column twice covers only some of the key. Events that share a key still
  meet in it, so `SourceHistory.RecycledKeyLinked` holds for it as well.
- Starting the next iteration is meant to survive a crash anywhere. A metadata database file that exists is taken to
  be complete, so a crash between creating it and creating its tables makes every later run fail;
  `NextIteration.CrashedRunsLeaveNoTraceIff` shows that this is the only such point. The procedure is also repeated
  when its flag is already set, and a crash during the repeated copy of the name registry leaves the flag over a
  truncated registry (`NextIteration.RegistryWholeIff`).

## Model

| member | source | states |
|---|---|---|
| ApplyTheorems.UniqueIndexesNeverBroken | yb-voyager/cmd/conflictDetectionCache.go:36-70 | Main safety theorem: if every prefix of the source history satisfies all unique indexes (partial or not, NULLS DISTINCT or NOT DISTINCT), then after every step of every interleaving of dispatch, per-channel apply and cache removal no two target rows share an index entry. |
| ApplyTheorems.StatementsMeetTheirRow | yb-voyager/cmd/conflictDetectionCache.go:46-51 | Every statement a worker runs meets on the target exactly the row it met on the source: an insert finds its key free, an update or delete finds its before image. |
| ApplyTheorems.Confluence | yb-voyager/cmd/conflictDetectionCache.go:46-51 | Whatever the interleaving of channels, once every event is applied the target equals the source's final contents. |
| ApplyTheorems.WaitsOnEnqueued | yb-voyager/cmd/conflictDetectionCache.go:275-327 | Each event the dispatcher waits for is strictly earlier, already enqueued and not yet removed. |
| ApplyTheorems.LookupSucceeds | yb-voyager/cmd/conflictDetectionCache.go:434-478 | In every reachable state the conflict lookup for the next event returns a result, never an error. |
| ApplyTheorems.Progress | yb-voyager/cmd/live_migration.go:362-443 | In every reachable unfinished state some step is possible, also with bounded channels and a waiting dispatcher: there is no deadlock. |
| ApplyTheorems.EveryStepCounts | yb-voyager/cmd/conflictDetectionCache.go:653-674 | Every step of every kind brings the pipeline strictly nearer to the end. |
| ApplyTheorems.RunsAreFinite | yb-voyager/cmd/live_migration.go:551-654 | No run has more than seven steps per event. |
| ApplyTheorems.EveryRunCanFinish | yb-voyager/cmd/live_migration.go:551-654 | From every state a run reaches it can be carried on to completion, and then leaves the target equal to the source. |
| ApplyTheorems.StuckMeansFinished | yb-voyager/cmd/conflictDetectionCache.go:269-336 | A run that cannot be continued has applied everything, and its target equals the source. |
| ApplyTheorems.HandOver | yb-voyager/cmd/conflictDetectionCache.go:42-51 | If a row still holds an index entry on the target that another row acquires later in the history, the event that releases it and the event that acquires it are linked, and out of order: the contradiction behind the safety theorem. |
| ApplyInvariants.StepKeepsInv | yb-voyager/cmd/live_migration.go:362-443 | Each of the five kinds of step keeps the invariant: queues in history order, cache and lookup structure equal to the in-flight events, cleared waits, target rows at their frontier. |
| ApplyInvariants.RunKeepsInv | yb-voyager/cmd/live_migration.go:362-443 | Every state of every run satisfies that invariant. |
| ApplyInvariants.CheckClears | yb-voyager/cmd/conflictDetectionCache.go:269-336 | When the lookup lets an event through, no earlier event it conflicts with is still unapplied or uncleared. |
| ApplyInvariants.AppliedAtFrontier | yb-voyager/cmd/live_migration.go:551-610 | A worker's next event finds its row exactly as the source had it. |
| ApplyProtocol.LinkedInOrder | yb-voyager/cmd/conflictDetectionCache.go:46-51 | Of two linked events, the later is never applied before the earlier. |
| ApplyProtocol.RowOrder | yb-voyager/cmd/live_migration.go:451-505 | Events of one row are applied in history order, also under a custom partition key that recycles primary keys. |
| SourceHistory.ReleaseThenAcquire | yb-voyager/cmd/conflictDetectionCache.go:390-433 | An event that takes a row off an index entry and a later one that puts another row on it share a partition key or are in conflict by the stated rule, for full and partial indexes alike. |
| SourceHistory.SuccessiveEventsLinked | yb-voyager/cmd/live_migration.go:451-505 | Successive events of one row share a partition key or conflict. |
| SourceHistory.RecycledKeyLinked | yb-voyager/cmd/live_migration.go:673-725 | Under a custom partition key, deleting a row and inserting its primary key again are in conflict through the guard index. |
| SourceHistory.CustomKeyStable | yb-voyager/cmd/live_migration.go:521-549 | Custom key columns being immutable, successive events of a live row route alike. |
| ConflictIndex.FindMatchesScan | yb-voyager/cmd/conflictDetectionCache.go:434-478 | Refinement: a bucket lookup reports exactly the in-flight events that a full scan by the stated rule selects, and reports none if and only if the scan selects none. |
| ConflictIndex.FindReportsTruly | yb-voyager/cmd/conflictDetectionCache.go:434-602 | Every reported conflict names an index of the table with its columns, and at least one in-flight event of another partition, whose row was on the entry that the incoming event puts its row on or, in a partial index, updates its row on. |
| ConflictIndex.ConflictIsNeeded | yb-voyager/cmd/conflictDetectionCache.go:784-788 | Over an index without a predicate an event waits only for another that wrote a column of the index, or deleted, when it writes one itself, and when both rows have equal, non-NULL or NULLS NOT DISTINCT values in all of them. |
| ConflictIndex.CheckImageMeaning | yb-voyager/cmd/conflictDetectionCache.go:585-602 | One probe returns exactly the in-flight events filed for that index with an equal tuple under its NULL rule and a different partition key. |
| ConflictIndex.CheckIndexMeaning | yb-voyager/cmd/conflictDetectionCache.go:480-543 | Per index, the before-after probe and, for an update on a partial index, the before-before probe select exactly the rule's events. |
| ConflictIndex.CheckAllSucceeds | yb-voyager/cmd/conflictDetectionCache.go:434-478 | The lookup cannot fail when images carry the index columns and partition keys are readable. |
| ConflictIndex.OthersFailIff | yb-voyager/cmd/conflictDetectionCache.go:585-602 | A bucket is refused if and only if the incoming event or one of its own events cannot be routed. |
| ConflictIndex.DeletesAreRefused | yb-voyager/cmd/conflictDetectionCache.go:434-440 | The lookup refuses an incoming event as a delete if and only if it is one. |
| ConflictIndex.FileAllKeepsInverse | yb-voyager/cmd/conflictDetectionCache.go:221-247 | Filing an event under any list of buckets, also one cut short by an error, keeps the two maps inverse to each other with no empty bucket. |
| ConflictIndex.RemoveKeepsInverse | yb-voyager/cmd/conflictDetectionCache.go:251-267 | Removing an event keeps the two maps inverse with no empty bucket. |
| ConflictIndex.FileThenRemove | yb-voyager/cmd/conflictDetectionCache.go:192-267 | Putting a fresh VSN and removing it restores both maps. |
| ConflictIndex.PutRepresents | yb-voyager/cmd/conflictDetectionCache.go:192-247 | After a put the maps represent the in-flight set with that event added. |
| ConflictIndex.RemoveRepresents | yb-voyager/cmd/conflictDetectionCache.go:251-267 | After a removal they represent the set without it. |
| ConflictIndex.FilingMembers | yb-voyager/cmd/conflictDetectionCache.go:221-247 | The keys of a filing are exactly those of the indexes relevant for the event under the NULL rule. |
| ConflictDetectionCache.Cache.Put | yb-voyager/cmd/conflictDetectionCache.go:192-214 | Refuses inserts and events without before image; otherwise the new maps are exactly the filing's, also when an index errors part-way; the inverse invariant is kept. |
| ConflictDetectionCache.Cache.IndexEventLocked | yb-voyager/cmd/conflictDetectionCache.go:221-247 | The loop over indexes leaves the maps of the filing computed as a value, with the error it stopped on. |
| ConflictDetectionCache.Cache.DeindexEventLocked | yb-voyager/cmd/conflictDetectionCache.go:251-267 | In-place removal equals removal on the value. |
| ConflictDetectionCache.Cache.FindValueConflictLocked | yb-voyager/cmd/conflictDetectionCache.go:434-478 | The loop over indexes returns what the specified lookup returns, conflicts or error. |
| ConflictDetectionCache.Cache.FindConflictLocked | yb-voyager/cmd/conflictDetectionCache.go:370-388 | For events exported from the target, a scan by the table-level rule that reports one conflict if there is any; for others, the keyed lookup. |
| ConflictDetectionCache.Cache.RemoveEvents | yb-voyager/cmd/conflictDetectionCache.go:653-674 | Removes each listed event from both forms of the cache and broadcasts exactly when something was removed. |
| ConflictDetectionCache.Cache.CondWait | yb-voyager/cmd/conflictDetectionCache.go:275-327 | Sleeping through removals: it wakes only after a removal and every removal it slept through left some conflict in place. |
| ConflictDetectionCache.Cache.WaitUntilNoConflict | yb-voyager/cmd/conflictDetectionCache.go:269-336 | For events from either exporter and whatever the order in which removals get the lock, the wait ends after the first prefix of them that leaves no conflict, and stays asleep only if none does: no wake-up is lost. |
| ConflictDetectionCache.SilentRemoval | yb-voyager/cmd/conflictDetectionCache.go:653-674 | A removal that broadcasts nothing leaves every conflict in place. |
| ConflictDetectionCache.BroadcastsIff | yb-voyager/cmd/conflictDetectionCache.go:653-674 | A batch of removals broadcasts if and only if one of its events was in either form of the cache. |
| ConflictDetectionCache.ConflictingIsRecorded | yb-voyager/cmd/conflictDetectionCache.go:653-674 | An event that blocks another is recorded in the lookup structure, so removing it broadcasts. |
| ConflictDetectionCache.RemoveEachRepresents | yb-voyager/cmd/conflictDetectionCache.go:653-674 | Removing a batch removes its events from both forms of the in-flight set; if it removed nothing, nothing changed. |
| TargetEvents.HandOverIsSeen | yb-voyager/cmd/conflictDetectionCache.go:790-834 | An event from the target waits for a cached one that takes another row off an entry of a unique index which it puts its own row on, if the cached one is a delete, or the index has no predicate and the incoming one is an insert or the index has one column. |
| TargetEvents.HandOverIsSeenIff | yb-voyager/cmd/conflictDetectionCache.go:811-834 | In general it waits for such a cached event if and only if that is a delete or both write some column of the table's unique indexes. |
| TargetEvents.HandOverIsMissed | yb-voyager/cmd/conflictDetectionCache.go:811-834 | Two updates that hand over an entry of a two-column index without being seen. |
| TargetEvents.PartialHandOverIsMissed | yb-voyager/cmd/conflictDetectionCache.go:811-834 | An update and an insert that hand over an entry of a partial index without being seen. |
| TargetEvents.NeverBlocks | yb-voyager/cmd/conflictDetectionCache.go:790-834 | Cached inserts, events on other tables or on the same row, and updates that share no written index column never block an event from the target. |
| BucketKey.KeysEqualIffTuplesEqual | yb-voyager/cmd/conflictDetectionCache.go:621-651 | Two computed bucket keys are equal if and only if table and index agree and the tuples are equal under the index's NULL semantics, whatever the values contain. |
| BucketKey.EncodeInjective | yb-voyager/cmd/conflictDetectionCache.go:604-651 | The length-prefixed encoding is uniquely decodable for NUL-free identifiers. |
| BucketKey.NulInNameCollides | yb-voyager/cmd/conflictDetectionCache.go:604-651 | Without that condition two different indexes can share a key. |
| BucketKey.KeyComputable | yb-voyager/cmd/conflictDetectionCache.go:621-651 | The key is computed if and only if the image exists, carries every index column and has no NULL in a NULLS DISTINCT index; it is then the encoding of the tuple. |
| BucketKey.ComputeConflictBucketKey | yb-voyager/cmd/conflictDetectionCache.go:621-651 | The string-builder loop returns the specified key or the specified error. |
| BucketKey.ItoaInjective | yb-voyager/cmd/conflictDetectionCache.go:636-648 | Decimal lengths are read back unambiguously. |
| Routing.CustomValuesReadable | yb-voyager/cmd/live_migration.go:474-499 | A custom routing key is computed if and only if every custom column can be read from the event. |
| Routing.CustomValueIsTheRows | yb-voyager/cmd/live_migration.go:521-550 | The value read for a custom column is the row's own: an insert has it in its fields, a delete in its before image, and an update, which must not write it, in both images; exactly when each can be read, and that an update that writes it is refused. |
| Routing.RoutableIff | yb-voyager/cmd/live_migration.go:451-505 | An event has a partition key if and only if its table has a strategy and, if custom, that has columns and each can be read. |
| ConflictIndex.GuardIsSkippedIff | yb-voyager/cmd/live_migration.go:714-720 | The added key index is passed over exactly by updates that write no key column: never for a NULL. |
| Routing.SameCustomValues | yb-voyager/cmd/live_migration.go:474-499 | Events that read the same custom column values route alike. |
| Routing.PkRoutesByRow | yb-voyager/cmd/live_migration.go:451-473 | Partitioned by primary key, events of a row share a partition key, and rows with one-column keys share one if and only if the key values are equal. |
| Routing.CompositeKeysMayMeet | yb-voyager/cmd/live_migration.go:464-473 | Two rows with different two-column keys that share a partition key. |
| Routing.TableRoutesTogether | yb-voyager/cmd/live_migration.go:474-475 | Partitioned by table, two events share a partition key if and only if they are of one table. |
| Routing.CustomRoutesByValue | yb-voyager/cmd/live_migration.go:476-502 | Partitioned by one custom column, inserts share a partition key if and only if they hold the same value in it. |
| Routing.TablesRouteApart | yb-voyager/cmd/live_migration.go:460-462 | Events of different tables never share a partition key, unless one table's name begins with the other's. |
| Routing.TablesMayMeet | yb-voyager/cmd/live_migration.go:460-473 | If it does, events of the two tables may share one. |
| Routing.AddPrimaryKeyToConflictSetForCustomTables | yb-voyager/cmd/live_migration.go:673-746 | It fails if and only if a table has no partition key or, with a custom one, no primary key. Otherwise exactly the custom-key tables get their key as one more conflict index, unless one over the same columns is there; each then has an index on key columns, on all of them unless it lists a column twice, and everything else is untouched. |
| Routing.WellNamedWithKeyIff | yb-voyager/cmd/live_migration.go:708-721 | With the added index the names of a table's indexes stay distinct and NUL-free if and only if they were and no other index has the added one's name. |
| CutoverProtocol.TailIsSafe | yb-voyager/cmd/exportData.go:908-950 | In every reachable state under crash and re-run at any point: processed implies slot and publication dropped and detection set; detection implies the cutover was requested; an exported PostgreSQL snapshot keeps slot and publication until detection; Debezium streams only before detection, and where a slot is used only with its recorded slot and its publication; slot or publication are created only where they are used and before detection; and a step drops slot or publication if and only if it is the exporter's own clean-up after detection or its fresh start of a PostgreSQL source's snapshot, at the two positions of each where there is one to drop; at a fresh start nothing is exported or streamed yet. |
| CutoverProtocol.StepKeepsSlotUntilDone | yb-voyager/cmd/exportData.go:1296-1367 | The same about one step: when it may create and start, and exactly when it drops. |
| CutoverProtocol.TailRecovers | yb-voyager/cmd/exportData.go:984-1029 | From every reachable state, so from every crash point, an undisturbed re-run reaches processed when the cutover is requested. |
| CutoverProtocol.LaunchIff | yb-voyager/cmd/exportData.go:158-178 | In every reachable state an exporter that is not running may be launched if and only if its cutover is not both processed by it and completed and, from the target, the cutover to the target was requested and its workflow is the one set up. |
| CutoverProtocol.StatusesOnlyAdvance | yb-voyager/cmd/common.go:751-844 | With fall-forward set up in time each of the three statuses only moves NOT_INITIATED, INITIATED, COMPLETED, one stage at a time. |
| CutoverProtocol.LateFallForwardRegresses | yb-voyager/cmd/common.go:751-782 | A step takes the target status back if and only if it sets up fall-forward for the first time while a plain cutover is reported completed. |
| CutoverProtocol.RegressionIsReachable | yb-voyager/cmd/common.go:751-782 | A run from the start in which the target status is COMPLETED and then INITIATED again. |
| CutoverProtocol.RequestImpliesTargetCompleted | yb-voyager/cmd/cutover.go:61-129 | In every state of such a run a requested cutover to source or source-replica implies cutover to target is COMPLETED. |
| CutoverProtocol.CompletedMeansSlotRecorded | yb-voyager/cmd/exportDataDebezium.go:606-645 | With fall-back or fall-forward over the logical connector, COMPLETED is never reported before a YB replication slot is recorded. |
| CutoverHistory.TargetCompletedIff | yb-voyager/cmd/common.go:751-772 | In every state of every run the cutover to the target is COMPLETED if and only if it was requested, the exporter from the source has cleaned up, the target importer is done, and what the chosen workflow needs has started: with fall-forward its exporter streams, with fall-back its exporter streams and the import to the source is started. It is NOT_INITIATED if and only if it was not requested. |
| CutoverHistory.ReplicaCompletedIff | yb-voyager/cmd/common.go:784-799 | The cutover to the source-replica is COMPLETED if and only if it was requested, the fall-forward exporter has cleaned up and the importer is done. |
| CutoverHistory.SourceCompletedIff | yb-voyager/cmd/common.go:801-844 | The cutover to the source is COMPLETED if and only if it was requested, the fall-back exporter has cleaned up, the importer is done and, if the first request asked for a restart, the next iteration was initialized and both its commands have started. |
| CutoverHistory.NextIterationWaits | yb-voyager/cmd/importData.go:349-367 | The next iteration is initialized only after a cutover to source that asked for it was processed by the fall-back exporter and the source importer, with fall-back set up from a PostgreSQL source. |
| CutoverHistory.FlagsAreHistory | yb-voyager/cmd/cutover.go:61-129 | Each flag of the record is set if and only if what it stands for has happened; the choices that count are those of the first request. |
| CutoverProtocol.RecordedAfterCreated | yb-voyager/cmd/exportDataDebezium.go:729-746 | A slot is recorded only by the exporter that created it, while slot and publication exist. |
| CutoverProtocol.RunKeepsInv | yb-voyager/cmd/exportData.go:908-1029 | Every reachable state satisfies the protocol invariant. |
| CutoverRecord.MetaDB.InitiateCutover | yb-voyager/cmd/cutover.go:61-129 | Refuses a cutover away from the target if and only if that to the target is not completed, and a restart, once confirmed, if and only if fall-back is not set up or the source is not PostgreSQL; a confirmed first request sets its flag and takes over exactly the caller's choices; anything else, a repeated request included, changes nothing. |
| CutoverRecord.MetaDB.MarkCutoverProcessed | yb-voyager/cmd/cutover.go:258-284 | Marks the caller's role processed and no other role. |
| NextIteration.InitializedMeansComplete | yb-voyager/cmd/cutover.go:135-252 | After any sequence of runs cut short between any two writes, the run that sets the next-iteration flag leaves, compared with the projects before the first of them: the parent with the current iteration number plus one; the next project with that number, the parent's directory, the changes-only export type, the current project's inherited fields, the CDC partitioning of the parent's import status, the current project's name registry, and the configuration file of that run. |
| NextIteration.InitializedMeansInherited | yb-voyager/cmd/cutover.go:195-252 | In every state reached, also by runs repeated after the flag is set, the flag implies all of that but the name registry and the configuration file. |
| NextIteration.RunsLeaveAlone | yb-voyager/cmd/cutover.go:135-252 | Runs cut short anywhere create no project but the next; keep the identifiers, the import-started mark and the iteration marks a next project already has; and change of the others only the iteration number of the parent and the flag of the current project, which is never unset. |
| NextIteration.NewProjectStartsAfresh | yb-voyager/cmd/common.go:498-529 | A project created by a complete run has the identifiers drawn for it, no later iteration and no import started. |
| NextIteration.CreationFillsIn | yb-voyager/cmd/common.go:459-529 | Creating a project whose database is usable fills in exactly what is missing: identifiers, the configuration file only together with the first identifier, the import status and the file import status. |
| NextIteration.RegistryWholeIff | yb-voyager/cmd/cutover.go:174-182 | After any runs that did not get stuck at a half-made database, also from before the next project exists, the copied name registry is whole if and only if some run reached its copy and the last that did so did not break it off, or it was whole at the start and no run reached it. |
| NextIteration.FlagOverTornRegistry | yb-voyager/cmd/importData.go:360-374 | A run repeated after the flag is set, and cut during the copy, leaves the flag over a truncated registry. |
| NextIteration.CrashedRunsLeaveNoTraceIff | yb-voyager/cmd/cutover.go:135-193 | Any number of crashed runs, also with other configuration files, followed by a complete one ends as one complete run alone would, for suitable random identifiers, if and only if none was cut between creating the next project's metadata database file and creating its tables. |
| NextIteration.CrashAtCreationIsFatal | yb-voyager/src/metadb/metadataDB.go:57-72 | After a crash at that point every later run fails and changes nothing, so the flag is never set. |
| NextIteration.PartAbsorbed | yb-voyager/cmd/cutover.go:195-252 | A complete run made after any part of an earlier one ends where it would have ended without it, had it drawn the identifiers set first. |
| NextIteration.FlagIsWrittenLast | yb-voyager/cmd/cutover.go:184-192 | A run that is cut short leaves the flag as it was. |
| NextIteration.NextDirIsNew | yb-voyager/cmd/cutover.go:254-256 | The next iteration's directory is neither the current nor the parent project. |
| NextIteration.NextDirIs | yb-voyager/cmd/cutover.go:147-160 | It lies under the first project, whichever iteration is current, and carries the current iteration number plus one. |
| NextIteration.FileSystem.InitializeNextIteration | yb-voyager/cmd/cutover.go:135-193 | The method makes the twelve persistent writes in order up to the crash point, stops at a database file without tables, at a missing import status of the parent and at a missing name registry, and changes nothing for an unsupported migration. |
| NextIteration.FileSystem.CreateMigrationProjectIfNotExists | yb-voyager/cmd/common.go:459-529 | Creates the database file and its tables only if there is no file, then fills in the missing records (migration status, import status, file import status, salt), up to the crash point; a file without tables makes it fail. |
| NextIteration.FileSystem.CopyNameRegistry | yb-voyager/src/utils/utils.go:288-309 | The copy of the name registry, whole or broken off anywhere, up to the crash point; a missing source file makes it fail before the new file is touched. |
| NextIteration.FileSystem.SetUpNextIterationMSR | yb-voyager/cmd/cutover.go:195-252 | Its three record writes, in order, up to the crash point. |
| PartitionForest.FetchTableNamesAndFilter | yb-voyager/cmd/exportData.go:1561-1612 | The final export list is exactly the included leaves and normal tables minus the excluded ones, plus exactly the roots that still have a listed leaf; the map's domain is exactly the listed leaf partitions, each with its root, which is listed too; it fails exactly when some pattern selects nothing; and the list counts as set by the user if and only if a filter is given and some catalog table is not among the included leaves and their roots, or is among the excluded ones and theirs. |
| PartitionForest.ApplyTableListFlagsOnFullListAndAddLeafPartitions | yb-voyager/cmd/exportData.go:1506-1559 | The include and exclude lists are the leaves their patterns select, directly or through an ancestor, with their roots. |
| PartitionForest.AddLeafPartitionsInTableList | yb-voyager/cmd/exportData.go:1177-1227 | Normalises a list to its leaves and their roots, each once, and maps each leaf partition to its root; other databases' lists are returned unchanged. |
| PartitionForest.GetAllLeafPartitions | yb-voyager/cmd/exportData.go:1267-1280 | Terminates with exactly the leaf descendants, without repeats; the result is empty if and only if the table is not partitioned. |
| PartitionForest.GetRootTableOfPartition | yb-voyager/cmd/exportData.go:1229-1245 | Returns the root above the table. |
| PartitionForest.RootIsUnique | yb-voyager/cmd/exportData.go:1229-1245 | The root a table lies under is unique. |
| PartitionForest.NormalisingAgain | yb-voyager/cmd/exportData.go:1551-1605 | Normalising with all leaves and then again without adding any changes neither the tables nor the map. |
| PartitionForest.BuildRootToLeafPartitionsMap | yb-voyager/cmd/exportData.go:2609-2632 | The inverted map lists a leaf under a root, once, if and only if the map sends it there; it fails if and only if some table is not listed. |
| PartitionForest.LeavesOfDifference | yb-voyager/cmd/exportData.go:1582-1605 | Subtracting normalised lists subtracts their leaves; excluded roots come back while a leaf of theirs is left. |
| TableList.ExtractTableList | yb-voyager/cmd/exportData.go:2198-2236 | Selects each listed table some pattern matches, once; fails naming exactly the patterns that match none. |
| DriftScope.ExpandDriftPartitions | yb-voyager/cmd/detectDrift.go:368-386 | Terminates on cyclic hierarchies and returns exactly what is reachable from the matched tables, each once. |
| DriftScope.Expansion.Visit | yb-voyager/cmd/detectDrift.go:372-381 | What one visit adds is reachable and has its children in; nothing seen before is lost or repeated. |
| DriftScope.DriftPartitionChildren | yb-voyager/cmd/detectDrift.go:338-365 | The hierarchy is exactly the union of the recorded parent-child pairs, without repeats. |
| DriftScope.DriftTableUniverse | yb-voyager/cmd/detectDrift.go:278-307 | The universe holds exactly the tables some content records, without repeats. |
| DriftScope.ComplementDriftTableRefs | yb-voyager/cmd/detectDrift.go:395-407 | Keeps exactly the tables not excluded, in order. |
| DriftScope.ResolveDriftTables | yb-voyager/cmd/detectDrift.go:444-517 | The scope holds exactly the tables the filters mean in terms of the snapshots, each once; for one pattern set the include and exclude scopes split the recorded tables between them; an include scope brings recorded partitions with it and nothing kept descends from an excluded table; it is refused exactly when a pattern is unqualified without default schema, a pattern matches nothing, or everything is excluded. |
| DriftScope.KeptDoesNotDescendFromExcluded | yb-voyager/cmd/detectDrift.go:485-500 | No table an exclude list keeps descends from one it excludes. |
| DriftScope.KeptBringsDescendants | yb-voyager/cmd/detectDrift.go:476-484 | A kept table brings its recorded partitions with it. |
| RedundantIndexes.GetResolvedRedundantIndexes | yb-voyager/cmd/assessMigrationCommand.go:678-724 | For an acyclic relation: the same redundant indexes, once each, every one reported against the existing index and DDL at the end of a chain of the original report, never itself redundant, although the table is compressed in place. |
| RedundantIndexes.GetRootRedundantIndexInfo | yb-voyager/cmd/assessMigrationCommand.go:693-702 | Following the partly compressed table terminates at an index that is not redundant and stays on a chain of the original report. |
| RedundantIndexes.ResolutionIsUnique | yb-voyager/cmd/assessMigrationCommand.go:682-692 | With distinct redundant names there is one chain to an end, so the resolution is determined. |
| RedundantIndexes.ChainsEndIffAcyclic | yb-voyager/cmd/assessMigrationCommand.go:693-702 | Every chain can be followed to an end if and only if no index is redundant because of itself. |
| RedundantIndexes.CycleNeverEnds | yb-voyager/cmd/assessMigrationCommand.go:693-702 | Following a cyclic chain is still running after any number of rounds. |
| SqlSplitter.ParseSqlFile | yb-voyager/cmd/analyzeSchema.go:889-924 | The file is cut into whole statements in file order; each non-blank line is in exactly one of them or is skipped; the statements together are the text of the lines kept; and each carries the code of the last line skipped before it. |
| SqlSplitter.ParseSqlFileForObjectType | yb-voyager/cmd/analyzeSchema.go:889-924 | The same, for the line tests the program uses. |
| SqlSplitter.LostIffDashes | yb-voyager/cmd/analyzeSchema.go:903-911 | For the program's line tests: a non-blank line between statements is lost if and only if it contains two dashes, also when it starts or is a statement. |
| SqlSplitter.StatementsStart | yb-voyager/cmd/analyzeSchema.go:903-911 | A statement starts on a line with something other than spaces and no two dashes. |
| SqlSplitter.CommentedStatementIsLost | yb-voyager/cmd/analyzeSchema.go:903-911 | The file that holds one whole statement with a comment after it has no statement. |
| SqlSplitter.CollectSqlStmt | yb-voyager/cmd/analyzeSchema.go:1000-1017 | Collects the lines up to the first that ends a statement. |
| SqlSplitter.CollectSqlStmtContainingCode | yb-voyager/cmd/analyzeSchema.go:941-998 | The code-block state machine stops exactly at the declaratively specified closing line. |
| SqlSplitter.BlockClosesAfterItsDelimiter | yb-voyager/cmd/analyzeSchema.go:941-998 | If a delimiter opens before any ending line, a line closes the statement if and only if it is the first ending line at or after the next line with that delimiter: never inside the block. |
| SqlSplitter.SqlBodyClosesAtEnd | yb-voyager/cmd/analyzeSchema.go:966-982 | For the program's tests: an SQL body opened by a line without two dollar signs closes at the first ending line at or after the next line that contains END or end, and at none before. |
| SqlSplitter.DollarBlockClosesAtText | yb-voyager/cmd/analyzeSchema.go:963-988 | For the program's tests: a block in dollar quotes closes at the first ending line at or after the next line that contains the text from the opening line's first dollar sign to its last. |
| SqlSplitter.LowerCaseEndCloses | yb-voyager/cmd/analyzeSchema.go:970-982 | A concrete file of a function with an SQL body, closed by a lower-case end, and a query is cut into these two. |
| SqlSplitter.DollarQuoteIs | yb-voyager/cmd/analyzeSchema.go:127-127 | A line opens a dollar-quoted block if and only if it has two dollar signs; the delimiter runs from the first to the last. |
| SqlSplitter.RunsToEndOfFileIff | yb-voyager/cmd/analyzeSchema.go:941-998 | A statement takes in the rest of the file if and only if no line from its first on ends one, or it opens a code block before any such line and no later line with the block's delimiter has one at or after it. |
| SqlSplitter.OneLineBlockTakesAll | yb-voyager/cmd/analyzeSchema.go:958-965 | If a first line quotes a whole body between dollar signs at its end, the file is one statement unless a later line repeats that text. |
| SqlSplitter.OneLineProcedureTakesAll | yb-voyager/cmd/analyzeSchema.go:958-965 | A concrete procedure of two lines, closed by its semicolon, that swallows every line after it. |
| SqlSplitter.CutIsUnique | yb-voyager/cmd/analyzeSchema.go:904-921 | A file can be cut in one way only. |
| SqlSplitter.CommentedEndIsSeenIff | yb-voyager/cmd/analyzeSchema.go:1019-1037 | A semicolon before a trailing comment ends the statement if and only if only spaces stand between them and the comment has no second dash pair, or the comment or its text before its last dash pair ends with a semicolon. |
| SqlSplitter.UncommentedEndIsSeenIff | yb-voyager/cmd/analyzeSchema.go:1019-1037 | A semicolon with no comment after it ends the statement if and only if only spaces follow it. |
| SqlSplitter.DashedCommentHidesEnd | yb-voyager/cmd/analyzeSchema.go:1019-1037 | A concrete line whose statement end goes unseen. |
| SqlSplitter.TabHidesEnd | yb-voyager/cmd/analyzeSchema.go:1019-1037 | A concrete line whose statement end goes unseen because of a tab. |
| RowCount.CountedRightIff | yb-voyager/cmd/exportDataStatus.go:265-306 | Each row of a PostgreSQL data file is counted, once, in every possible delivery if and only if no row contains the end marker after its first character and no row is blank. |
| RowCount.DeliveryIsIrrelevantIffNoInnerMarker | yb-voyager/cmd/exportDataStatus.go:269-306 | The count is that of the file's data lines in every delivery if and only if no row contains the end marker after its first character. |
| RowCount.DataLineIff | yb-voyager/cmd/exportDataStatus.go:381-403 | A line is a row if and only if it is none of the empty line, the end marker, and these with a newline, and, for Oracle and MySQL, stands inside a COPY statement; which lines open and close one. |
| RowCount.BlankRowIsNeverCounted | yb-voyager/cmd/exportDataStatus.go:381-403 | A file of one blank row is counted as empty in every delivery. |
| RowCount.BlankRowsAreDropped | yb-voyager/cmd/exportDataStatus.go:381-403 | The line test counts every row of a list if and only if none is blank. |
| RowCount.MissedRow | yb-voyager/cmd/exportDataStatus.go:269-306 | For every file with such a row there is a delivery that loses rows. |
| RowCount.CountIgnoresChunks | yb-voyager/cmd/exportDataStatus.go:265-306 | Oracle and MySQL: once everything is read, the count is the fold of the program's own line test over the file's lines, however the file was cut into reads. |
| RowCount.CopiedRightIff | yb-voyager/cmd/exportDataStatus.go:381-403 | Oracle and MySQL: each row of each COPY statement of a file is counted, once, in every delivery that is complete in time if and only if no row is blank. |
| RowCount.BlankRowIsNeverCopied | yb-voyager/cmd/exportDataStatus.go:381-403 | Oracle and MySQL: the one blank row of a COPY statement, such as a MySQL table of one text column writes for an empty string, is counted in no such delivery. |
| RowCount.AllReadIff | yb-voyager/cmd/exportDataStatus.go:297-306 | A run of a given number of rounds takes everything if and only if its rounds outnumber the ends of file met before the last read. |
| RowCount.CountIsOfContent | yb-voyager/cmd/exportDataStatus.go:265-295 | At any moment the count is the tally of the newline-terminated lines of all text read, and the carried prefix is what follows the last newline. |
| RowCount.RowCounter.CountRows | yb-voyager/cmd/exportDataStatus.go:297-306 | The outer loop takes exactly the specified number of reads and its counter is the tally over them. |
| RowCount.RowCounter.ReadLines | yb-voyager/cmd/exportDataStatus.go:265-295 | One round takes exactly the reads up to the end of the file or of the data and leaves the specified line. |

## Left out

- ApplyProtocol.ApplyStep: applies one event at a time; a batch is a sequence of such steps followed by its removals, because a batch is one transaction of one channel.
- ConflictDetectionCache.Cache.Put: the metrics of a wait and the timed logging of a long wait are not modelled.
- ConflictDetectionCache.Cache.WaitUntilNoConflict: the calls of other threads are a list in lock order; it says nothing about fairness of the lock.
- CutoverProtocol.TailRecovers: takes snapshot export and Debezium as steps that succeed when not crashed; only the snapshot of a PostgreSQL source is a step of its own.
- NextIteration.InitializedMeansComplete: the record fields that are not read or written by starting an iteration are omitted, and the inherited ones are kept as opaque values; directories are not modelled, since creating one that exists is no error; a database with some of its tables counts as one without, because the table of records comes last.
- PartitionForest.FetchTableNamesAndFilter: fixes the set of listed tables and that none repeats, not their order; the database calls are the forest.
- DriftScope.ResolveDriftTables: does not fix the order of the table list; object types are not modelled.
- RedundantIndexes.GetResolvedRedundantIndexes: an index is identified by its schema, table and name instead of their quoted rendering; the order of the result is that of a map iteration and left open.
- ConflictDetectionCache.Cache.FindConflictLocked: does not fix which of several table-level conflicts is reported.
- SqlSplitter.ParseSqlFile: starts from the file's lines; the regular expressions for the start of a code block, the start of an SQL body and the comment codes are functions of a line; object names and the summary counters are not extracted.
- RowCount.CopiedRightIff: takes a file as COPY statements with other lines around them, each complete, and speaks of deliveries that are complete before the last round ends; `RowCount.AllReadIff` says when they are.
- RowCount.RowCounter.CountRows: the file system's rename is the number of rounds after which it is seen; a PostgreSQL run over a file that never ends is followed until nothing more is delivered.
- The safety of applying events exported from the target: the cache and its wait are modelled for them, and `TargetEvents` says which hand-overs their rule sees, but the transition system takes source events only, because partitioning by table is the default there and some hand-overs are missed without it.
- Resumption by last applied VSN, batch retries, and flush markers in the channels.
- Value conversion between the check and the enqueue step; it happens after the partition key is taken.
- Sorting of key and custom columns before a partition key is built: the columns are given in sorted order.
- Name tuples and the name registry: a table is its name; character case, quoting and Unicode are not modelled, and a value's length is its number of characters.
- Expression indexes, which change a table's partitioning strategy before streaming starts.
- Discarding a started migration, interrupts and signals other than a crash between writes.
- Logging, metrics, reports, progress bars, command-line flags, and all database, Debezium and pg_dump access.
