# Verification of the catalog metadata store

This project models, in Dafny, the code that loads, merges, caches and refreshes a database catalog for the
language server, and proves what that code keeps over every input and every run.

What is modelled:

- **Incremental merge** (`WatchSpec`, `WatchCatalog`, `WatchRelations`, `WatchColumns`, `WatchKeys`, `WatchMerge`).
  `MergeObjects` applies complete replacements, owner by owner, to a cache: nine descriptor categories with an exact
  and a folded map, table membership, columns, primary keys, foreign keys in both directions, per-table groups, the
  object index and the dependency graph. The methods follow the source's loops; `WatchSpec` says what each stage
  computes, `WatchChecks` holds the loops that check a delta. `WatchContents` says what every row, column list, key and
  foreign key is afterwards, `WatchFrame` that nothing changes which the delta neither owns nor deletes. `WatchCanonical`,
  `WatchDetermined`, `WatchProjections`, `WatchTheorems` and `WatchDangling` prove that every projection of the result is
  again the canonical function of its exact data, and that nothing in it refers to a dropped relation.
- **Merge of a single category** (`CatalogMerge`, `CatalogMerging`, `CatalogContents`, `CatalogMergeOrder`): `mergeMetadata`,
  what it puts in every field, and the independence of its result from the order in which categories arrive. `FullLoads` compares the two: when a full load
  is canonical, and so what the incremental merge gives.
- **Plan validation and the scheduler** (`Plans`, `JobVerdicts`, `Permits`, `Scheduler`, `SchedulerData`,
  `SchedulerEndings`, `SchedulerPermits`, `SchedulerWakes`, `SchedulerProgress`, `SchedulerBlocking`, `SchedulerEffects`). Every loop iteration, permit
  operation, launch, delivery and cancellation is one atomic step; other users of the two permit sets act at any
  moment. Wakers are epoch numbers, and a ticket records where one acquisition stands between taking and announcing.
- **Loader snapshots** (`LoaderModel`, `LoaderHistory`, `LoaderEffects`, class `Loaders.MetadataLoader`): every critical section under
  the loader's mutex, in every order.
- **Detail cache** (`DetailModel`, `DetailEffects`, class `Details.DetailStore`): single-flight loading, generation fencing and the
  weighted LRU on a doubly linked list. The class has the source's pointers and counters; its invariant ties them to
  the model, whose invariants are proved over all runs.
- **Registry and budgets** (`RegistryModel`, `RegistrySafety`, `RegistryTheorems`, `RegistryEffects`, class `Registries.Registry`):
  reference counts, incarnations, shared permits, creation and finalizing.
- **Maintenance** (`Maintenance`, `MaintenanceTheorems`, `MaintenanceEffects`): `Maintain` and `Invalidate` against a database that changes
  between any two steps.
- **Smaller parts**: identity keys and their parser (`Identity`), the object index (`ObjectIndexes`), the dependency
  graph (`Dependencies`), knowledge over progressive snapshots (`SemanticKnowledge`, `SemanticAnswers`), byte offsets and
  UTF-16 positions (`Positions`, `PositionMeanings`, `PositionCursors`; sections 3 and 4 of RFC 3629, section 2.1 of RFC 2781, Position in LSP 3.17),
  and dollar-quoted literals (`DollarQuotes`; section 4.1.2.4 of the PostgreSQL documentation).

Conventions. A Go string is a `seq<char>` with one `char` for each byte, except in `DollarQuotes`, whose scanner
works on runes. Unicode case tables are a parameter (`CatalogTypes.Names`) about which nothing is assumed. Iteration
over a Go map picks any remaining key. A nil pointer is `None`. A pointer that is compared by identity (a foreign key)
carries an address; a copy gets a new one, which is what `WatchSpec.CopiesAreFresh` says and all that it says.

What the proofs found, where the code and its intent differ:

- *Index groups.* A full load whose index fragment brings no groups groups the folded index map (metadata/merge.go:127-131),
  the incremental merge the exact one (metadata/watch_merge.go:504). With quoted indexes "IDX" and "idx" on one table the
  full load lists one of them (`FullLoads.FoldHidesAnIndex`). A full load is canonical, and agrees with the incremental
  merge, if and only if the fragment brings the groups of its exact rows or its folded map shows every index that has a
  relation (`FullLoads.FullLoadIsCanonical`, `FullLoads.IncrementalEqualsFullLoad`).
- *Key flags with schemas.* `columnsWithPrimaryKeys` skips columns that have a schema (metadata/merge.go:287), the
  incremental path does not (metadata/watch_merge.go:862). They flag a column alike if and only if it has no schema or
  carries the right flag already (`FullLoads.FlagsAgreeExactly`, with a column that differs in
  `FullLoads.SchemaFlagsDiffer`). The theorems about rebuilds are about catalogs without schemas.
- *Baselines.* An incremental publication keeps a cached object that neither the new scan nor the changes know: one that
  was made and dropped between two scans. The published cache is then no moment of the database since the scan
  (`MaintenanceTheorems.BaselineCanBeUnsound`). A published cache is sound if and only if every such leftover came back
  with its value in time (`MaintenanceTheorems.BaselineSoundness`); a full publication leaves none over
  (`MaintenanceTheorems.FullPublicationIsSound`), and an incremental one none if and only if the changes cover every
  cached object that the scan does not list (`MaintenanceTheorems.CoveringLeavesNothing`).
  `MaintenanceTheorems.IncrementalPublication` says both at once for a whole attempt.
- *Unchanged.* After a full load, too, an object may be cached that no later scan lists, and `Maintain` then answers
  "unchanged" although the cache still has it (`MaintenanceTheorems.UnchangedCanBeWrong`). The answer is right exactly
  when the scan lists every cached object (`MaintenanceTheorems.UnchangedIsExact`).
- *Done.* A parent context that ends between a job's result and its publication loses that status
  (metadata/loader.go:666), so Done can close over an unsettled snapshot (`LoaderHistory.DoneCanBeUnsettled`). When Done
  is closed the unsettled categories are exactly those whose end was noted and not published
  (`LoaderHistory.DoneIsSettledExactly`); without a parent that ends there are none (`LoaderHistory.DoneIsSettled`).
- *Stale before the start.* A generation can be marked stale before it is started, and Start then starts it (metadata/loader.go:238-295
  does not look at the mark): its jobs run although every snapshot of it is stale. A job of a marked generation is
  admitted in some later run if and only if the generation was not started and had not failed, or was stale already, live
  and with a job pending (`LoaderEffects.StaleGeneration`).
- *Default schema.* When the schemas arrive, a Missing relation stays missing if and only if it is not listed under their
  default, and a Present one stays present if and only if it is listed there or a view decides
  (`SemanticKnowledge.DefaultSchemaRetracts`); both kinds of answer are taken back on the inputs of
  `SemanticKnowledge.MissingAppears` and `SemanticKnowledge.PresentVanishes`.
- *Dependency keys.* Two references whose parent or name holds a NUL byte can share a key (`Dependencies.KeysCollide`);
  a reference is alone with its key exactly when it holds none (`Dependencies.KeyIdentifiesExactly`).
- *Cursor.* `positionCursor` answers inside a rune and just before malformed bytes, where `PositionAt` fails, and never
  past malformed bytes, where `PositionAt` succeeds on a later line (`PositionCursors.PositionCursor.At`). On targets
  between whole runes of well-formed text the two agree.

Run `dafny verify dfyconfig.toml` to check everything.

## Model

| member | source | states |
|---|---|---|
| WatchMerge.MergeObjects | metadata/watch_merge.go:19-103 | Succeeds exactly when the base exists, the delta is acceptable and the context never ends; an acceptable delta fails only by cancellation; a result is a merge of the delta, stage by stage, with exactly the deletions found. What such a merge holds is in `WatchContents`, what it leaves alone in `WatchFrame` |
| WatchContents.MergedRows | metadata/watch_merge.go:329-406 | After any merge a key of any category is there exactly if the patch has it, or the base has it and the delta neither owns nor deletes the row; its row is the patch's own, or else the base's, field by field. Only views differ, only in their columns, and only when the delta speaks of the relation: then they are the merged columns, outside every key; a patch view's nil columns become empty |
| WatchContents.MergedTables | metadata/watch_merge.go:711-815 | Every relation's columns, key flags aside, and primary key after any merge: the patch's, or the base's unless the relation is owned or deleted |
| WatchContents.FlagsMean | metadata/watch_merge.go:855-882 | In a canonical cache a column is flagged YES exactly if some table that folds like its own has a primary key column of that name, and NO otherwise |
| WatchContents.MergedFlags | metadata/watch_merge.go:832-882 | The flag of every column after a merge of any base: by the merged keys of its folded table where the delta names the relation or, with keys ready, one that folds like it; as it came otherwise |
| WatchContents.FoldedColumnsExactly | metadata/watch_merge.go:884-909 | The folded column map lists under each folded table the rows of the tables that fold to it, in the order of their names, and nothing else |
| WatchContents.MergedForeignKeys | metadata/watch_merge.go:950-1052 | The foreign keys after a merge are the patch's, with all their pairs, and those of the base with neither end owned or deleted; each is found from both of its tables |
| WatchContents.KeysJoinTwoTables | metadata/watch_merge.go:961-987 | A foreign key of a canonical cache has a pair, and all its left columns are named and on one table, and all its right ones |
| WatchContents.MergedDependencies | metadata/watch_merge.go:1072-1168 | The edges after a merge are the delta's and those of the base that come from no owned reference and touch nothing deleted; each relation has the check names it is given, or else its old ones unless it is deleted, sorted and each once |
| WatchFrame.RowsOutside | metadata/watch_merge.go:319-406 | A row that the delta neither owns nor deletes is the same after a merge, a view up to its columns and those too unless the delta speaks of it |
| WatchFrame.PatchRowsAreOwned | metadata/watch_merge.go:351-377 | Every row of an accepted patch is filed under its own identity, owned by the delta and not deleted by it |
| WatchFrame.FoldedPatchRowsAreOwned | metadata/watch_merge.go:368-377 | Every folded row of an accepted patch is owned too and has an exact row of its identity |
| WatchFrame.TablesOutside | metadata/watch_merge.go:567-617 | A relation that the delta neither owns nor deletes is listed after a merge exactly if it was before |
| WatchFrame.MembershipAcceptedExactly | metadata/watch_merge.go:567-617 | Over a base that lists no name twice, membership is accepted exactly if the patch is there and lists owned names alone, none deleted and none twice; what the base lists may be listed again |
| WatchFrame.ColumnsOutside | metadata/watch_merge.go:711-815 | The columns, flags aside, and the primary key of a relation that the delta neither owns nor deletes are the same |
| WatchFrame.FoldedPatchesAreOwned | metadata/watch_merge.go:711-815 | The folded columns and keys of an accepted patch are of owned tables alone |
| WatchFrame.FKsOutside | metadata/watch_merge.go:950-1034 | A foreign key between tables that the delta neither owns nor deletes stays, and none is added |
| WatchFrame.DependenciesOutside | metadata/watch_merge.go:1072-1168 | An edge from no owned reference that touches nothing deleted stays, and none is added; so do the check names of a relation that is given none and not deleted |
| WatchFrame.ChecksAreKnown | metadata/watch_merge.go:1107-1150 | Check names are given only to a relation that is there after the merge: listed, with names that stay, or a system relation |
| WatchFrame.DeletedExactly | metadata/watch_merge.go:55-80 | A merge deletes exactly what the delta deletes, what it covers and does not bring, and every identity whose row went with one of those |
| WatchTheorems.IncrementalEqualsRebuild | metadata/watch_merge.go:19-103 | On a canonical schema-less cache with primary keys ready, a successful merge gives base minus covered and deleted plus patch in every exact map, row by row the patch's own or the base's, and every projection is canonical again: folded maps, key flags, folded columns, both foreign-key directions, groups, object index, dependency edges |
| FullLoads.IncrementalEqualsFullLoad | metadata/watch_merge.go:19-103 | A full load of the exact data that a merge leaves agrees with the merge on every projection, if and only if its index fragment brings the exact groups or its folded map shows every index with a relation |
| FullLoads.FullLoadIsCanonical | metadata/merge.go:27-150 | Folding mergeMetadata from an empty cache over schema-less fragments, in any order, is canonical under exactly that condition |
| FullLoads.IndexGroupsExactly | metadata/merge.go:123-131 | The index groups of a full load are those of its exact rows under exactly that condition |
| FullLoads.FoldHidesAnIndex | metadata/merge.go:127-131 | Two indexes of one table whose names fold alike: the full load lists one, a grouping of the exact rows both |
| FullLoads.EnrichedFolds | metadata/merge.go:277-331 | Flagging the exact columns and flagging the folded ones keeps the folded map the filing of the exact one |
| FullLoads.FlagsAgreeExactly | metadata/merge.go:307-331 | The full and the incremental path flag a column alike if and only if it has no schema or carries the right flag already |
| FullLoads.SchemaFlagsDiffer | metadata/merge.go:287-295 | A column of schema "S" that the two paths flag differently |
| WatchDetermined.CanonicalIsDetermined | metadata/watch_merge.go:386-404 | Equal exact data, key flags and foreign key addresses aside, determine every projection of a canonical cache: folded maps, groups, objects, folded keys, flags, folded columns, tables, both foreign-key directions, dependency indexes |
| WatchDetermined.GroupsAreDetermined | metadata/merge.go:333-369 | Rows of distinct names have one grouping |
| WatchDetermined.FKsAreDetermined | metadata/watch_merge.go:1036-1050 | The same keys give the same cells between any two tables, up to order in a cell |
| WatchDetermined.GraphsAreDetermined | catalog/dependencies.go:37-67 | The same edges, in any order, are found from both ends; in the same order the graphs are equal |
| WatchDangling.NoDanglingReferences | metadata/watch_merge.go:55-95 | After a merge a dropped table or view, explicit or implied by an empty covered owner, has no membership, column or key entry, foreign-key end, index, trigger or group row, check list or dependency edge |
| WatchDangling.ResurrectionIsRejected | metadata/watch_merge.go:567-1034 | A patch that lists a dropped relation again, or gives it columns, keys, a foreign key, a check list or an edge, or revives its view, an index or a trigger on it, is never acceptable |
| WatchTheorems.RemovedRelationsWereKnown | metadata/watch_merge.go:62-80 | Recording removals after the catalog merge finds no table or view that was not deleted before it, so pruning the groups first misses nothing |
| WatchMerge.FindDeleted | metadata/watch_merge.go:55-70 | Known deletions are the explicit ones and the covered top-level owners their patch does not have |
| WatchChecks.CheckDelta | metadata/watch_merge.go:23-61 | The checking loops accept exactly the deltas whose owners, patches, fragments and deletions fit together |
| WatchChecks.ValidateFragment | metadata/watch_merge.go:177-269 | Accepts exactly the fragments with rows of their own category, each well formed, and groups of exact rows |
| WatchChecks.CheckOwners | metadata/watch_merge.go:39-45 | Accepts exactly valid owners of the category, each named once, seen by their keys |
| WatchChecks.CheckReplacement | metadata/watch_merge.go:351-377 | Accepts exactly covered replacement rows under their own keys, none deleted, and folded rows that have an exact one |
| WatchCatalog.RecordRemoved | metadata/watch_merge.go:271-283 | Adds exactly the identities whose key the exact map lost; fails exactly when a lost key does not decode |
| WatchCatalog.RecordRemovedCatalog | metadata/watch_merge.go:284-313 | The same over all descriptor categories |
| WatchCatalog.ReplaceDescriptors | metadata/watch_merge.go:329-406 | Fails exactly on an unpublished exact map, a nil row, an uncovered or deleted row or a wrong key; else a touched exact map has the patch's own rows, whole, and exactly the base rows that are neither covered nor deleted, and the folded map is rebuilt; both are kept when untouched |
| WatchTheorems.CategoryIsReplaced | metadata/watch_merge.go:329-406 | Touched or not, the next exact rows are base minus covered and struck plus the patch, each row whole: the patch's or the base's |
| WatchCanonical.FoldedIsDetermined | metadata/watch_merge.go:386-404 | The rows sorted by name and folded leave one outcome: for each folded name the row with the greatest name |
| WatchCatalog.GroupRows | metadata/merge.go:333-346 | Groups hold every row of the folded map once, under its folded table, sorted by name |
| WatchCatalog.RebuildObjects | metadata/watch_merge.go:546-565 | The index finds exactly the identities of the exact keys; fails exactly when an exact map is missing or a key does not decode |
| WatchCanonical.ObjectsAreDetermined | catalog/objectindex.go:63-99 | Two indexes of one catalog find the same identities, exactly and by folded name |
| WatchCatalog.MergeWatchCatalog | metadata/watch_merge.go:445-537 | All nine categories, the groups and the index; an untouched catalog is left alone |
| WatchRelations.MergeWatchRelations | metadata/watch_merge.go:567-617 | Membership: kept names and patch names, each once and sorted; a duplicate, uncovered or deleted name is an error |
| WatchRelations.SortDistinct | metadata/watch_merge.go:607-615 | Sorts a schema and finds a repeated name by comparing neighbours |
| WatchProjections.TablesAreMerged | metadata/watch_merge.go:567-617 | Touched or not, a schema lists exactly the kept names and the names of the patch |
| WatchColumns.ReplaceColumns | metadata/watch_merge.go:711-769 | Exact columns after deletion, cover and patch, with every error the patch checks raise |
| WatchColumns.ReplaceKeys | metadata/watch_merge.go:720-815 | The same for exact primary keys |
| WatchColumns.FoldKeys | metadata/watch_merge.go:816-831 | Folded key columns are the union over the tables that fold together, in any order of visiting |
| WatchCanonical.KeysAreDetermined | metadata/watch_merge.go:816-831 | There is one such union |
| WatchColumns.FindChanged | metadata/watch_merge.go:832-854 | The relations to flag again: the named ones and every column entry that folds like one of them |
| WatchProjections.UnreachedFold | metadata/watch_merge.go:832-854 | A folded table no named relation reaches keeps its key columns |
| WatchProjections.FlagsEverywhere | metadata/watch_merge.go:832-882 | Flagging only those relations gives the flags a rebuild of all columns would give |
| WatchColumns.SortKeys | metadata/watch_merge.go:884-898 | All keys of the exact column map, ordered by decoded name, then schema |
| WatchColumns.FoldColumns | metadata/watch_merge.go:884-909 | Columns filed relation by relation in that order under their folded table |
| WatchCanonical.ColumnsAreDetermined | metadata/watch_merge.go:884-909 | Without schemas that order, and so the folded column map, is unique |
| WatchColumns.RefreshViews | metadata/watch_merge.go:910-926 | Exactly the views whose columns changed get copies of the merged columns, never part of a key |
| WatchTheorems.RefreshStaysCanonical | metadata/watch_merge.go:910-930 | Refreshing views changes no identity and keeps the catalog canonical |
| WatchColumns.MergeWatchColumns | metadata/watch_merge.go:657-930 | The whole stage: succeeds exactly when its inputs are mergeable |
| WatchKeys.CollectFKs | metadata/watch_merge.go:961-987 | Each distinct key of the index once; a malformed key is an error |
| WatchKeys.RemainingFKs | metadata/watch_merge.go:988-1034 | Base keys with no covered or deleted end, and copies of the incoming ones, each once |
| WatchKeys.IndexFKs | metadata/watch_merge.go:1035-1050 | Every key filed under both of its tables, in sorted order |
| WatchKeys.MergeWatchForeignKeys | metadata/watch_merge.go:950-1052 | The whole stage: succeeds exactly when its inputs are mergeable |
| WatchTheorems.FKsAreMerged | metadata/watch_merge.go:950-1052 | Touched or not, the index mentions exactly the remaining keys, in both directions |
| WatchKeys.MergeWatchDependencies | metadata/watch_merge.go:1072-1168 | Edges and checks after deletion and patch; succeeds exactly when they refer to known relations and valid references |
| WatchTheorems.DependenciesAreMerged | metadata/watch_merge.go:1072-1168 | Touched or not, edges and check lists are the kept and the incoming ones, and the graph is canonical |
| CatalogMerging.MergeMetadata | metadata/merge.go:42-150 | An accepted patch gives a merged cache and any other an error; the base is a value and does not change |
| CatalogContents.FieldsAreMerged | metadata/merge.go:70-118 | One merge makes its category ready and takes the category's own fields from the patch, as they are; every other field, and every other category's state, is the base's |
| CatalogContents.RowsAreMerged | metadata/merge.go:101-148 | The rows of the merged descriptor category are the patch's, exact and folded, and those of every other category the base's |
| CatalogContents.GroupsAreMerged | metadata/merge.go:123-135 | Only merging indexes changes the index groups, to the patch's own if it has any, and only merging triggers the trigger groups |
| CatalogContents.RowIdentity | catalog/cache.go:141-180 | The identity under which a row is found: name and kind of its category, the schema only for indexes and exceptions, the table only for an index inside a schema |
| CatalogContents.ColumnsAreMerged | metadata/merge.go:77-96 | The columns after any merge, in both maps and in order: the patch's unless one schema's would replace all schemas', else the base's; where columns and keys meet, a schema-less column is YES exactly if the merged keys have its name under its table, and otherwise every flag is as it was |
| CatalogContents.AcceptsExactly | metadata/merge.go:42-68 | A patch is accepted exactly if its category is known, its counts are not negative, the field it is merged into is there and, for foreign keys, every key has a pair and both ends of each |
| CatalogMerging.ColumnsWithPrimaryKeys | metadata/merge.go:277-331 | Flags every schema-less row YES or NO by its folded table and leaves schema rows of the folded map alone |
| CatalogMerging.RebuildObjects | catalog/cache.go:141-180 | The object index holds exactly the identities of the rows of every category |
| CatalogMerging.ForeignKeysValid | metadata/merge.go:59-68 | Finds a nil key or an incomplete endpoint, if there is one |
| CatalogMergeOrder.FoldBuilds | metadata/merge.go:42-150 | Folding merges over patches of distinct kinds gives what the set of patches determines as a whole |
| CatalogMergeOrder.OrderDoesNotMatter | metadata/merge.go:42-150 | Any two orders of the same patches give the same cache, up to order in a fold bucket and among same-named rows of a group |
| CatalogMergeOrder.AllColumnsSupersede | metadata/merge.go:70-105 | All-schema columns win whichever column category comes first, and carry the flags of the merged keys whichever side comes first |
| Plans.ValidatePlan | metadata/loader.go:297-356 | Accepts exactly the plans with parallelism 1 to 3, known distinct kinds, a Run each, present non-duplicate dependencies and a topological order; of any other it names the first thing that is wrong, and says "cycle" only when all else is right |
| Plans.Kahn | metadata/loader.go:329-355 | Terminates, and answers whether a topological order exists |
| Plans.Pass | metadata/loader.go:335-353 | Keeps every counter equal to the number of unfinished dependencies; no progress means every job left waits for one that is left |
| Plans.NoOrderLeft | metadata/loader.go:351-353 | If every job left waits for one that is left, there is no topological order |
| JobVerdicts.SolvedByEvaluation | metadata/loader.go:384-401 | The recursion over the graph is the only assignment of endings in which each job is judged by its dependencies |
| JobVerdicts.EvaluationSolves | metadata/loader.go:384-401 | The recursion is such an assignment |
| SchedulerBlocking.BlockDependents | metadata/loader.go:383-401 | The passes amount to a run of single blocking steps after which nothing is left to block, each counted once |
| SchedulerEndings.Confluence | metadata/loader.go:364-551 | In every reachable uncancelled state each finished job has the ending the recursion gives it, the snapshot shows it and the cache holds exactly the merged patches; an ended schedule has finished every job |
| SchedulerEndings.InputsAreMerged | metadata/loader.go:425-453 | A launched job was given the merged patch of each of its dependencies |
| SchedulerEndings.RunnersStay | metadata/loader.go:434-457 | A launched job stays launched with the ticket and the input it got, so none is launched twice |
| SchedulerEndings.BlockedNeverRan | metadata/loader.go:383-401 | A blocked job was launched at no moment of the run |
| SchedulerEffects.CancelFreezes | metadata/loader.go:371-375 | After a cancellation no step changes a published status or the cache, no job is admitted or called, a schedule at the start of a round takes no permit for it, and one that waits goes on to its end |
| SchedulerEffects.AtMostParallel | metadata/loader.go:406-457 | At no moment of any run are more jobs admitted and unfinished than the plan's parallelism |
| SchedulerEffects.EndsWithTheLast | metadata/loader.go:370-371 | A schedule that begins a round or waits has a job pending or loading: it ends with the last one |
| Permits.StepConserves | metadata/budget.go:145-164 | Every permit operation keeps the counters equal to the holders; used plus unannounced permits fall only with a broadcast |
| Permits.NoLostWake | metadata/budget.go:145-164 | Whoever found a store or host full and saw no broadcast since still faces used plus unannounced permits that fill it |
| Permits.TicketsAdvance | metadata/loader.go:619-644 | A ticket passes its stages in order, at least one with each operation on it |
| Permits.NothingTwice | metadata/loader.go:619-644 | No operation happens twice on one ticket: no permit is taken, given back or announced twice |
| SchedulerWakes.ParkedIsAccounted | metadata/loader.go:402-494 | At every park: with room left, an admissible job was refused a permit; while unwoken, used plus unannounced permits fill what refused it |
| SchedulerEffects.NoBusySpin | metadata/loader.go:461-474 | After a round in which nobody else moved, with however many refusals and rollbacks of its own, a schedule is parked with nothing to wake it |
| SchedulerProgress.ParksSoon | metadata/loader.go:371-494 | In any run, between two wakes or results the scheduling goroutine takes at most five steps a job and eleven more |
| SchedulerProgress.KeepsGoing | metadata/loader.go:371-494 | In every reachable state it can take a step, unless it is parked with no wake, result or cancellation, or over |
| SchedulerWakes.NoStall | metadata/loader.go:475-486 | A schedule that parks with nothing running was refused a permit for a job it could admit, by a store or host that is full until it is woken |
| SchedulerWakes.NoLeakedPermit | metadata/loader.go:412-457 | Semaphores count exactly the holding tickets; each open ticket belongs to a call in progress, to the admission, or to a goroutine whose next step moves it on |
| SchedulerWakes.CallsHoldPermits | metadata/loader.go:434-457 | A native call has both permits from admission to its return |
| LoaderHistory.SnapshotHistory | metadata/loader.go:153-196 | Between any two moments the snapshot is the same or later by generation, then revision; in a generation, terminal categories, start and stale mark stay; Stale goes only with a new generation |
| LoaderHistory.SnapshotIsConsistent | metadata/loader.go:655-696 | Status is Ready exactly when the cache is; drained is closed exactly when no runner is active |
| LoaderHistory.DoneIsSettledExactly | metadata/loader.go:664-751 | In any run, when Done is closed the unsettled categories are exactly those whose end was noted and not published, so the snapshot is settled if and only if there are none; superseded generations are settled |
| LoaderHistory.DoneIsSettled | metadata/loader.go:702-751 | If contexts end only by Reset, Stop and MarkStale no end is lost, and a closed Done means a settled snapshot |
| LoaderHistory.DoneCanBeUnsettled | metadata/loader.go:664-668 | A run in which that happens |
| LoaderEffects.DoneIsExact | metadata/loader.go:702-751 | In every run Done of a started generation is closed exactly when its schedule has returned, the loader has ended it, or it was installed |
| LoaderEffects.StaleGeneration | metadata/loader.go:774-809 | Once marked, every later snapshot of the generation is stale; a job of it is admitted in some later run if and only if it was not started and had not failed, or was stale already, live and with a job pending |
| LoaderEffects.LiveStatus | metadata/loader.go:364-551 | While its context lives a generation shows each planned job pending until admitted, loading until it ends and then the way it ended, and the cache is ready for exactly the jobs that ended ready |
| LoaderEffects.ResetEffect | metadata/loader.go:153-196 | Reset shows an empty, unstarted, fresh generation and leaves the one before with its unfinished categories cancelled; it is ignored when stopped or not newer |
| LoaderEffects.StartEffect | metadata/loader.go:238-295 | Start shows exactly the plan as pending under a live context, and refuses a stopped loader, another generation and one that was started or failed to |
| LoaderEffects.StartFailedEffect | metadata/loader.go:203-232 | A failed start is shown as an ended generation that never starts again |
| LoaderEffects.AdmitEffect | metadata/loader.go:527-551 | A job is admitted exactly if the loader runs and its generation is current, started, live and shows it pending; it then shows loading and counts as one more runner |
| LoaderEffects.LateEndEffect | metadata/loader.go:664-678 | An end under another generation or an ended context, or of a category that has ended, changes no snapshot |
| LoaderEffects.SettleEffect | metadata/loader.go:702-733 | A schedule that gives up leaves its unfinished categories cancelled and Done closed, and another generation alone |
| LoaderEffects.MarkStaleEffect | metadata/loader.go:774-809 | MarkStale makes the snapshot stale, cancels what has not ended and ends the context, in the same generation |
| LoaderEffects.StopEffect | metadata/loader.go:837-871 | Stop cancels what has not ended, ends the context and closes Done |
| LoaderEffects.StoppedRefuses | metadata/loader.go:837-871 | However the run goes on, a stopped loader is not reset, started or given a job |
| LoaderEffects.ReportEffect | metadata/loader.go:553-596 | A runner's figures are kept for a loading or cancelled category of its generation alone, and neither they nor the start mark change a state |
| LoaderEffects.InstallEffect | metadata/loader.go:102-141 | What a snapshot must be to be installed, in terms of its categories; the generation is then over |
| Loaders.CancelUnsettled | metadata/loader.go:702-733 | Turns exactly the pending and loading categories to cancelled and says whether there was one |
| Loaders.MetadataLoader.Reset | metadata/loader.go:153-196 | Ignored when stopped or not newer; else the old generation is cancelled and settled and an empty one begins |
| Loaders.MetadataLoader.Start | metadata/loader.go:238-295 | Starts the current unstarted generation once, with its plan pending |
| Loaders.MetadataLoader.AdmitJob | metadata/loader.go:527-551 | Admits a pending job of the live current generation and counts its runner |
| Loaders.MetadataLoader.EndJob | metadata/loader.go:664-696 | Notes the end of a job and publishes it; the snapshot only moves forward and every invariant holds, also when the end is lost |
| Loaders.MetadataLoader.SettleCancelled | metadata/loader.go:702-733 | Cancels what has not ended in its own generation and closes Done once |
| Loaders.MetadataLoader.MarkStale | metadata/loader.go:774-809 | Marks the snapshot stale and settles the current generation once: afterwards the snapshot of a running loader is stale |
| Loaders.MetadataLoader.Stop | metadata/loader.go:837-871 | Settles the current generation and refuses everything after |
| Loaders.MetadataLoader.InstallSettled | metadata/loader.go:102-141 | A staged snapshot is taken exactly when the context has not ended, the loader is fresh, and the snapshot is started and settled, has a generation and no negative count, and its status and cache agree |
| Loaders.MetadataLoader.RunnerFinished | metadata/loader.go:655-662 | Closes drained with the last runner |
| DetailModel.ReachableInv | metadata/details.go:165-255 | In every reachable state the list holds each mapped load once, one for a coverage, and the settled bytes are the total and within the bound |
| DetailModel.EvictionIsShortestTail | metadata/details.go:206-222 | Eviction keeps the longest prefix that fits, and drops from the tail after it every settled entry and no in-flight one |
| DetailModel.EvictKeeps | metadata/details.go:211-222 | Eviction from any point of the walk keeps the invariants and restores the bound |
| DetailModel.Touch | metadata/details.go:249-255 | Moving an entry to the front is a permutation and keeps everything |
| DetailModel.SingleFlight | metadata/details.go:109-144 | In every reachable state a coverage has at most one unfinished load since the store was last cleared |
| DetailModel.LoadsAreFinalOverRuns | metadata/details.go:165-204 | An outcome once given never changes: a ready channel closes once |
| DetailModel.FencedValue | metadata/details.go:109-204 | A caller gets a value only from a load of its own generation that settled while that generation was current and not stale, however the run goes on |
| DetailModel.JoinedLoad | metadata/details.go:109-144 | A request finds a load of its generation and coverage that is unfinished or retained and fitting: never a failed, oversize or volatile result |
| DetailModel.SettlesCurrent | metadata/details.go:165-204 | Which answer a settling load gives: the value, its own error, the limit error or stale, by whether it is still mapped |
| DetailEffects.ValueIsCached | metadata/details.go:181-198 | A mapped, non-volatile value that fits is cached at its weight; the list keeps the longest prefix that fits and every load in flight behind it; with room for all nothing moves and the next request of the coverage joins this very load and starts none |
| DetailEffects.OthersAreForgotten | metadata/details.go:173-197 | An error, an oversize or a volatile result alone leaves the list, and the next request of its coverage starts a new load |
| DetailEffects.LateIsStale | metadata/details.go:165-172 | A result of a load that is forgotten changes no list and is answered as stale |
| DetailEffects.AcquireEffect | metadata/details.go:109-133 | A request is refused exactly by a stale store or another generation; else it joins the mapped load of its coverage, which comes to the front, or starts one at the front if there is none |
| DetailEffects.ClearingEffect | metadata/details.go:69-96 | A new generation forgets every load and its next request starts one; a stale store refuses |
| DetailEffects.StaleRefuses | metadata/details.go:88-117 | A stale store refuses every request until a new generation begins, however the run goes on |
| DetailEffects.ReturnEffect | metadata/details.go:257-264 | A finished load's runner returns once, and nothing else changes |
| Details.DetailStore.PushFront | metadata/details.go:224-233 | The list is the entry followed by the old list, linked both ways |
| Details.DetailStore.Remove | metadata/details.go:235-247 | The list without the entry, linked both ways |
| Details.DetailStore.Touch | metadata/details.go:249-255 | The entry first, the others in their old order |
| Details.LinkedOnce | metadata/details.go:224-247 | A list whose links are right has no entry twice |
| Details.DetailStore.EvictLocked | metadata/details.go:211-222 | The pointer walk from the tail is the eviction of the model |
| Details.DetailStore.BeginGeneration | metadata/details.go:69-83 | A new generation forgets every mapped entry; in-flight loads go on and will answer stale |
| Details.DetailStore.MarkStale | metadata/details.go:88-96 | The same for the stale mark |
| Details.DetailStore.Acquire | metadata/details.go:109-144 | Refuses a stale or other generation, joins the mapped entry, or maps one new entry and starts its load |
| Details.DetailStore.Settle | metadata/details.go:165-204 | The pointer code publishes, drops, retains and evicts as the model does: a fitting value of a mapped load stays in its place, settled, when there is room; and keeps the whole invariant |
| Details.DetailStore.RunnerFinished | metadata/details.go:257-264 | Counts a returned load; drained is closed exactly when every load there ever was has returned |
| RegistryTheorems.RefsAreExact | metadata/registry.go:152-304 | References are the waiting Acquire calls plus the unreleased leases; a track with none is retired |
| RegistryTheorems.LeasesShare | metadata/registry.go:197-226 | Unreleased leases with one key share one incarnation, with one scope too one store |
| RegistryTheorems.RecreatedIsLarger | metadata/registry.go:197-226 | An entry that serves a key later has a strictly larger incarnation |
| RegistryTheorems.EntriesStayOverRuns | metadata/registry.go:278-304 | A retired entry is never live again |
| RegistryTheorems.BudgetsAreShared | metadata/budget.go:103-133 | Stores of one key that have not given their reference back share one permit set, whose count is exactly their number |
| RegistryTheorems.BudgetsEnd | metadata/budget.go:118-133 | A key has permits exactly while some store of it has not given its reference back |
| RegistryTheorems.ProviderClosesOnce | metadata/registry.go:310-342 | A provider is closed at most once, after its factory returned and its loader, maintenance and details drained |
| RegistryTheorems.CloseIsComplete | metadata/registry.go:366-404 | Close answers nil only when every store is finalized, its provider closed, and none can be made any more |
| RegistryEffects.RetiredNeverRuns | metadata/registry.go:230-269 | A store that is retired or cancelled when its loader is to start never runs a job, a detail load or maintenance in any later run, and nobody gets a lease on it; any other can run all three |
| RegistryEffects.UsedStoreStays | metadata/registry.go:278-342 | While the registry is open, a store that a call waits for or a lease holds is not retired, its loader and details take work, and its context ends only with the root's |
| RegistryEffects.AttachEffect | metadata/registry.go:197-226 | A call attaches to the store of its key and scope that is in use, if there is one, and else to a new one, in the key's entry or a new one; nothing else changes |
| RegistryEffects.LeaseIsAsAsked | metadata/registry.go:152-191 | The lease a call is given is on a running store of the key and scope it asked for, neither retired nor cancelled |
| RegistryEffects.ReleaseEffect | metadata/registry.go:278-304 | Giving a reference back changes nothing else unless it was the last; then the store is retired, and its entry exactly if no other store of it is in use |
| RegistryEffects.FinalizerEnds | metadata/registry.go:310-342 | Once the factory has answered and no work is left, the finalizer of a retired store comes to its end by itself, its provider closed if it had one |
| RegistryEffects.FinalizerWaits | metadata/registry.go:315-337 | In any run a finalizer waits only for its factory, or for work of a kind that can no longer begin |
| RegistryEffects.WorkIsCounted | metadata/registry.go:230-342 | A store's work in flight is what has begun and not ended; it is finalized with its provider closed exactly if its factory returned one, used or not |
| RegistryEffects.CloseEffect | metadata/registry.go:366-390 | Close retires every store that is left and every entry and does nothing more when repeated; it can be answered exactly when every store is finalized |
| Registries.Registry.ForStore | metadata/budget.go:103-116 | A key in use keeps its permit set and counts one more reference, another gets a set that no key has; every other key keeps its own |
| Registries.Registry.Attach | metadata/registry.go:197-226 | Refuses when closed; else finds or makes entry and track and keeps every invariant |
| Registries.Registry.ReleaseLease | metadata/registry.go:278-304 | Drops one reference; the last one retires the track, and an emptied entry, and starts the finalizer |
| Registries.Registry.Shut | metadata/registry.go:366-390 | Retires every live track and entry in one critical section |
| MaintenanceTheorems.NoLostInvalidation | metadata/watch_refresh.go:244-278 | Publishing means no Invalidate since the attempt began, hence before all its reads; over a stale snapshot only an explicit full attempt; loader, details and baseline agree afterwards |
| MaintenanceTheorems.StaleIsCleared | metadata/lease.go:176-192 | Only publication clears Stale or moves the generation; Invalidate always sets it; details always follow |
| MaintenanceTheorems.BaselineSoundness | metadata/watch_refresh.go:167-230 | While a baseline is kept, each object but the leftovers has its database value of some moment between scan and publication, and all have it if and only if each leftover came back in time |
| MaintenanceTheorems.FullPublicationIsSound | metadata/watch_refresh.go:198-214 | A full publication after a scan has every object as of some moment since the scan |
| MaintenanceTheorems.ReadsEverything | metadata/watch_refresh.go:152 | In every run an attempt that was asked for everything, whose baseline is not of its snapshot and epoch, that has no scan or one of another format, is never at or past an incremental read; any other begins with one |
| MaintenanceTheorems.FullRequestIsSound | metadata/watch_refresh.go:152-214 | A full request publishes, after a scan, every object as of a moment since that scan and a baseline for the next attempt; without a scan it leaves no baseline |
| MaintenanceTheorems.FullPublication | metadata/watch_refresh.go:198-278 | What an attempt read in full is what it publishes, whatever the database did in between |
| MaintenanceTheorems.IncrementalPublication | metadata/watch_refresh.go:167-278 | A cache published by an incremental attempt holds every object as of a moment between its scan and its publication, if and only if every cached object that the scan and the changes miss came back with its value in time |
| MaintenanceTheorems.CoveringLeavesNothing | metadata/watch_refresh.go:167-196 | An incremental merge leaves nothing over if and only if the changes cover every cached object that the scan does not list |
| MaintenanceTheorems.BaselineCanBeUnsound | metadata/watch_refresh.go:167-230 | A run that publishes an object the database had at no moment since the scan |
| MaintenanceTheorems.UnchangedIsExact | metadata/watch_refresh.go:138-151 | An "unchanged" answer means the cache equals the database as scanned if and only if the scan lists every cached object |
| MaintenanceTheorems.UnchangedCanBeWrong | metadata/watch_refresh.go:138-151 | A run that ends in a wrong "unchanged" answer |
| MaintenanceTheorems.ChangesAreSound | metadata/watch_refresh.go:167-196 | A merge that covers every differing object is sound for the new scan, its leftovers aside |
| MaintenanceEffects.PublishesUnlessDisturbed | metadata/watch_refresh.go:255-299 | In every run a built attempt can be published, and a check with nothing new answered, exactly when no Invalidate has come since it began and the store is open; a check has a scan behind it once it reads |
| MaintenanceEffects.ScannedDecides | metadata/watch_refresh.go:138-152 | After the scan an attempt answers "unchanged" exactly if it is a check, its baseline is valid, and format and every mark agree; otherwise it reads |
| MaintenanceEffects.BeginEffect | metadata/watch_refresh.go:38-93 | When an attempt may begin and take its snapshot, what it captures, and when its baseline counts as valid |
| MaintenanceEffects.ScanEffect | metadata/watch_refresh.go:104-137 | A scan keeps the marks of its moment; only a full attempt goes on without one |
| MaintenanceEffects.OthersLeaveThePublished | metadata/watch_refresh.go:22-24 | Nothing but a publication changes the cache, generation, loader or baseline; a failed attempt is over and leaves everything as it was |
| MaintenanceEffects.AskedForFull | metadata/watch_refresh.go:176-214 | When the provider asks for it an incremental attempt reads everything from that moment on and stays with it to its end |
| MaintenanceEffects.CloseIsFinal | metadata/watch_refresh.go:282-299 | Once the store is closed nothing is published, answered, invalidated or begun in any later run |
| MaintenanceEffects.CanAlwaysRefresh | metadata/watch_refresh.go:25-278 | From any state of an open store without an attempt, an undisturbed explicit full attempt publishes the database as it is, under the next generation, not stale |
| Maintenance.SameVersionSameRow | metadata/watch_refresh.go:79-84 | An object with the same version in two scans was the same all the time between |
| SemanticKnowledge.NeverRetracts | language/semantic_catalog.go:187-421 | In a schema-less generation a Present or Missing answer about a relation, procedure or domain is the answer of every later snapshot that is not stale, in any merge order |
| SemanticKnowledge.ProcedureStays | language/semantic_catalog.go:327-381 | One merge or status change keeps what is known of a procedure, and its descriptor |
| SemanticKnowledge.DomainStays | language/semantic_catalog.go:388-421 | One merge or status change keeps what is known of a domain, and its row; what that is says `SemanticAnswers.DomainAnswer` |
| SemanticKnowledge.RelationStays | language/semantic_catalog.go:243-316 | The same for a relation, while the default schema stays |
| SemanticKnowledge.DefaultSchemaRetracts | language/semantic_catalog.go:298-308 | When the schemas arrive, Missing stays if and only if the relation is not listed under the new default, and Present stays if and only if it is listed there or a view decides |
| SemanticKnowledge.MissingAppears | language/semantic_catalog.go:298-308 | A relation that is missing and then present |
| SemanticKnowledge.PresentVanishes | language/semantic_catalog.go:298-308 | A relation that is present and then not |
| SemanticAnswers.DomainAnswer | language/semantic_catalog.go:388-421 | For a ready canonical category: Present, with its row, exactly if some exact row has exactly the name; else Unknown exactly if the name is quoted and some row folds like it; else Missing |
| SemanticAnswers.ProcedureAnswer | language/semantic_catalog.go:327-381 | The same for a procedure |
| SemanticAnswers.RelationAnswer | language/semantic_catalog.go:243-308 | Present exactly if a view has the name or it is listed; Missing exactly if neither, everything it could be is known, no view may hide behind a fold and no procedure has the name; else Unknown |
| SemanticAnswers.NoAnswer | language/semantic_catalog.go:22-48 | A stale or empty snapshot, a name that begins with RDB$ or MON$, and a category that is not ready are answered with Unknown |
| SemanticAnswers.Readiness | language/semantic_catalog.go:22-30 | A category is ready if its status says so, whatever the cache says, and without a status if the cache does; never in a stale or empty snapshot |
| SemanticAnswers.AnyMaps | language/semantic_catalog.go:187-421 | Whatever the maps hold: a row that is shown has exactly the name, a misfiled one is Unknown, and the folded map is asked only where the exact one has nothing |
| Positions.Inverse | language/positions.go:11-112 | On any bytes, ByteOffset answers an offset exactly when PositionAt answers the position |
| Positions.LocatedOnce | language/positions.go:11-112 | A position determines its offset and an offset its position |
| PositionMeanings.PositionMeans | language/positions.go:11-112 | An offset is at a position exactly if as many lines end before it, the bytes from the start of its line spell runes of as many UTF-16 code units, a rune begins there or the text ends, and it is not between CR and LF |
| PositionMeanings.DecodeExactly | language/positions.go:33-50 | A rune is decoded from exactly the bytes that encode it in UTF-8, and from no overlong form, surrogate or value past the last |
| PositionMeanings.WidthIsUnits | language/positions.go:40-46 | The width of a rune is the number of its UTF-16 code units |
| PositionMeanings.OnLineIs | language/positions.go:62-95 | An offset is on the line with as many line ends before it, and between CR and LF on none |
| Positions.ByteOffset | language/positions.go:11-56 | The line and column loops compute the offset of the position, or fail when there is none |
| Positions.PositionAt | language/positions.go:62-112 | The line and column loops compute the position of the offset, or fail when there is none |
| Positions.FindLine | language/positions.go:62-95 | The line an offset is on; an offset inside a CRLF pair is on none |
| Positions.NextDelimiter | language/positions.go:170-183 | The first LF, CRLF or CR from a point on; exactly a CRLF has two bytes |
| PositionCursors.PositionCursor.At | language/catalog_references.go:115-143 | On any bytes and targets: where whole runes lead and another begins the answer is PositionAt's, failures inside CRLF included; past malformed bytes there is none; inside a rune or just before malformed bytes there is one where PositionAt has none; behind the cursor or past the text there is none |
| PositionCursors.NoPosition | language/catalog_references.go:115-143 | Between CR and LF there is no position |
| Identity.KeyInjective | catalog/identity.go:21-33 | Equal keys come from equal identities, the optional parent included |
| Identity.KeyText | catalog/identity.go:21-33 | The text of a key: each component in order behind its length in decimal and a colon, the parent only if there is one |
| Identity.BuildKey | catalog/identity.go:21-33 | Appending the length-prefixed components one by one gives the key |
| Identity.IndexKeysCollideExactly | catalog/identity.go:39-45 | Two index rows share an identity exactly when schema and name agree and, inside a schema, the relation too |
| Identity.WatchParseID | metadata/watch_merge.go:623-655 | The parsing loop finds the one valid identity that has the key, and fails exactly when there is none |
| Identity.ParseKeyInverts | metadata/watch_merge.go:623-655 | Parsing inverts Key on every identity with a name and no catalog or owner |
| Identity.ParseKeyAcceptsExactly | metadata/watch_merge.go:623-655 | Accepted are exactly the strings that write five or six components with their exact lengths: no catalog, no owner, a name, and a parent if there is a sixth |
| ObjectIndexes.BucketIsLinearScan | catalog/objectindex.go:63-99 | A bucket is what a linear scan by folded name finds, each identity once and in insertion order |
| ObjectIndexes.ObjectIndex.Insert | catalog/objectindex.go:63-74 | Appends an identity that is not in yet and ignores one that is |
| ObjectIndexes.ObjectIndex.Lookup | catalog/objectindex.go:77-83 | Finds an identity exactly when it was inserted |
| ObjectIndexes.ObjectIndex.LookupUnquoted | catalog/objectindex.go:90-99 | Exactly the inserted identities of the kind whose names fold alike, each once, in insertion order |
| ObjectIndexes.ObjectIndex.ResolveObjectName | catalog/cache.go:302-318 | An exact identity wins, then a unique folded one; several are handed back |
| ObjectIndexes.FillDefaultFold | catalog/objectindex.go:48-58 | The byte loop upper-cases ASCII letters and nothing else |
| Dependencies.NewDependencyGraph | catalog/dependencies.go:37-67 | Each edge once, at the place where it is first seen, both indexes exact, check names sorted and unique |
| Dependencies.Uses | catalog/dependencies.go:97-102 | Exactly the edges from a reference with that key, each once, in edge order |
| Dependencies.UsedBy | catalog/dependencies.go:105-122 | Exactly the edges to a reference with that key, of the field if one is named, each once, in edge order |
| Dependencies.KeysCollide | catalog/dependencies.go:18-26 | Two references of one kind with one key |
| Dependencies.KeyIdentifiesExactly | catalog/dependencies.go:18-26 | A reference is alone with its key if and only if neither parent nor name holds a NUL byte |
| DollarQuotes.Tokenizer.TokenizeDollarQuotedString | token/lexer.go:558-599 | A literal runs verbatim from its delimiter to the end of the first occurrence of that delimiter, or to the end of input; else the dollar and its tag characters are the token; line and column count CR, LF and CRLF once |
| DollarQuotes.Tokenizer.ReadBody | token/lexer.go:580-598 | The streaming loop stops at the first occurrence of the delimiter |
| DollarQuotes.Shift | token/lexer.go:589-593 | After each rune the pending buffer is again the longest suffix that begins the delimiter, and nothing is lost |
| DollarQuotes.OneMore | token/lexer.go:580-598 | A full pending buffer means that the first delimiter ends here; otherwise none has ended yet |
| DollarQuotes.EndsOnce | token/lexer.go:558-599 | The text determines where a literal ends |
| DollarQuotes.OpeningIsDelimiter | token/lexer.go:558-577 | A literal opens exactly with the delimiter that stands there: a dollar, an empty tag or an identifier without dollars, a dollar |
| DollarQuotes.PlaceMeans | token/lexer.go:601-617 | The line moves on by the CRs and the LFs that no CR comes before, and the column is the number of runes after the last of them |
| DollarQuotes.RunesPrefix | token/lexer.go:627-637 | Decides the prefix relation |

## Left out

- WatchKeys.MergeWatchDependencies: states the set of edges and not their order, because the source sorts by formatted text, which does not separate all edges.
- Texts of errors: every rejection of an incremental merge is one `Incomplete`, and a rejected plan keeps only its reason.
- WatchTheorems.IncrementalEqualsRebuild: is about canonical caches without schemas, because with schemas the two paths flag differently and without the groups of the exact indexes a full load is not canonical; `FullLoads` gives both conditions exactly.
- WatchDangling.NoDanglingReferences: the same, for the same reason.
- CatalogMergeOrder.OrderDoesNotMatter: is up to order inside a fold bucket and among same-named rows of a group, which the code leaves to map iteration.
- MaintenanceTheorems.BaselineSoundness: excepts the leftovers of an incremental merge, for which it is false unless they came back in time.
- LoaderHistory.DoneIsSettled: leaves out a parent context that ends just before a status is published; `LoaderHistory.DoneIsSettledExactly` covers it.
- DetailModel.LoadsAreFinalOverRuns: a load settles once because its one runner calls settle once (metadata/details.go:149-158), which is how the steps are defined.
- SchedulerEndings.Confluence: takes the outcome of a Run, and of the merge of its patch, as a function of the job and of the merged patches of its dependencies, and is about runs that are not cancelled.
- Sharing of pointers between a base cache and the merged one: rows, columns and graphs are values, so that a base never changes holds by construction; only foreign keys have an address.
- Schedules, registry finalizers and maintenance attempts are state machines on values, as several goroutines act on them: their theorems are about every interleaving of atomic steps, and `Plans`, `SchedulerBlocking`, `Loaders`, `Registries` and `Details` hold the loops and the field updates. Tracks, entries and permit sets are named by index.
- Reading the cache for a merge and publishing the merged one are one step of the loader: one goroutine does both, and a publication of another generation is refused anyway.
- A ready channel and the lists that wait on it: closing it and settling an entry are one step, under one lock.
- Refresh and RefreshInBackground, which move the detail generation outside the track's mutex: the maintenance theorems are about runs of Maintain and Invalidate.
- Detail and waitForCategories, the event hub and subscriptions: they only wait for what the loader and the detail cache already state.
- Maintain's check of a staged snapshot's categories and counts: an attempt may fail at any step before publication, with no reason given; scope and incarnation never change within a track, so a baseline is compared by generation and epoch only.
- CatalogMerging.RebuildObjects: skips nil rows in every category; the source skips them in three and panics on them in the others (catalog/cache.go:141-180).
- Wrap-around of 64-bit generations, revisions, epochs, incarnations and byte counts: the counters are unbounded.
- Durations, query counts, timestamps, logging and panic recovery: a native call ends with a result or a failure.
- SemanticKnowledge.RelationStays: keeps the verdict about a relation and not the columns of its fact, which a later category may still enrich; for procedures and domains the descriptor stays too.
- MarkStartFailed's error value, and nil receivers of the index and graph accessors.
- The codePoint column conversion, formatter, parser, dialects, drivers and the protocol layer: separate from the catalog store.
